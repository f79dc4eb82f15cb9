# GitHub search test harness — core model in Dafny

This project models the deterministic core of an end-to-end browser test of a repository
search page. The harness extracts the rendered results, watches the page's network traffic,
cross-checks the two views, and writes a pass/fail report. The model covers four pieces:

- **Result extraction** (`GitHubResultsPage`, `results_page.dfy`). The browser is replaced by
  one `ItemReads` value per rendered result item. Each holds the outcome of the four element
  reads the page object performs: name text, link target, stars text and description text.
  A read can throw (`Failed`) or return a string or `null` (`Text(Some s)` / `Text(None)`).
  `ExtractAllResults` is the loop over `min(count, limit)` items. It is a method with loop
  invariants, checked against the functional definition `ExtractedRecords`.
- **Network observer** (`APIMonitor`, `api_monitor.dfy`). This is a state record: the
  monitoring flag, the number of request and response listeners attached to the page, and two
  append-only capture sequences. Page events are abstract inputs delivered one at a time. A
  response event carries the outcome of `response.json()` as an `Option`.
- **Validator** (`DataValidator`, `data_validator.dfy`). It scores records and responses and
  reconciles the frontend count with response item arrays. Response bodies are values of a
  small JSON type (`Json`, `json.dfy`) with JavaScript truthiness, property lookup,
  `Object.keys` and `||`.
- **Reporter** (`TestReporter`, `test_reporter.dfy`). It holds the append-only log, the
  PASSED / PARTIAL / FAILED summary and report assembly. `SearchTest` (`search_test.dfy`)
  composes them the way the test's `runTest` does, to state end-to-end properties.

Shared helpers: `Wrappers` (`Option`), `Seqs` (filter-map with an order witness, counting),
`Text` (JavaScript `trim`, `startsWith`, `includes`, `substring(0, n)`).

Two behaviours of the code are easy to misread:

- The item array of a response body is `body.items || body.results || body.data`. That is the
  first *truthy* of the three, not the first *present* key. A truthy non-array under `items`
  drops the response; the search does not go on to `results` (`NoFallThroughPastNonArray`).
- A stars or description read that returns `null` (rather than throwing) does not default to
  `"N/A"`. The later `.trim()` throws inside the outer `try`, so the whole item is dropped.

## Model

| member | source | states |
|---|---|---|
| `GitHubResultsPage.NormalizeName` | pages/GitHubResultsPage.js:37 | the name is the trimmed text when that is non-blank, else `"N/A"`; never empty |
| `GitHubResultsPage.NormalizeUrl` | pages/GitHubResultsPage.js:38 | the url is the attribute unchanged when present and non-empty, else `"N/A"`; never empty |
| `GitHubResultsPage.NormalizeDescription` | pages/GitHubResultsPage.js:40 | the description has at most 100 characters, is a prefix of the trimmed text, and is all of it when it is shorter |
| `GitHubResultsPage.ExtractRepositoryData` | pages/GitHubResultsPage.js:18-45 | an item yields no record exactly when the name or link read throws, or a stars/description read returns null; a throwing stars or description read leaves `"N/A"`; fields are normalised as above |
| `GitHubResultsPage.Attempted` | pages/GitHubResultsPage.js:52 | the number of items visited is at most the item count and at most a non-negative limit, and is the count or the limit; for a negative limit it is zero, so the loop visits nothing |
| `GitHubResultsPage.ExtractAllResults` | pages/GitHubResultsPage.js:47-67 | the loop returns at most `min(count, limit)` records (default limit 5), and they are exactly the non-dropped extractions of the visited items |
| `GitHubResultsPage.ExtractedInDocumentOrder` | pages/GitHubResultsPage.js:55-63 | record k comes from visited item ix[k]; ix is strictly increasing; every visited item that yields a record is included |
| `Text.TrimSpec` | pages/GitHubResultsPage.js:37-40 | the result is a contiguous slice of the input with only whitespace removed from both ends, and starts and ends with non-whitespace |
| `Text.Includes` | services/APIMonitor.js:52 | `includes` holds iff the pattern occurs at some position |
| `Text.Prefix` | pages/GitHubResultsPage.js:40 | `substring(0, n)` is a prefix of length `n`, or the whole string when it is shorter |
| `APIMonitor.NewMonitor` | services/APIMonitor.js:2-7 | a new monitor is not monitoring, has no listeners and empty capture sequences |
| `APIMonitor.IsAPIRequestMeansSubstring` | services/APIMonitor.js:51-53 | a url is API-like iff `/api/`, `search` or `graphql` occurs in it |
| `APIMonitor.IsAPIRequestIsCaseSensitive` | services/APIMonitor.js:51-53 | `/search` is API-like; `/SEARCH` and `/API/` are not |
| `APIMonitor.StartMonitoring` | services/APIMonitor.js:9-15 | after start the monitor is monitoring; if it already was, nothing changes; otherwise one listener of each kind is added; captures are untouched |
| `APIMonitor.StartMonitoringIdempotent` | services/APIMonitor.js:9-15 | starting twice equals starting once |
| `APIMonitor.StopMonitoring` | services/APIMonitor.js:17-21 | from any state, stop leaves the monitor not monitoring with no listeners and both sequences unchanged |
| `APIMonitor.StopBeforeStartIsNoOp` | services/APIMonitor.js:17-21 | stopping a never-started monitor gives back the same monitor |
| `APIMonitor.CaptureRequest` | services/APIMonitor.js:23-32 | exactly one entry with the event's url, method, headers and time is appended iff the url is API-like; otherwise requests are unchanged; responses never change |
| `APIMonitor.CaptureResponse` | services/APIMonitor.js:34-49 | one entry is appended iff the url is API-like and the body parsed; a parse failure leaves responses unchanged and raises nothing |
| `APIMonitor.CountsFollowCaptures` | services/APIMonitor.js:63-69 | the request count grows by one exactly on an API-like request, the response count exactly on an API-like parsed response |
| `APIMonitor.FireRequest` | services/APIMonitor.js:12 | delivering a request to the attached listeners only extends `requests`, by at most one entry per listener |
| `APIMonitor.FireResponse` | services/APIMonitor.js:13 | delivering a response to the attached listeners only extends `responses`, by at most one entry per listener |
| `APIMonitor.StepDeliversOnce` | services/APIMonitor.js:9-21 | with the one-listener-per-kind invariant, an event is captured once while monitoring and ignored otherwise, and start/stop keep the invariant |
| `APIMonitor.RunAppendOnly` | services/APIMonitor.js:23-48 | over any event sequence both capture sequences only grow, earlier entries are never modified, and every newly captured request is API-like |
| `Json.Or` | services/DataValidator.js:37 | the JavaScript or-operator gives a truthy value iff either operand is truthy; it returns the left operand when that is truthy and the right operand otherwise |
| `Json.Keys` | services/DataValidator.js:36 | `Object.keys` gives an object's member names; for an array of n elements or a string of n characters the names `"0"` … `"n-1"` in order (`IndexNames` renders index i as `Decimal(i)`); none for numbers and booleans |
| `Seqs.CountTrue` | services/DataValidator.js:20 | `filter(...).length` is the number of positions holding true; so it is at most the length, equals it iff all hold, and is positive iff one holds |
| `DataValidator.ValidateRepositoryData` | services/DataValidator.js:2-9 | `hasName` iff the name is non-empty and not `"N/A"`; `hasValidUrl` iff the url is not `"N/A"` and starts with `/` (so false when empty); `hasDescription` likewise; `isComplete` is always false |
| `DataValidator.ValidateIndexed` | services/DataValidator.js:12-18 | each entry carries index i+1 and the record's name, and `isComplete` is `hasName && hasValidUrl` |
| `DataValidator.ValidateAllRepositories` | services/DataValidator.js:11-28 | `total` is the input length; entry i is the per-record validation of record i (index i+1, its name, the flags of `validateRepositoryData`, `isComplete = hasName && hasValidUrl`); `valid` is the number of complete records and `valid + invalid = total`; `valid = total` iff every record is complete; `valid > 0` iff some record is |
| `DataValidator.CompletenessIgnoresDescription` | services/DataValidator.js:16 | changing any record's description never changes the valid count |
| `DataValidator.PickItems` | services/DataValidator.js:68 | the chosen value is the first truthy of `items`, `results`, `data`, falling to `data` only when both earlier ones are falsy |
| `DataValidator.ValidateAPIResponse` | services/DataValidator.js:30-39 | `isSuccess` iff status is exactly 200; `hasData` iff the body is truthy with at least one key, iff `dataKeys` is non-empty; `dataKeys` is `Object.keys` of a truthy body (member names, or index names of an array or string) and empty otherwise; `hasItems` iff the body is truthy and one of the three keys is truthy |
| `DataValidator.ValidateAllAPIResponses` | services/DataValidator.js:41-56 | `successful` is the number of responses with status 200 and `successful + failed = total` with `total` the input length; `successful = total` iff every status is 200; entries in input order with indices 1..n |
| `DataValidator.ItemArray` | services/DataValidator.js:67-69 | a response contributes an array exactly when its body is truthy and the chosen value is an array |
| `DataValidator.NoFallThroughPastNonArray` | services/DataValidator.js:68-69 | a truthy non-array under `items` makes the response contribute nothing, whatever `results` or `data` hold |
| `DataValidator.ItemCountOf` | services/DataValidator.js:66-76 | a response adds an entry iff it has an item array; the entry has its url and the array length, and matches iff that length is at least the frontend count |
| `DataValidator.AnyMatch` | services/DataValidator.js:79 | `some(b => b.matchesFrontend)` holds iff some entry matches |
| `DataValidator.CompareBackendWithFrontend` | services/DataValidator.js:58-82 | `backendResponsesCount` is the number of responses; there are no more entries than responses; each entry matches iff its count reaches the frontend count; `hasMatch` iff some entry matches, so false without entries |
| `DataValidator.ItemCountsFollowResponses` | services/DataValidator.js:66-77 | entry k comes from response ix[k] with its url and item-array length; ix is strictly increasing; every response with an item array appears |
| `DataValidator.HasMatchIffSomeResponseReaches` | services/DataValidator.js:79 | `hasMatch` iff some response's item array is at least as long as the frontend count |
| `DataValidator.ComparisonExample` | services/DataValidator.js:58-82 | for arrays of length 2 under `items` and 3 under `results` against 3 results: entries (2, false) and (3, true), and `hasMatch` |
| `TestReporter.NewReporter` | services/TestReporter.js:4-8 | a new reporter keeps the test name and start time and has an empty log |
| `TestReporter.Log` | services/TestReporter.js:10-16 | logging appends exactly one entry with the given level and message and leaves earlier entries as they were |
| `TestReporter.LogInfo` | services/TestReporter.js:10 | the default level is INFO |
| `TestReporter.LogSuccess` | services/TestReporter.js:26-28 | appends one SUCCESS entry |
| `TestReporter.LogError` | services/TestReporter.js:30-32 | appends one ERROR entry |
| `TestReporter.LogStep` | services/TestReporter.js:22-24 | the log is unchanged |
| `TestReporter.LogIsAppendOnly` | services/TestReporter.js:10-16 | after any number of log calls the old log is a prefix and the log grew by one entry per call |
| `TestReporter.GenerateSummary` | services/TestReporter.js:59-76 | PASSED iff valid = total, successful = total and `hasMatch`; PARTIAL iff frontend-valid but not both of the others; FAILED iff not frontend-valid; the three flags echo these conditions |
| `TestReporter.BreakingOneConditionFailsThePass` | services/TestReporter.js:63-68 | from a pass, losing the match or one successful response gives PARTIAL; losing one valid record gives FAILED |
| `TestReporter.GenerateReport` | services/TestReporter.js:34-57 | the report holds, as they stand at the call, the test identity, `resultsCount` as the number of results, the results, the request and response counts and sequences, the validations, the comparison and the log; its summary is `generateSummary` of the validations, so its status is PASSED iff the three conditions hold |
| `SearchTest.RunReportCounts` | tests/GitHubSearchTest.js:90-105 | in a run, at most 5 results are reported; request and response counts are the monitor's sequence lengths |
| `SearchTest.RunPassesIff` | tests/GitHubSearchTest.js:57-105 | a run passes iff every extracted record is complete, every captured status is 200, and some captured item array is at least as long as the number of records |
| `SearchTest.EmptyExtractionCanPass` | tests/GitHubSearchTest.js:84-87 | with nothing extracted, one 200 response with an empty `items` array is enough to pass |
| `SearchTest.ExtractedRecordCompleteness` | pages/GitHubResultsPage.js:37-38 | an extracted record is complete iff its trimmed name text is neither blank nor `"N/A"` and its link target starts with `/` |
| `SearchTest.NormalizedNameCheck` | services/DataValidator.js:4 | a normalised name has a name iff the trimmed text is neither blank nor `"N/A"` |
| `SearchTest.NormalizedUrlCheck` | services/DataValidator.js:5 | a normalised url is valid iff the attribute was present and starts with `/` |

## Left out

- Browser automation: locators, element counting (`getResultsCount` is the length of the item
  sequence), navigation, filling and submitting the search form, network-idle waits and the
  fixed settle delay (pages/GitHubSearchPage.js). Inputs replace them.
- Test orchestration (tests/GitHubSearchTest.js): the order of browser steps, screenshots,
  teardown delays and the process exit code. Only the data flow of steps 4 to 8 is modelled
  (`SearchTest`). `RunReport` takes the reporter as it stands when step 8 calls
  `generateReport`; the `logSuccess` entries of steps 4 to 7 (tests/GitHubSearchTest.js:60,
  69, 75 and 88) are already in its log.
- `calculateDuration` and every `new Date().toISOString()`: wall-clock values become opaque
  string parameters. This leaves out floating-point formatting.
- `saveReport`, `printSummary` and all console output, including the log-level prefixes.
  Without serialisation there is no save/reload round trip to state.
- `getRequests` / `getResponses`: plain accessors. The model reads the monitor's sequences
  directly.
- Asynchronous event delivery: each event is one sequential step (`Step`, `Run`). The awaited
  `response.json()` completes within its own step.
- `removeAllListeners` also removes listeners that other code attached to the page. The model
  counts only the monitor's own listeners.
- `TestReporter.GenerateReport`: the report is a value snapshot. In the source, `logs`,
  `requests` and `responses` are references to the reporter's log and the monitor's arrays.
  Entries logged after the call (`saveReport`'s own success line, the screenshot step, the
  teardown messages) and responses captured before monitoring stops in teardown also appear
  in the in-memory report, while its counts and validations stay as computed. The model
  matches the JSON file that `saveReport` writes at the moment of the call.
- `TestReporter.Log`: the source accepts any string as a level. The model has the three levels
  the program uses.
- `Text.Trim`, `Text.Prefix`: characters are Unicode scalar values, while JavaScript counts
  UTF-16 code units. A description with characters outside the Basic Multilingual Plane is
  cut at a different point.
- `Json.Keys`: object members are held in JavaScript's enumeration order, with one member per
  key. The reordering that `Object.keys` applies to integer-like keys, and the collapsing of
  duplicate keys by `JSON.parse`, are left to that representation. A string's length is
  counted in Unicode scalar values, while JavaScript gives one index name per UTF-16 code
  unit: `Object.keys` of a string holding one character outside the Basic Multilingual Plane
  gives `"0"` and `"1"`, the model only `"0"`.
- JSON numbers are reals. Only their truthiness matters here; floating-point rounding is not
  modelled.
- `DataValidator.ValidateRepositoryData`: record fields are always strings, as the extractor
  produces them. The source would also accept objects whose fields are missing or not strings.
