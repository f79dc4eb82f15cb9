/** The data flow of one test run (tests/GitHubSearchTest.js, `runTest`): the extracted records,
    the monitor's captures and the validator's verdicts feed the report. Browser steps,
    screenshots and console output are not part of it. */
module SearchTest {
  import opened Wrappers
  import opened Text
  import Json
  import opened GitHubResultsPage
  import opened APIMonitor
  import opened DataValidator
  import opened TestReporter

  /** The report built by steps 4 to 8 of `runTest`, with the extraction limit the test uses.
      `reporter` is the reporter as it stands when step 8 calls `generateReport`: the
      `logSuccess` entries that steps 4 to 7 append are already in its log. */
  function RunReport(reporter: Reporter, items: seq<ItemReads>, monitor: Monitor, duration: string): Report {
    var results := ExtractedRecords(items, 5);
    var responses := monitor.responses;
    GenerateReport(
      reporter,
      FrontendData(results),
      ApiData(GetRequestCount(monitor), GetResponseCount(monitor), monitor.requests, responses),
      Validations(
        ValidateAllRepositories(results),
        ValidateAllAPIResponses(responses),
        CompareBackendWithFrontend(|results|, responses)),
      duration)
  }

  /** The report's counts are the extracted and captured sequence lengths. */
  lemma RunReportCounts(reporter: Reporter, items: seq<ItemReads>, monitor: Monitor, duration: string)
    ensures var rep := RunReport(reporter, items, monitor, duration);
      && rep.frontend.resultsCount <= 5
      && rep.frontend.resultsCount <= |items|
      && rep.backend.requestsCount == |monitor.requests|
      && rep.backend.responsesCount == |monitor.responses|
      && rep.comparison.backendResponsesCount == |monitor.responses|
      && rep.logs == reporter.logs
  {
  }

  /** A run passes exactly when every extracted record is complete, every captured response
      has status 200, and some captured response carries an item array at least as long as
      the number of extracted records. */
  lemma {:induction false} RunPassesIff(reporter: Reporter, items: seq<ItemReads>, monitor: Monitor, duration: string)
    ensures var results := ExtractedRecords(items, 5);
      var rs := monitor.responses;
      RunReport(reporter, items, monitor, duration).summary.status == PASSED <==>
        && (forall i :: 0 <= i < |results| ==> IsComplete(results[i]))
        && (forall j :: 0 <= j < |rs| ==> rs[j].status == 200)
        && (exists j :: 0 <= j < |rs| && Reaches(rs[j], |results|))
  {
    HasMatchIffSomeResponseReaches(|ExtractedRecords(items, 5)|, monitor.responses);
  }

  /** When nothing is extracted, one successful response with an empty `items` array is enough
      for the run to pass: the consistency check compares against a count of zero. */
  lemma EmptyExtractionCanPass(reporter: Reporter, duration: string)
    ensures var monitor := NewMonitor().(responses := [
        CapturedResponse("https://github.com/search?q=x", 200, "OK", Json.Obj([("items", Json.Arr([]))]), "t")]);
      RunReport(reporter, [], monitor, duration).summary.status == PASSED
  {
    var monitor := NewMonitor().(responses := [
        CapturedResponse("https://github.com/search?q=x", 200, "OK", Json.Obj([("items", Json.Arr([]))]), "t")]);
    RunPassesIff(reporter, [], monitor, duration);
    assert ItemArray(monitor.responses[0]).Some?;
  }

  /** An extracted record is complete exactly when the item's name text, trimmed, is neither
      blank nor the sentinel, and its link target starts with `/`. */
  lemma ExtractedRecordCompleteness(item: ItemReads)
    requires ExtractRepositoryData(item).Some?
    ensures IsComplete(ExtractRepositoryData(item).value) <==>
      && item.name.value.Some?
      && Trim(item.name.value.value) != ""
      && Trim(item.name.value.value) != NotAvailable
      && item.href.value.Some?
      && StartsWith(item.href.value.value, "/")
  {
    var rec := ExtractRepositoryData(item).value;
    NormalizedNameCheck(item.name.value);
    NormalizedUrlCheck(item.href.value);
    assert ValidateRepositoryData(rec).hasName == ValidateRepositoryData(Repository(NormalizeName(item.name.value), "", "", "")).hasName;
    assert ValidateRepositoryData(rec).hasValidUrl == ValidateRepositoryData(Repository("", NormalizeUrl(item.href.value), "", "")).hasValidUrl;
  }

  lemma NormalizedNameCheck(text: Option<string>)
    ensures ValidateRepositoryData(Repository(NormalizeName(text), "", "", "")).hasName <==>
      text.Some? && Trim(text.value) != "" && Trim(text.value) != NotAvailable
  {
  }

  lemma NormalizedUrlCheck(href: Option<string>)
    ensures ValidateRepositoryData(Repository("", NormalizeUrl(href), "", "")).hasValidUrl <==>
      href.Some? && StartsWith(href.value, "/")
  {
    assert !StartsWith(NotAvailable, "/") by {
      assert NotAvailable[..1][0] != "/"[0];
    }
  }
}
