/** The reporter (services/TestReporter.js): an append-only log, the three-valued summary
    status, and assembly of the final report from values its caller computed. Timestamps and
    the formatted duration come from the wall clock and are opaque string inputs here. */
module TestReporter {
  import opened GitHubResultsPage
  import opened APIMonitor
  import opened DataValidator

  /** The levels the program logs at. */
  datatype Level = INFO | SUCCESS | ERROR

  datatype LogEntry = LogEntry(timestamp: string, level: Level, message: string)

  datatype Reporter = Reporter(testName: string, timestamp: string, logs: seq<LogEntry>)

  /** The constructor, at wall-clock time `now`. */
  function NewReporter(testName: string, now: string): (r: Reporter)
    ensures r.testName == testName && r.timestamp == now && r.logs == []
  {
    Reporter(testName, now, [])
  }

  /** `log(message, level)`, stamped with wall-clock time `now`. */
  function Log(r: Reporter, message: string, level: Level, now: string): (r': Reporter)
    ensures |r'.logs| == |r.logs| + 1
    ensures r'.logs[..|r.logs|] == r.logs
    ensures r'.logs[|r.logs|].level == level && r'.logs[|r.logs|].message == message
    ensures r'.testName == r.testName && r'.timestamp == r.timestamp
  {
    r.(logs := r.logs + [LogEntry(now, level, message)])
  }

  /** `log(message)` with the default level. */
  function LogInfo(r: Reporter, message: string, now: string): (r': Reporter)
    ensures r'.logs == r.logs + [LogEntry(now, INFO, message)]
  {
    Log(r, message, INFO, now)
  }

  /** `logSuccess`. */
  function LogSuccess(r: Reporter, message: string, now: string): (r': Reporter)
    ensures r'.logs == r.logs + [LogEntry(now, SUCCESS, message)]
    ensures r'.testName == r.testName && r'.timestamp == r.timestamp
  {
    Log(r, message, SUCCESS, now)
  }

  /** `logError`. */
  function LogError(r: Reporter, message: string, now: string): (r': Reporter)
    ensures r'.logs == r.logs + [LogEntry(now, ERROR, message)]
    ensures r'.testName == r.testName && r'.timestamp == r.timestamp
  {
    Log(r, message, ERROR, now)
  }

  /** `logStep` only prints to the console; the log is not touched. */
  function LogStep(r: Reporter, stepNumber: int, description: string): (r': Reporter)
    ensures r'.logs == r.logs
  {
    r
  }

  /** Logging any sequence of messages keeps the earlier entries, in order, as a prefix. */
  lemma {:induction false} LogIsAppendOnly(r: Reporter, messages: seq<(string, Level, string)>)
    ensures r.logs <= LogAll(r, messages).logs
    ensures |LogAll(r, messages).logs| == |r.logs| + |messages|
    decreases |messages|
  {
    if |messages| > 0 {
      var m := messages[0];
      LogIsAppendOnly(Log(r, m.0, m.1, m.2), messages[1..]);
    }
  }

  /** Logs `(message, level, time)` triples one after the other. */
  function LogAll(r: Reporter, messages: seq<(string, Level, string)>): Reporter
    decreases |messages|
  {
    if |messages| == 0 then r
    else LogAll(Log(r, messages[0].0, messages[0].1, messages[0].2), messages[1..])
  }

  datatype Status = PASSED | PARTIAL | FAILED

  datatype Summary = Summary(status: Status, frontendValid: bool, backendValid: bool, dataConsistent: bool)

  /** The `validations` argument: the three results the caller computed. */
  datatype Validations =
    Validations(frontend: FrontendValidation, backend: BackendValidation, comparison: Comparison)

  /** `generateSummary`. */
  function GenerateSummary(v: Validations): (s: Summary)
    ensures s.frontendValid <==> v.frontend.valid == v.frontend.total
    ensures s.backendValid <==> v.backend.successful == v.backend.total
    ensures s.dataConsistent == v.comparison.hasMatch
    ensures s.status == PASSED <==> s.frontendValid && s.backendValid && s.dataConsistent
    ensures s.status == PARTIAL <==> s.frontendValid && !(s.backendValid && s.dataConsistent)
    ensures s.status == FAILED <==> !s.frontendValid
  {
    var frontendValid := v.frontend.valid == v.frontend.total;
    var backendValid := v.backend.successful == v.backend.total;
    var status :=
      if frontendValid && backendValid && v.comparison.hasMatch then PASSED
      else if frontendValid then PARTIAL
      else FAILED;
    Summary(status, frontendValid, backendValid, v.comparison.hasMatch)
  }

  /** Making any one of the three conditions false takes a passing summary to PARTIAL (backend
      or consistency) or FAILED (frontend). */
  lemma BreakingOneConditionFailsThePass(v: Validations)
    requires GenerateSummary(v).status == PASSED
    ensures GenerateSummary(v.(comparison := v.comparison.(hasMatch := false))).status == PARTIAL
    ensures v.backend.total > 0 ==>
      GenerateSummary(v.(backend := v.backend.(successful := v.backend.total - 1))).status == PARTIAL
    ensures v.frontend.total > 0 ==>
      GenerateSummary(v.(frontend := v.frontend.(valid := v.frontend.total - 1))).status == FAILED
  {
  }

  datatype FrontendData = FrontendData(results: seq<Repository>)

  datatype ApiData = ApiData(
    requestCount: nat, responseCount: nat, requests: seq<CapturedRequest>, responses: seq<CapturedResponse>)

  datatype TestInfo = TestInfo(name: string, timestamp: string, duration: string)

  datatype FrontendSection = FrontendSection(resultsCount: nat, results: seq<Repository>, validation: FrontendValidation)

  datatype BackendSection = BackendSection(
    requestsCount: nat, responsesCount: nat, requests: seq<CapturedRequest>,
    responses: seq<CapturedResponse>, validation: BackendValidation)

  datatype Report = Report(
    test: TestInfo, frontend: FrontendSection, backend: BackendSection,
    comparison: Comparison, summary: Summary, logs: seq<LogEntry>)

  /** `generateReport`: pure assembly; `duration` is the formatted wall-clock time. The
      report is a value: it is the state at the moment of the call, which is what the JSON
      file written by `saveReport` records. */
  function GenerateReport(r: Reporter, frontendData: FrontendData, apiData: ApiData,
                          validations: Validations, duration: string): (rep: Report)
    ensures rep.test == TestInfo(r.testName, r.timestamp, duration)
    ensures rep.frontend.resultsCount == |frontendData.results| && rep.frontend.results == frontendData.results
    ensures rep.frontend.validation == validations.frontend
    ensures rep.backend.requestsCount == apiData.requestCount && rep.backend.responsesCount == apiData.responseCount
    ensures rep.backend.requests == apiData.requests && rep.backend.responses == apiData.responses
    ensures rep.backend.validation == validations.backend
    ensures rep.comparison == validations.comparison
    ensures rep.summary == GenerateSummary(validations)
    ensures rep.summary.status == PASSED <==>
      && validations.frontend.valid == validations.frontend.total
      && validations.backend.successful == validations.backend.total
      && validations.comparison.hasMatch
    ensures rep.logs == r.logs
  {
    Report(
      test := TestInfo(r.testName, r.timestamp, duration),
      frontend := FrontendSection(|frontendData.results|, frontendData.results, validations.frontend),
      backend := BackendSection(apiData.requestCount, apiData.responseCount, apiData.requests,
                                apiData.responses, validations.backend),
      comparison := validations.comparison,
      summary := GenerateSummary(validations),
      logs := r.logs)
  }
}
