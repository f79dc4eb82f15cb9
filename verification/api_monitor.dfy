/** The network observer (services/APIMonitor.js): a flag, the listeners it attached to the
    page, and two append-only capture sequences. Page events are abstract inputs delivered one
    at a time; a response event carries the outcome of `response.json()`. */
module APIMonitor {
  import opened Wrappers
  import opened Text
  import Json

  datatype CapturedRequest =
    CapturedRequest(url: string, httpMethod: string, headers: map<string, string>, timestamp: string)

  datatype CapturedResponse =
    CapturedResponse(url: string, status: int, statusText: string, body: Json.Value, timestamp: string)

  /** An outgoing request as the page reports it, with the wall-clock time of its capture. */
  datatype RequestEvent =
    RequestEvent(url: string, httpMethod: string, headers: map<string, string>, at: string)

  /** An incoming response; `parsed` is `None` when `response.json()` rejects. */
  datatype ResponseEvent =
    ResponseEvent(url: string, status: int, statusText: string, parsed: Option<Json.Value>, at: string)

  /** The observer and the listeners it has attached to the page, per event kind. */
  datatype Monitor = Monitor(
    isMonitoring: bool,
    requestListeners: nat,
    responseListeners: nat,
    requests: seq<CapturedRequest>,
    responses: seq<CapturedResponse>)

  /** Exactly one listener of each kind is attached while monitoring, none otherwise. */
  predicate Valid(m: Monitor) {
    var attached := if m.isMonitoring then 1 else 0;
    m.requestListeners == attached && m.responseListeners == attached
  }

  /** The constructor. */
  function NewMonitor(): (m: Monitor)
    ensures Valid(m) && !m.isMonitoring
    ensures m.requests == [] && m.responses == []
  {
    Monitor(false, 0, 0, [], [])
  }

  /** `isAPIRequest`: a case-sensitive substring test against three patterns. */
  predicate IsAPIRequest(url: string)
  {
    Includes(url, "/api/") || Includes(url, "search") || Includes(url, "graphql")
  }

  lemma IsAPIRequestMeansSubstring(url: string)
    ensures IsAPIRequest(url) <==>
      || (exists i :: OccursAt(url, "/api/", i))
      || (exists i :: OccursAt(url, "search", i))
      || (exists i :: OccursAt(url, "graphql", i))
  {
  }

  /** The patterns are matched case-sensitively. */
  lemma IsAPIRequestIsCaseSensitive()
    ensures IsAPIRequest("/search")
    ensures !IsAPIRequest("/SEARCH")
    ensures !IsAPIRequest("/API/")
  {
    assert OccursAt("/search", "search", 1);
    forall i | 0 <= i <= 2 ensures !OccursAt("/SEARCH", "/api/", i) {
      assert "/SEARCH"[i..i + 5][1] != "/api/"[1];
    }
    forall i | 0 <= i <= 1 ensures !OccursAt("/SEARCH", "search", i) {
      assert "/SEARCH"[i..i + 6][0] != "search"[0];
    }
    assert "/SEARCH"[0..7][0] != "graphql"[0];
    assert "/API/"[0..5][1] != "/api/"[1];
  }

  /** `startMonitoring`: attaches one listener of each kind unless already monitoring. */
  function StartMonitoring(m: Monitor): (r: Monitor)
    ensures r.isMonitoring
    ensures m.isMonitoring ==> r == m
    ensures !m.isMonitoring ==>
      r.requestListeners == m.requestListeners + 1 && r.responseListeners == m.responseListeners + 1
    ensures r.requests == m.requests && r.responses == m.responses
    ensures Valid(m) ==> Valid(r)
  {
    if m.isMonitoring then m
    else m.(requestListeners := m.requestListeners + 1,
            responseListeners := m.responseListeners + 1,
            isMonitoring := true)
  }

  /** Starting twice attaches no more listeners than starting once. */
  lemma StartMonitoringIdempotent(m: Monitor)
    ensures StartMonitoring(StartMonitoring(m)) == StartMonitoring(m)
  {
  }

  /** `stopMonitoring`: removes every listener, from any state. */
  function StopMonitoring(m: Monitor): (r: Monitor)
    ensures !r.isMonitoring && r.requestListeners == 0 && r.responseListeners == 0
    ensures Valid(r)
    ensures r.requests == m.requests && r.responses == m.responses
  {
    m.(requestListeners := 0, responseListeners := 0, isMonitoring := false)
  }

  /** Stopping a monitor that was never started changes nothing. */
  lemma StopBeforeStartIsNoOp()
    ensures StopMonitoring(NewMonitor()) == NewMonitor()
  {
  }

  /** `captureRequest`: records an API-like request, ignores any other. */
  function CaptureRequest(m: Monitor, e: RequestEvent): (r: Monitor)
    ensures IsAPIRequest(e.url) ==>
      r.requests == m.requests + [CapturedRequest(e.url, e.httpMethod, e.headers, e.at)]
    ensures !IsAPIRequest(e.url) ==> r.requests == m.requests
    ensures r.responses == m.responses
    ensures r.isMonitoring == m.isMonitoring
    ensures r.requestListeners == m.requestListeners && r.responseListeners == m.responseListeners
  {
    if IsAPIRequest(e.url) then
      m.(requests := m.requests + [CapturedRequest(e.url, e.httpMethod, e.headers, e.at)])
    else m
  }

  /** `captureResponse`: records an API-like response whose body parsed; a parse failure is
      swallowed and records nothing. */
  function CaptureResponse(m: Monitor, e: ResponseEvent): (r: Monitor)
    ensures IsAPIRequest(e.url) && e.parsed.Some? ==>
      r.responses == m.responses + [CapturedResponse(e.url, e.status, e.statusText, e.parsed.value, e.at)]
    ensures !IsAPIRequest(e.url) || e.parsed.None? ==> r.responses == m.responses
    ensures r.requests == m.requests
    ensures r.isMonitoring == m.isMonitoring
    ensures r.requestListeners == m.requestListeners && r.responseListeners == m.responseListeners
  {
    if IsAPIRequest(e.url) then
      match e.parsed
      case Some(body) =>
        m.(responses := m.responses + [CapturedResponse(e.url, e.status, e.statusText, body, e.at)])
      case None => m
    else m
  }

  /** `getRequestCount`. */
  function GetRequestCount(m: Monitor): nat {
    |m.requests|
  }

  /** `getResponseCount`. */
  function GetResponseCount(m: Monitor): nat {
    |m.responses|
  }

  /** The counts move exactly with the captures. */
  lemma CountsFollowCaptures(m: Monitor, q: RequestEvent, p: ResponseEvent)
    ensures GetRequestCount(CaptureRequest(m, q)) == GetRequestCount(m) + (if IsAPIRequest(q.url) then 1 else 0)
    ensures GetResponseCount(CaptureRequest(m, q)) == GetResponseCount(m)
    ensures GetResponseCount(CaptureResponse(m, p)) ==
      GetResponseCount(m) + (if IsAPIRequest(p.url) && p.parsed.Some? then 1 else 0)
    ensures GetRequestCount(CaptureResponse(m, p)) == GetRequestCount(m)
  {
  }

  /** The page invokes every attached request listener once per request. */
  function FireRequest(m: Monitor, e: RequestEvent, listeners: nat): (r: Monitor)
    ensures r.isMonitoring == m.isMonitoring
    ensures r.requestListeners == m.requestListeners && r.responseListeners == m.responseListeners
    ensures r.responses == m.responses
    ensures m.requests <= r.requests
    ensures |r.requests| <= |m.requests| + listeners
    decreases listeners
  {
    if listeners == 0 then m else FireRequest(CaptureRequest(m, e), e, listeners - 1)
  }

  /** The page invokes every attached response listener once per response. */
  function FireResponse(m: Monitor, e: ResponseEvent, listeners: nat): (r: Monitor)
    ensures r.isMonitoring == m.isMonitoring
    ensures r.requestListeners == m.requestListeners && r.responseListeners == m.responseListeners
    ensures r.requests == m.requests
    ensures m.responses <= r.responses
    ensures |r.responses| <= |m.responses| + listeners
    decreases listeners
  {
    if listeners == 0 then m else FireResponse(CaptureResponse(m, e), e, listeners - 1)
  }

  /** What happens on the page, in the order the single-threaded event loop delivers it. */
  datatype PageEvent =
    | Start
    | Stop
    | Request(request: RequestEvent)
    | Response(response: ResponseEvent)

  function Step(m: Monitor, ev: PageEvent): Monitor {
    match ev
    case Start => StartMonitoring(m)
    case Stop => StopMonitoring(m)
    case Request(e) => FireRequest(m, e, m.requestListeners)
    case Response(e) => FireResponse(m, e, m.responseListeners)
  }

  /** On a valid monitor an event is captured at most once, only while monitoring, and
      exactly as the capture function would record it. */
  lemma StepDeliversOnce(m: Monitor, ev: PageEvent)
    requires Valid(m)
    ensures Valid(Step(m, ev))
    ensures ev.Request? ==> Step(m, ev) == if m.isMonitoring then CaptureRequest(m, ev.request) else m
    ensures ev.Response? ==> Step(m, ev) == if m.isMonitoring then CaptureResponse(m, ev.response) else m
  {
    if ev.Request? && m.isMonitoring {
      assert FireRequest(m, ev.request, 1) == FireRequest(CaptureRequest(m, ev.request), ev.request, 0);
    }
    if ev.Response? && m.isMonitoring {
      assert FireResponse(m, ev.response, 1) == FireResponse(CaptureResponse(m, ev.response), ev.response, 0);
    }
  }

  function Run(m: Monitor, evs: seq<PageEvent>): Monitor
    decreases |evs|
  {
    if |evs| == 0 then m else Run(Step(m, evs[0]), evs[1..])
  }

  /** Over any run the listeners stay consistent with the flag, both sequences only grow, and
      every captured request is API-like. */
  lemma {:induction false} RunAppendOnly(m: Monitor, evs: seq<PageEvent>)
    requires Valid(m)
    ensures Valid(Run(m, evs))
    ensures m.requests <= Run(m, evs).requests
    ensures m.responses <= Run(m, evs).responses
    ensures forall i :: |m.requests| <= i < |Run(m, evs).requests| ==> IsAPIRequest(Run(m, evs).requests[i].url)
    decreases |evs|
  {
    if |evs| > 0 {
      var m' := Step(m, evs[0]);
      StepDeliversOnce(m, evs[0]);
      RunAppendOnly(m', evs[1..]);
      assert Run(m, evs) == Run(m', evs[1..]);
    }
  }
}
