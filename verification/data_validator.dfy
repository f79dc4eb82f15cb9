/** The pure validator (services/DataValidator.js): scores extracted records and captured
    responses, and reconciles the frontend result count with item arrays in response bodies. */
module DataValidator {
  import opened Wrappers
  import opened Seqs
  import opened Text
  import opened Json
  import opened GitHubResultsPage
  import opened APIMonitor

  /** JavaScript truthiness of a string field. */
  predicate Present(s: string) {
    s != ""
  }

  datatype RepositoryChecks =
    RepositoryChecks(hasName: bool, hasValidUrl: bool, hasDescription: bool, isComplete: bool)

  /** One entry of `validateAllRepositories(...).validations`. */
  datatype RepositoryValidation = RepositoryValidation(checks: RepositoryChecks, index: nat, name: string)

  datatype FrontendValidation =
    FrontendValidation(total: nat, valid: nat, invalid: int, validations: seq<RepositoryValidation>)

  /** `validateRepositoryData`. */
  function ValidateRepositoryData(repo: Repository): (v: RepositoryChecks)
    ensures v.hasName <==> repo.name != "" && repo.name != NotAvailable
    ensures v.hasValidUrl <==> repo.url != NotAvailable && StartsWith(repo.url, "/")
    ensures repo.url == "" || repo.url == NotAvailable || !StartsWith(repo.url, "/") ==> !v.hasValidUrl
    ensures v.hasDescription <==> repo.description != "" && repo.description != NotAvailable
    // completeness is left for the caller to fill in
    ensures !v.isComplete
  {
    RepositoryChecks(
      hasName := Present(repo.name) && repo.name != NotAvailable && |repo.name| > 0,
      hasValidUrl := Present(repo.url) && repo.url != NotAvailable && StartsWith(repo.url, "/"),
      hasDescription := Present(repo.description) && repo.description != NotAvailable,
      isComplete := false)
  }

  /** The per-record step of `validateAllRepositories` (the `map` callback). */
  function ValidateIndexed(repo: Repository, index: nat): (v: RepositoryValidation)
    ensures v.index == index + 1 && v.name == repo.name
    ensures v.checks.isComplete == (v.checks.hasName && v.checks.hasValidUrl)
    ensures v.checks.(isComplete := false) == ValidateRepositoryData(repo)
  {
    var checks := ValidateRepositoryData(repo);
    RepositoryValidation(checks.(isComplete := checks.hasName && checks.hasValidUrl), index + 1, repo.name)
  }

  /** A record counts as complete when it has a name and a valid url; the description is
      not consulted. */
  predicate IsComplete(repo: Repository) {
    var c := ValidateRepositoryData(repo);
    c.hasName && c.hasValidUrl
  }

  function CompletenessFlags(vs: seq<RepositoryValidation>): (bs: seq<bool>)
    ensures |bs| == |vs| && forall i :: 0 <= i < |vs| ==> bs[i] == vs[i].checks.isComplete
  {
    seq(|vs|, i requires 0 <= i < |vs| => vs[i].checks.isComplete)
  }

  /** `validateAllRepositories`. */
  function ValidateAllRepositories(repos: seq<Repository>): (r: FrontendValidation)
    ensures r.total == |repos| == |r.validations|
    ensures forall i :: 0 <= i < |repos| ==>
      && r.validations[i].index == i + 1
      && r.validations[i].name == repos[i].name
      && r.validations[i].checks.isComplete == IsComplete(repos[i])
    ensures forall i :: 0 <= i < |repos| ==> r.validations[i] == ValidateIndexed(repos[i], i)
    ensures r.valid == |set i | 0 <= i < |repos| && IsComplete(repos[i])|
    ensures r.valid <= r.total && r.valid + r.invalid == r.total
    ensures r.valid == r.total <==> forall i :: 0 <= i < |repos| ==> IsComplete(repos[i])
    ensures r.valid > 0 <==> exists i :: 0 <= i < |repos| && IsComplete(repos[i])
  {
    var validations := seq(|repos|, i requires 0 <= i < |repos| => ValidateIndexed(repos[i], i));
    var flags := CompletenessFlags(validations);
    assert (set i | 0 <= i < |flags| && flags[i]) == (set i | 0 <= i < |repos| && IsComplete(repos[i]));
    var validCount := CountTrue(flags);
    FrontendValidation(|repos|, validCount, |repos| - validCount, validations)
  }

  /** Changing a record's description never changes whether it is complete. */
  lemma {:induction false} CompletenessIgnoresDescription(repos: seq<Repository>, i: nat, description: string)
    requires i < |repos|
    ensures ValidateAllRepositories(repos[i := repos[i].(description := description)]).valid
         == ValidateAllRepositories(repos).valid
  {
    var repos' := repos[i := repos[i].(description := description)];
    var flags := CompletenessFlags(ValidateAllRepositories(repos).validations);
    var flags' := CompletenessFlags(ValidateAllRepositories(repos').validations);
    assert flags == flags';
  }

  datatype ResponseChecks = ResponseChecks(
    url: string, status: int, isSuccess: bool, hasData: bool, dataKeys: seq<string>, hasItems: bool)

  /** One entry of `validateAllAPIResponses(...).validations`. */
  datatype ResponseValidation = ResponseValidation(checks: ResponseChecks, index: nat)

  datatype BackendValidation =
    BackendValidation(total: nat, successful: nat, failed: int, validations: seq<ResponseValidation>)

  /** `body.items || body.results || body.data` on a truthy body. */
  function PickItems(body: Value): (r: Option<Value>)
    requires Truthy(body)
    ensures TruthyOpt(r) <==>
      TruthyOpt(Get(body, "items")) || TruthyOpt(Get(body, "results")) || TruthyOpt(Get(body, "data"))
    // the first truthy one wins: no later key is looked at once an earlier one is truthy
    ensures TruthyOpt(Get(body, "items")) ==> r == Get(body, "items")
    ensures !TruthyOpt(Get(body, "items")) && TruthyOpt(Get(body, "results")) ==> r == Get(body, "results")
    ensures !TruthyOpt(Get(body, "items")) && !TruthyOpt(Get(body, "results")) ==> r == Get(body, "data")
  {
    Or(Or(Get(body, "items"), Get(body, "results")), Get(body, "data"))
  }

  /** `validateAPIResponse`. */
  function ValidateAPIResponse(response: CapturedResponse): (v: ResponseChecks)
    ensures v.url == response.url && v.status == response.status
    ensures v.isSuccess <==> response.status == 200
    ensures v.hasData <==> Truthy(response.body) && |Keys(response.body)| > 0
    ensures v.hasData <==> |v.dataKeys| > 0
    ensures v.hasData ==> response.body.Obj? || response.body.Arr? || response.body.Str?
    ensures response.body.Obj? ==> v.dataKeys == MemberNames(response.body.members)
    ensures v.dataKeys == if Truthy(response.body) then Keys(response.body) else []
    ensures v.hasItems <==>
      && Truthy(response.body)
      && (|| TruthyOpt(Get(response.body, "items"))
          || TruthyOpt(Get(response.body, "results"))
          || TruthyOpt(Get(response.body, "data")))
  {
    var body := response.body;
    ResponseChecks(
      url := response.url,
      status := response.status,
      isSuccess := response.status == 200,
      hasData := Truthy(body) && |Keys(body)| > 0,
      dataKeys := if Truthy(body) then Keys(body) else [],
      hasItems := Truthy(body) && TruthyOpt(PickItems(body)))
  }

  function SuccessFlags(vs: seq<ResponseValidation>): (bs: seq<bool>)
    ensures |bs| == |vs| && forall i :: 0 <= i < |vs| ==> bs[i] == vs[i].checks.isSuccess
  {
    seq(|vs|, i requires 0 <= i < |vs| => vs[i].checks.isSuccess)
  }

  /** `validateAllAPIResponses`. */
  function ValidateAllAPIResponses(responses: seq<CapturedResponse>): (r: BackendValidation)
    ensures r.total == |responses| == |r.validations|
    ensures forall i :: 0 <= i < |responses| ==>
      && r.validations[i].index == i + 1
      && r.validations[i].checks == ValidateAPIResponse(responses[i])
    ensures r.successful <= r.total && r.successful + r.failed == r.total
    ensures r.successful == |set i | 0 <= i < |responses| && responses[i].status == 200|
    ensures r.successful == r.total <==> forall i :: 0 <= i < |responses| ==> responses[i].status == 200
  {
    var validations := seq(|responses|, i requires 0 <= i < |responses| =>
      ResponseValidation(ValidateAPIResponse(responses[i]), i + 1));
    var flags := SuccessFlags(validations);
    assert (set i | 0 <= i < |flags| && flags[i]) == (set i | 0 <= i < |responses| && responses[i].status == 200);
    var successCount := CountTrue(flags);
    BackendValidation(|responses|, successCount, |responses| - successCount, validations)
  }

  /** One entry of `comparison.backendItemCounts`. */
  datatype ItemCount = ItemCount(url: string, count: nat, matchesFrontend: bool)

  datatype Comparison = Comparison(
    frontendCount: int, backendResponsesCount: nat, backendItemCounts: seq<ItemCount>, hasMatch: bool)

  /** The item array a response contributes to the comparison, if any: the body must be
      truthy and the first truthy of its three keys must be an array. */
  function ItemArray(response: CapturedResponse): (r: Option<seq<Value>>)
    ensures r.Some? ==> Truthy(response.body) && PickItems(response.body) == Some(Arr(r.value))
    ensures r.None? ==> !Truthy(response.body) || !(PickItems(response.body).Some? && PickItems(response.body).value.Arr?)
  {
    if Truthy(response.body) then
      match PickItems(response.body)
      case Some(Arr(items)) => Some(items)
      case _ => None
    else None
  }

  /** The body of the `forEach` callback: the entry a response adds, if any. */
  function ItemCountOf(response: CapturedResponse, frontendCount: int): (r: Option<ItemCount>)
    ensures r.Some? <==> ItemArray(response).Some?
    ensures r.Some? ==> r.value.url == response.url && r.value.count == |ItemArray(response).value|
    ensures r.Some? ==> (r.value.matchesFrontend <==> r.value.count >= frontendCount)
  {
    match ItemArray(response)
    case Some(items) => Some(ItemCount(response.url, |items|, |items| >= frontendCount))
    case None => None
  }

  function ItemCountsOf(responses: seq<CapturedResponse>, frontendCount: int): (r: seq<Option<ItemCount>>)
    ensures |r| == |responses|
    ensures forall i :: 0 <= i < |responses| ==> r[i] == ItemCountOf(responses[i], frontendCount)
  {
    seq(|responses|, i requires 0 <= i < |responses| => ItemCountOf(responses[i], frontendCount))
  }

  /** `backendItemCounts.some(b => b.matchesFrontend)`. */
  function AnyMatch(counts: seq<ItemCount>): (b: bool)
    ensures b <==> exists k :: 0 <= k < |counts| && counts[k].matchesFrontend
  {
    if |counts| == 0 then false
    else
      assert forall k :: 1 <= k < |counts| ==> counts[k] == counts[1..][k - 1];
      counts[0].matchesFrontend || AnyMatch(counts[1..])
  }

  /** `compareBackendWithFrontend`. */
  function CompareBackendWithFrontend(frontendCount: int, responses: seq<CapturedResponse>): (c: Comparison)
    ensures c.frontendCount == frontendCount && c.backendResponsesCount == |responses|
    ensures |c.backendItemCounts| <= |responses|
    ensures forall k :: 0 <= k < |c.backendItemCounts| ==>
      (c.backendItemCounts[k].matchesFrontend <==> c.backendItemCounts[k].count >= frontendCount)
    ensures c.hasMatch <==> exists k :: 0 <= k < |c.backendItemCounts| && c.backendItemCounts[k].matchesFrontend
    ensures |c.backendItemCounts| == 0 ==> !c.hasMatch
  {
    CountsMatchTheirCount(responses, frontendCount);
    var counts := KeepSome(ItemCountsOf(responses, frontendCount));
    Comparison(frontendCount, |responses|, counts, AnyMatch(counts))
  }

  lemma CountsMatchTheirCount(responses: seq<CapturedResponse>, frontendCount: int)
    ensures forall k :: 0 <= k < |KeepSome(ItemCountsOf(responses, frontendCount))| ==>
      var e := KeepSome(ItemCountsOf(responses, frontendCount))[k];
      e.matchesFrontend <==> e.count >= frontendCount
  {
    KeepSomeOrder(ItemCountsOf(responses, frontendCount));
  }

  /** The comparison entries are the responses that carry an item array, in response order,
      none left out: entry `k` comes from response `ix[k]`, with its url and its array length. */
  lemma ItemCountsFollowResponses(frontendCount: int, responses: seq<CapturedResponse>)
    ensures var c, ix := CompareBackendWithFrontend(frontendCount, responses), SomeIndices(ItemCountsOf(responses, frontendCount));
      && |ix| == |c.backendItemCounts|
      && (forall k :: 0 <= k < |ix| ==>
            && ix[k] < |responses|
            && ItemArray(responses[ix[k]]).Some?
            && c.backendItemCounts[k].url == responses[ix[k]].url
            && c.backendItemCounts[k].count == |ItemArray(responses[ix[k]]).value|)
      && (forall k, l :: 0 <= k < l < |ix| ==> ix[k] < ix[l])
      && (forall i :: 0 <= i < |responses| && ItemArray(responses[i]).Some? ==> i in ix)
  {
    KeepSomeOrder(ItemCountsOf(responses, frontendCount));
  }

  /** `hasMatch` holds exactly when some response's item array is at least as long as the
      frontend count. */
  lemma HasMatchIffSomeResponseReaches(frontendCount: int, responses: seq<CapturedResponse>)
    ensures CompareBackendWithFrontend(frontendCount, responses).hasMatch <==>
      exists i :: 0 <= i < |responses| && Reaches(responses[i], frontendCount)
  {
    var xs := ItemCountsOf(responses, frontendCount);
    var counts := KeepSome(xs);
    var ix := SomeIndices(xs);
    KeepSomeOrder(xs);
    assert CompareBackendWithFrontend(frontendCount, responses).backendItemCounts == counts;
    if k :| 0 <= k < |counts| && counts[k].matchesFrontend {
      var i := ix[k];
      assert xs[i] == Some(counts[k]);
      assert Reaches(responses[i], frontendCount);
    }
    if i :| 0 <= i < |responses| && Reaches(responses[i], frontendCount) {
      assert xs[i].Some?;
      var k :| 0 <= k < |ix| && ix[k] == i;
      assert counts[k].matchesFrontend;
    }
  }

  /** The response carries an item array at least `frontendCount` long. */
  predicate Reaches(response: CapturedResponse, frontendCount: int) {
    ItemArray(response).Some? && |ItemArray(response).value| >= frontendCount
  }

  /** A truthy `items` that is not an array hides an array under `results` or `data`: the
      response contributes nothing. */
  lemma NoFallThroughPastNonArray(response: CapturedResponse)
    requires TruthyOpt(Get(response.body, "items")) && !Get(response.body, "items").value.Arr?
    ensures ItemArray(response).None?
  {
  }

  /** Two responses whose item arrays have lengths 2 (under `items`) and 3 (under `results`),
      against three frontend results. */
  lemma ComparisonExample()
    ensures var c := CompareBackendWithFrontend(3, [
        CapturedResponse("/api/a", 200, "OK", Obj([("items", Arr([Number(1.0), Number(2.0)]))]), "t1"),
        CapturedResponse("/api/b", 200, "OK", Obj([("results", Arr([Number(1.0), Number(2.0), Number(3.0)]))]), "t2")]);
      && c.backendItemCounts == [ItemCount("/api/a", 2, false), ItemCount("/api/b", 3, true)]
      && c.hasMatch
  {
    var r0 := CapturedResponse("/api/a", 200, "OK", Obj([("items", Arr([Number(1.0), Number(2.0)]))]), "t1");
    var r1 := CapturedResponse("/api/b", 200, "OK", Obj([("results", Arr([Number(1.0), Number(2.0), Number(3.0)]))]), "t2");
    var xs := ItemCountsOf([r0, r1], 3);
    assert xs == [Some(ItemCount("/api/a", 2, false)), Some(ItemCount("/api/b", 3, true))];
    assert KeepSome(xs) == [ItemCount("/api/a", 2, false)] + KeepSome(xs[1..]);
    assert xs[1..][1..] == [];
  }
}
