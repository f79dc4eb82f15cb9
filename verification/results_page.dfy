/** The result-list extraction of the search results page (pages/GitHubResultsPage.js). The
    browser is abstracted away: each rendered result item is given as the outcomes of the four
    element reads the page object performs on it. */
module GitHubResultsPage {
  import opened Wrappers
  import opened Seqs
  import opened Text

  /** The sentinel for an absent field. */
  const NotAvailable: string := "N/A"
  /** `substring(0, 100)` on the description. */
  const DescriptionLimit: nat := 100
  /** The default `limit` of `extractAllResults`. */
  const DefaultLimit: int := 5

  /** The outcome of one `textContent()` or `getAttribute()` call on a located element: it
      throws (no such element, several matches where one is required, a timeout), or it
      returns a string or `null`. */
  datatype Read = Failed | Text(value: Option<string>)

  /** What the browser yields for one result item. `Unreadable` is an item on which every
      locator call throws. */
  datatype ItemReads =
    | Unreadable
    | Reads(name: Read, href: Read, stars: Read, description: Read)

  /** One extracted repository record. */
  datatype Repository = Repository(name: string, url: string, stars: string, description: string)

  /** The value left in an optional field (stars, description) after its guarded read:
      the sentinel if the read threw, else what was read (possibly `null`). */
  function OptionalField(read: Read): Option<string> {
    match read
    case Failed => Some(NotAvailable)
    case Text(v) => v
  }

  /** `name?.trim() || 'N/A'`. */
  function NormalizeName(text: Option<string>): (r: string)
    ensures r != ""
    ensures text.Some? && Trim(text.value) != "" ==> r == Trim(text.value)
    ensures text.None? || Trim(text.value) == "" ==> r == NotAvailable
  {
    var trimmed := if text.Some? then Trim(text.value) else "";
    if trimmed != "" then trimmed else NotAvailable
  }

  /** `url || 'N/A'`: the attribute is not trimmed. */
  function NormalizeUrl(href: Option<string>): (r: string)
    ensures r != ""
    ensures href.Some? && href.value != "" ==> r == href.value
    ensures href.None? || href.value == "" ==> r == NotAvailable
  {
    var url := href.GetOr("");
    if url != "" then url else NotAvailable
  }

  /** `description.trim().substring(0, 100)`. */
  function NormalizeDescription(text: string): (r: string)
    ensures |r| <= DescriptionLimit
    ensures |r| <= |Trim(text)| && r == Trim(text)[..|r|]
    ensures |r| == DescriptionLimit || r == Trim(text)
  {
    Prefix(Trim(text), DescriptionLimit)
  }

  /** The sentinel survives the normalisation applied to stars and descriptions. */
  lemma SentinelIsNormal()
    ensures Trim(NotAvailable) == NotAvailable
    ensures NormalizeDescription(NotAvailable) == NotAvailable
  {
    assert TrimStart(NotAvailable) == NotAvailable;
    assert TrimEnd(NotAvailable) == NotAvailable;
  }

  /** `extractRepositoryData`: `None` is the `null` the source returns from its outer `catch`. */
  function ExtractRepositoryData(item: ItemReads): (r: Option<Repository>)
    // the item is dropped exactly when a mandatory read throws, or an optional field ends up
    // `null` so that the later `.trim()` throws inside the outer `try`
    ensures r.None? <==>
      || item.Unreadable?
      || item.name.Failed? || item.href.Failed?
      || item.stars == Text(None) || item.description == Text(None)
    ensures r.Some? ==> r.value.name == NormalizeName(item.name.value)
    ensures r.Some? ==> r.value.url == NormalizeUrl(item.href.value)
    // a failed optional read leaves its sentinel
    ensures r.Some? && item.stars.Failed? ==> r.value.stars == NotAvailable
    ensures r.Some? && item.stars.Text? ==> r.value.stars == Trim(item.stars.value.value)
    ensures r.Some? && item.description.Failed? ==> r.value.description == NotAvailable
    ensures r.Some? && item.description.Text? ==>
      r.value.description == NormalizeDescription(item.description.value.value)
  {
    match item
    case Unreadable => None
    case Reads(nameRead, hrefRead, starsRead, descRead) =>
      if nameRead.Failed? || hrefRead.Failed? then None
      else
        var stars := OptionalField(starsRead);
        var description := OptionalField(descRead);
        if stars.None? || description.None? then None
        else
          SentinelIsNormal();
          Some(Repository(
            name := NormalizeName(nameRead.value),
            url := NormalizeUrl(hrefRead.value),
            stars := Trim(stars.value),
            description := NormalizeDescription(description.value)))
  }

  /** The per-item outcomes of `items`, in order. */
  function Extractions(items: seq<ItemReads>): (r: seq<Option<Repository>>)
    ensures |r| == |items|
  {
    if |items| == 0 then []
    else Extractions(items[..|items| - 1]) + [ExtractRepositoryData(items[|items| - 1])]
  }

  lemma {:induction false} ExtractionsAt(items: seq<ItemReads>, i: nat)
    requires i < |items|
    ensures Extractions(items)[i] == ExtractRepositoryData(items[i])
  {
    var init := items[..|items| - 1];
    assert Extractions(items) == Extractions(init) + [ExtractRepositoryData(items[|items| - 1])];
    if i < |items| - 1 {
      ExtractionsAt(init, i);
      assert init[i] == items[i];
    }
  }

  lemma ExtractionsSnoc(items: seq<ItemReads>, i: nat)
    requires i < |items|
    ensures Extractions(items[..i + 1]) == Extractions(items[..i]) + [ExtractRepositoryData(items[i])]
  {
    assert items[..i + 1][..i] == items[..i];
  }

  /** `Math.min(count, limit)`: the number of items the loop visits (none when it is negative). */
  function Attempted(count: nat, limit: int): (n: nat)
    ensures n <= count
    ensures limit >= 0 ==> n <= limit
    ensures n == count || n == limit || (limit < 0 && n == 0)
    ensures limit < 0 ==> n == 0
  {
    if count <= limit then count else if limit < 0 then 0 else limit
  }

  /** The records extracted from the first `Attempted` items, in document order. */
  function ExtractedRecords(items: seq<ItemReads>, limit: int): seq<Repository> {
    KeepSome(Extractions(items[..Attempted(|items|, limit)]))
  }

  /** `extractAllResults`: visits items `0 .. min(count, limit) - 1` in order and keeps every
      record that extraction did not drop. */
  method ExtractAllResults(items: seq<ItemReads>, limit: int := DefaultLimit)
    returns (results: seq<Repository>)
    ensures |results| <= Attempted(|items|, limit)
    ensures results == ExtractedRecords(items, limit)
  {
    var maxItems := if |items| <= limit then |items| else limit;
    results := [];
    var i := 0;
    while i < maxItems
      invariant 0 <= i <= |items|
      invariant i <= Attempted(|items|, limit)
      invariant results == KeepSome(Extractions(items[..i]))
    {
      var data := ExtractRepositoryData(items[i]);
      ExtractionsSnoc(items, i);
      KeepSomeAppend(Extractions(items[..i]), data);
      if data.Some? {
        results := results + [data.value];
      }
      i := i + 1;
    }
  }

  /** The extracted records are the non-dropped items among the attempted ones, in increasing
      item order, and none of them is missing. */
  lemma ExtractedInDocumentOrder(items: seq<ItemReads>, limit: int)
    ensures var n, ix, rs := Attempted(|items|, limit), SomeIndices(Extractions(items[..Attempted(|items|, limit)])), ExtractedRecords(items, limit);
      && |ix| == |rs|
      && (forall k :: 0 <= k < |ix| ==> ix[k] < n && ExtractRepositoryData(items[ix[k]]) == Some(rs[k]))
      && (forall k, l :: 0 <= k < l < |ix| ==> ix[k] < ix[l])
      && (forall i :: 0 <= i < n && ExtractRepositoryData(items[i]).Some? ==> i in ix)
  {
    var n := Attempted(|items|, limit);
    var xs := Extractions(items[..n]);
    var ix, rs := SomeIndices(xs), KeepSome(xs);
    KeepSomeOrder(xs);
    forall k | 0 <= k < |ix| ensures ix[k] < n && ExtractRepositoryData(items[ix[k]]) == Some(rs[k]) {
      ExtractionsAt(items[..n], ix[k]);
      assert items[..n][ix[k]] == items[ix[k]];
    }
    forall i | 0 <= i < n && ExtractRepositoryData(items[i]).Some? ensures i in ix {
      ExtractionsAt(items[..n], i);
      assert items[..n][i] == items[i];
    }
  }
}
