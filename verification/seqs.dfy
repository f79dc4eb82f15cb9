/** Sequence helpers shared by the validator and the result extractor. */
module Seqs {
  import opened Wrappers

  /** The present values of `s`, in their original order (a `filter` followed by a `map`). */
  function KeepSome<T>(s: seq<Option<T>>): (r: seq<T>)
    ensures |r| <= |s|
  {
    if |s| == 0 then []
    else
      assert s == [s[0]] + s[1..];
      if s[0].Some? then [s[0].value] + KeepSome(s[1..]) else KeepSome(s[1..])
  }

  lemma {:induction false} KeepSomeAppend<T>(s: seq<Option<T>>, x: Option<T>)
    ensures KeepSome(s + [x]) == KeepSome(s) + (if x.Some? then [x.value] else [])
  {
    if |s| == 0 {
      assert s + [x] == [x];
      assert ([x])[1..] == [];
    } else {
      assert (s + [x])[1..] == s[1..] + [x];
      KeepSomeAppend(s[1..], x);
    }
  }

  /** The positions in `s` whose values `KeepSome` keeps, in order. */
  function SomeIndices<T>(s: seq<Option<T>>): (ix: seq<nat>)
    ensures |ix| == |KeepSome(s)|
  {
    if |s| == 0 then []
    else
      var rest := SomeIndices(s[1..]);
      var shifted := seq(|rest|, k requires 0 <= k < |rest| => rest[k] + 1);
      if s[0].Some? then [0] + shifted else shifted
  }

  lemma {:induction false} SomeIndicesPick<T>(s: seq<Option<T>>)
    ensures forall k :: 0 <= k < |SomeIndices(s)| ==>
      SomeIndices(s)[k] < |s| && s[SomeIndices(s)[k]] == Some(KeepSome(s)[k])
  {
    if |s| > 0 {
      SomeIndicesPick(s[1..]);
      var rest, tail := SomeIndices(s[1..]), KeepSome(s[1..]);
      forall k | 0 <= k < |rest|
        ensures rest[k] + 1 < |s| && s[rest[k] + 1] == Some(tail[k])
      {
        assert s[rest[k] + 1] == s[1..][rest[k]];
      }
    }
  }

  lemma {:induction false} SomeIndicesIncreasing<T>(s: seq<Option<T>>)
    ensures forall k, l :: 0 <= k < l < |SomeIndices(s)| ==> SomeIndices(s)[k] < SomeIndices(s)[l]
  {
    if |s| > 0 {
      SomeIndicesIncreasing(s[1..]);
    }
  }

  lemma {:induction false} SomeIndicesCover<T>(s: seq<Option<T>>)
    ensures forall i :: 0 <= i < |s| && s[i].Some? ==> i in SomeIndices(s)
  {
    if |s| > 0 {
      SomeIndicesCover(s[1..]);
      var rest := SomeIndices(s[1..]);
      var ix := SomeIndices(s);
      forall i | 1 <= i < |s| && s[i].Some? ensures i in ix {
        assert s[1..][i - 1] == s[i];
        var k :| 0 <= k < |rest| && rest[k] == i - 1;
        assert ix[k + (if s[0].Some? then 1 else 0)] == i;
      }
    }
  }

  /** `KeepSome` keeps order: its output is `s` read at strictly increasing positions, and every
      present position of `s` is one of them. */
  lemma {:induction false} KeepSomeOrder<T>(s: seq<Option<T>>)
    ensures forall k :: 0 <= k < |SomeIndices(s)| ==>
      SomeIndices(s)[k] < |s| && s[SomeIndices(s)[k]] == Some(KeepSome(s)[k])
    ensures forall k, l :: 0 <= k < l < |SomeIndices(s)| ==> SomeIndices(s)[k] < SomeIndices(s)[l]
    ensures forall i :: 0 <= i < |s| && s[i].Some? ==> i in SomeIndices(s)
  {
    SomeIndicesPick(s);
    SomeIndicesIncreasing(s);
    SomeIndicesCover(s);
  }

  /** How many entries of `bs` are true (JavaScript's `filter(p).length`). */
  function CountTrue(bs: seq<bool>): (n: nat)
    ensures n <= |bs|
    ensures n == |set i | 0 <= i < |bs| && bs[i]|
    ensures n == |bs| <==> forall i :: 0 <= i < |bs| ==> bs[i]
    ensures n > 0 <==> exists i :: 0 <= i < |bs| && bs[i]
  {
    if |bs| == 0 then 0
    else
      var init, last := bs[..|bs| - 1], bs[|bs| - 1];
      assert forall i :: 0 <= i < |init| ==> init[i] == bs[i];
      assert (set i | 0 <= i < |bs| && bs[i])
          == (set i | 0 <= i < |init| && init[i]) + (if last then {|init|} else {});
      CountTrue(init) + (if last then 1 else 0)
  }
}
