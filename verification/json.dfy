/** Parsed JSON values as JavaScript sees them after `response.json()`, with the pieces of
    JavaScript semantics the validator uses: truthiness, property lookup, `Object.keys`,
    `Array.isArray` and the `||` operator. */
module Json {
  import opened Wrappers

  /** An object's members are held in JavaScript's own enumeration order, one member per key. */
  datatype Value =
    | Null
    | Bool(b: bool)
    | Number(n: real)
    | Str(s: string)
    | Arr(elems: seq<Value>)
    | Obj(members: seq<(string, Value)>)

  /** JavaScript truthiness: `null`, `false`, `0` and `""` are falsy; every array and object,
      empty or not, is truthy. (JSON text cannot produce `NaN`.) */
  predicate Truthy(v: Value) {
    match v
    case Null => false
    case Bool(b) => b
    case Number(n) => n != 0.0
    case Str(s) => s != ""
    case Arr(_) => true
    case Obj(_) => true
  }

  /** Truthiness of a property read, where an absent property is `undefined` (falsy). */
  predicate TruthyOpt(o: Option<Value>) {
    o.Some? && Truthy(o.value)
  }

  function Lookup(members: seq<(string, Value)>, key: string): (r: Option<Value>)
    ensures r.Some? <==> exists i :: 0 <= i < |members| && members[i].0 == key
    ensures r.Some? ==> exists i :: 0 <= i < |members| && members[i] == (key, r.value)
  {
    if |members| == 0 then None
    else if members[0].0 == key then Some(members[0].1)
    else
      var r := Lookup(members[1..], key);
      assert forall i :: 1 <= i < |members| ==> members[i] == members[1..][i - 1];
      assert r.Some? ==> exists i :: 0 <= i < |members| && members[i] == (key, r.value) by {
        if r.Some? {
          var j :| 0 <= j < |members[1..]| && members[1..][j] == (key, r.value);
          assert members[j + 1] == (key, r.value);
        }
      }
      r
  }

  /** `v[key]` on a value known to be truthy: only objects have the named properties the
      validator reads; arrays, strings, numbers and booleans give `undefined`. */
  function Get(v: Value, key: string): (r: Option<Value>)
    ensures r.Some? ==> v.Obj?
  {
    if v.Obj? then Lookup(v.members, key) else None
  }

  /** `a || b`: the first operand if it is truthy, otherwise the second. */
  function Or(a: Option<Value>, b: Option<Value>): (r: Option<Value>)
    ensures TruthyOpt(r) <==> TruthyOpt(a) || TruthyOpt(b)
    ensures r == a || r == b
    ensures TruthyOpt(a) ==> r == a
    ensures !TruthyOpt(a) ==> r == b
  {
    if TruthyOpt(a) then a else b
  }

  function Digit(d: nat): char
    requires d < 10
  {
    "0123456789"[d]
  }

  /** The decimal rendering of a natural number, as used for array-index property names. */
  function Decimal(n: nat): (r: string)
    ensures |r| > 0
  {
    if n < 10 then [Digit(n)] else Decimal(n / 10) + [Digit(n % 10)]
  }

  /** The property names `"0"` … `"n-1"` of an array or string of length `n`. */
  function IndexNames(n: nat): (r: seq<string>)
    ensures |r| == n
    ensures forall i :: 0 <= i < n ==> r[i] == Decimal(i)
  {
    if n == 0 then [] else IndexNames(n - 1) + [Decimal(n - 1)]
  }

  function MemberNames(ms: seq<(string, Value)>): (r: seq<string>)
    ensures |r| == |ms| && forall i :: 0 <= i < |r| ==> r[i] == ms[i].0
  {
    if |ms| == 0 then [] else [ms[0].0] + MemberNames(ms[1..])
  }

  /** `Object.keys(v)` on a value known to be truthy: an object's member names; the index
      names `"0"`, `"1"`, … of an array or string; nothing for a number or boolean. */
  function Keys(v: Value): (r: seq<string>)
    requires Truthy(v)
    ensures v.Obj? ==> r == MemberNames(v.members)
    ensures v.Arr? ==> |r| == |v.elems| && r == IndexNames(|v.elems|)
    ensures v.Str? ==> |r| == |v.s| && r == IndexNames(|v.s|)
    ensures v.Bool? || v.Number? ==> r == []
  {
    match v
    case Obj(ms) => MemberNames(ms)
    case Arr(es) => IndexNames(|es|)
    case Str(s) => IndexNames(|s|)
    case _ => []
  }
}
