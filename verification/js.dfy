/** JavaScript values as the server sees them: optional fields, truthiness,
    `||` fallback chains and JSON documents. */
module Js {

  /** A field that may be `undefined` or `null` (None) or hold a value. */
  datatype Option<+T> = None | Some(value: T)

  /** Truthiness of a string-valued field: `undefined`, `null` and `""` are
      all falsy; every other string is truthy. */
  predicate Truthy(s: Option<string>) {
    s.Some? && s.value != ""
  }

  /** `xs?.[0]`: the first element of an optional array, `undefined` when the
      array is absent or empty. */
  function First(xs: Option<seq<string>>): (r: Option<string>)
    ensures r.Some? <==> xs.Some? && |xs.value| > 0
    ensures r.Some? ==> r.value == xs.value[0]
  {
    if xs.Some? && |xs.value| > 0 then Some(xs.value[0]) else None
  }

  /** `c0 || c1 || ... || null`: the first truthy candidate, or null when
      every candidate is falsy. */
  function Coalesce(cands: seq<Option<string>>): (r: Option<string>)
    ensures r.Some? ==> Truthy(r)
    ensures r.None? <==> forall k | 0 <= k < |cands| :: !Truthy(cands[k])
    ensures r.Some? ==> exists k | 0 <= k < |cands| :: FirstTruthyAt(cands, k) && cands[k] == r
    decreases |cands|
  {
    if |cands| == 0 then None
    else if Truthy(cands[0]) then
      assert FirstTruthyAt(cands, 0);
      cands[0]
    else
      var r := Coalesce(cands[1..]);
      if r.Some? then
        var k :| 0 <= k < |cands[1..]| && FirstTruthyAt(cands[1..], k) && cands[1..][k] == r;
        assert FirstTruthyAt(cands, k + 1);
        r
      else
        assert forall k | 0 <= k < |cands| :: !Truthy(cands[k]) by {
          forall k | 0 <= k < |cands| ensures !Truthy(cands[k]) {
            if k > 0 { assert cands[k] == cands[1..][k - 1]; }
          }
        }
        r
  }

  /** Candidate k is truthy and every earlier candidate is falsy. */
  predicate FirstTruthyAt(cands: seq<Option<string>>, k: int) {
    && 0 <= k < |cands|
    && Truthy(cands[k])
    && forall j | 0 <= j < k :: !Truthy(cands[j])
  }

  /** Ends a `||` chain with a literal string: `chain || fallback`. */
  function Default(o: Option<string>, fallback: string): string {
    match o
    case Some(v) => v
    case None => fallback
  }

  /** A chain of fallbacks ending in a non-empty literal never yields "". */
  lemma ChainNeverEmpty(cands: seq<Option<string>>, fallback: string)
    requires fallback != ""
    ensures Default(Coalesce(cands), fallback) != ""
  {
  }

  /** `a || null` for a single candidate: the candidate when truthy, else null
      (so an empty string becomes null). */
  function OrNull(a: Option<string>): (r: Option<string>)
    ensures Truthy(a) ==> r == a
    ensures !Truthy(a) ==> r.None?
  {
    Coalesce([a])
  }

  /** A template literal `${prefix}${hole}${suffix}` with one hole. */
  function Fill(prefix: string, hole: string, suffix: string): string {
    prefix + hole + suffix
  }

  /** Reads the hole back out of a filled template; None when `s` does not
      start with `prefix` and end with `suffix`. */
  function Unfill(prefix: string, suffix: string, s: string): Option<string> {
    if |s| >= |prefix| + |suffix|
       && s[..|prefix|] == prefix
       && s[|s| - |suffix|..] == suffix
    then Some(s[|prefix|..|s| - |suffix|])
    else None
  }

  /** Filling a template loses nothing: the hole can be read back. */
  lemma UnfillFill(prefix: string, hole: string, suffix: string)
    ensures Unfill(prefix, suffix, Fill(prefix, hole, suffix)) == Some(hole)
  {
    var s := Fill(prefix, hole, suffix);
    assert s[..|prefix|] == prefix;
    assert s[|s| - |suffix|..] == suffix;
    assert s[|prefix|..|s| - |suffix|] == hole;
  }

  /** Hence a template fills distinct holes with distinct strings. */
  lemma FillInjective(prefix: string, a: string, b: string, suffix: string)
    requires Fill(prefix, a, suffix) == Fill(prefix, b, suffix)
    ensures a == b
  {
    UnfillFill(prefix, a, suffix);
    UnfillFill(prefix, b, suffix);
  }

  /** JSON documents. Objects keep their fields in insertion order. */
  datatype Json =
    | Null
    | Bool(b: bool)
    | Num(n: int)
    | Str(s: string)
    | Arr(items: seq<Json>)
    | Obj(fields: seq<(string, Json)>)

  /** A nullable string as JSON: null or a string. */
  function OfNullable(o: Option<string>): Json {
    match o
    case Some(s) => Str(s)
    case None => Null
  }

  /** Reads a nullable string back; None when the value is neither null nor a string. */
  function AsNullable(j: Json): (r: Option<Option<string>>)
    ensures forall o :: j == OfNullable(o) ==> r == Some(o)
  {
    match j
    case Null => Some(None)
    case Str(s) => Some(Some(s))
    case _ => None
  }

  /** The value of the first field named `key`. */
  function Field(fields: seq<(string, Json)>, key: string): (r: Option<Json>)
    ensures r.None? <==> forall i | 0 <= i < |fields| :: fields[i].0 != key
  {
    if |fields| == 0 then None
    else if fields[0].0 == key then Some(fields[0].1)
    else Field(fields[1..], key)
  }

  /** Lookup finds the first field carrying the key, wherever it sits. */
  lemma {:induction false} FieldAt(fields: seq<(string, Json)>, key: string, i: int)
    requires 0 <= i < |fields| && fields[i].0 == key
    requires forall j | 0 <= j < i :: fields[j].0 != key
    ensures Field(fields, key) == Some(fields[i].1)
    decreases i
  {
    if i > 0 {
      FieldAt(fields[1..], key, i - 1);
    }
  }

  /** The field names of an object, in order. */
  function Keys(fields: seq<(string, Json)>): (ks: seq<string>)
    ensures |ks| == |fields|
    ensures forall i | 0 <= i < |fields| :: ks[i] == fields[i].0
  {
    if |fields| == 0 then [] else [fields[0].0] + Keys(fields[1..])
  }
}
