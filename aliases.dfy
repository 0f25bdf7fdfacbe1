// How the normaliser finds a field in an inconsistently keyed object: the
// candidate-alias loops of `setTextField`, `setNumField`, the genero and
// horas_extras lookups, and the scan for an id-like key.

module Aliases {
  import opened Text
  import opened Maybe
  import opened Seqs
  import opened JsValues

  /** `String(k).toLowerCase().replace(/\s+/g, '_')` */
  function NormalizeKey(k: string): string {
    CollapseWhitespace(Lower(k))
  }

  /** `Object.keys(raw)` */
  function Keys(raw: JsValue): seq<string> {
    KeysOf(Own(raw))
  }

  /** `Object.keys(raw).find(k => NormalizeKey(k) === c)` */
  function FindNormalizedKey(raw: JsValue, c: string): (r: Option<string>)
    ensures r.None? <==> forall i | 0 <= i < |Keys(raw)| :: NormalizeKey(Keys(raw)[i]) != c
    ensures r.Some? ==>
      exists i | 0 <= i < |Keys(raw)| ::
        Keys(raw)[i] == r.value && NormalizeKey(r.value) == c
        && forall j | 0 <= j < i :: NormalizeKey(Keys(raw)[j]) != c
  {
    var keys := Keys(raw);
    match FirstIndex(keys, k => NormalizeKey(k) == c)
    case None => None
    case Some(i) => Some(keys[i])
  }

  /** Where one candidate alias was found. */
  datatype Hit =
    | Exact(value: JsValue)                       // `raw[c]` itself
    | ByNormalizedKey(key: string, value: JsValue) // a key that normalises to `c`
    | Miss                                         // no candidate matched

  /** The loop variable after the search; it starts out as null. */
  function HitValue(h: Hit): JsValue {
    match h
    case Exact(v) => v
    case ByNormalizedKey(_, v) => v
    case Miss => Null
  }

  /** The exact-key test. The genero and horas_extras loops also ask that
      the value's text be non-blank (`nonBlank`); `setTextField` and
      `setNumField` only ask that it be defined. */
  predicate ExactMatch(raw: JsValue, c: string, nonBlank: bool) {
    !Get(raw, c).Undefined? && (!nonBlank || JsTrim(ToJsString(Get(raw, c))) != "")
  }

  /** Candidate `c` stops the search. */
  predicate Matches(raw: JsValue, c: string, nonBlank: bool) {
    ExactMatch(raw, c, nonBlank) || FindNormalizedKey(raw, c).Some?
  }

  function HitFor(raw: JsValue, c: string, nonBlank: bool): Hit
    requires Matches(raw, c, nonBlank)
  {
    if ExactMatch(raw, c, nonBlank) then Exact(Get(raw, c))
    else
      var k := FindNormalizedKey(raw, c).value;
      ByNormalizedKey(k, Get(raw, k))
  }

  /** The first candidate that matches decides the lookup, whatever its value
      turns out to be; later candidates are never consulted. */
  function AliasHit(raw: JsValue, cands: seq<string>, nonBlank: bool): (r: Hit)
    ensures r.Miss? <==> forall i | 0 <= i < |cands| :: !Matches(raw, cands[i], nonBlank)
    ensures !r.Miss? ==>
      exists i | 0 <= i < |cands| ::
        && Matches(raw, cands[i], nonBlank)
        && (forall j | 0 <= j < i :: !Matches(raw, cands[j], nonBlank))
        && r == HitFor(raw, cands[i], nonBlank)
  {
    if cands == [] then Miss
    else if Matches(raw, cands[0], nonBlank) then
      var r := HitFor(raw, cands[0], nonBlank);
      assert Matches(raw, cands[0], nonBlank) && r == HitFor(raw, cands[0], nonBlank);
      r
    else
      var r := AliasHit(raw, cands[1..], nonBlank);
      if r.Miss? then r
      else
        var i :| 0 <= i < |cands[1..]| && Matches(raw, cands[1..][i], nonBlank)
          && (forall j | 0 <= j < i :: !Matches(raw, cands[1..][j], nonBlank))
          && r == HitFor(raw, cands[1..][i], nonBlank);
        assert cands[1..][i] == cands[i + 1];
        assert forall j | 0 <= j < i + 1 :: !Matches(raw, cands[j], nonBlank) by {
          forall j | 0 < j < i + 1 ensures !Matches(raw, cands[j], nonBlank) {
            assert cands[j] == cands[1..][j - 1];
          }
        }
        r
  }

  /** The candidate loop: `for (const c of candidates) { if (raw[c] ...) {
      v = raw[c]; break; } const found = ...; if (found) { v = raw[found];
      break; } }`. */
  method LookupCandidates(raw: JsValue, cands: seq<string>, nonBlank: bool) returns (hit: Hit)
    ensures hit == AliasHit(raw, cands, nonBlank)
  {
    hit := Miss;
    var i := 0;
    while i < |cands|
      invariant 0 <= i <= |cands|
      invariant AliasHit(raw, cands, nonBlank) == AliasHit(raw, cands[i..], nonBlank)
    {
      var c := cands[i];
      assert cands[i..][0] == c;
      var v := Get(raw, c);
      if !v.Undefined? && (!nonBlank || JsTrim(ToJsString(v)) != "") {
        assert ExactMatch(raw, c, nonBlank);
        assert AliasHit(raw, cands[i..], nonBlank) == HitFor(raw, c, nonBlank) == Exact(v);
        hit := Exact(v);
        return;
      }
      var found := FindNormalizedKey(raw, c);
      if found.Some? {
        assert Matches(raw, c, nonBlank) && !ExactMatch(raw, c, nonBlank);
        assert AliasHit(raw, cands[i..], nonBlank) == HitFor(raw, c, nonBlank);
        hit := ByNormalizedKey(found.value, Get(raw, found.value));
        return;
      }
      assert !Matches(raw, c, nonBlank);
      assert cands[i..][1..] == cands[i + 1..];
      assert AliasHit(raw, cands[i..], nonBlank) == AliasHit(raw, cands[i + 1..], nonBlank);
      i := i + 1;
    }
  }

  /** The lower-cased key contains one of the fragments id, codigo, dni,
      dui, legajo or numero. */
  predicate IdLikeKey(k: string) {
    var lk := Lower(k);
    Contains(lk, "id") || Contains(lk, "codigo") || Contains(lk, "dni") || Contains(lk, "dui")
    || Contains(lk, "legajo") || Contains(lk, "numero")
  }

  /** Key `k` of `raw` is taken as the id: it looks like one and its value's
      text is not blank. */
  predicate IdCandidate(raw: JsValue, k: string) {
    IdLikeKey(k) && JsTrim(ToJsString(Get(raw, k))) != ""
  }

  /** The key the id scan stops at, if any. */
  function IdScanKey(raw: JsValue): (r: Option<string>)
    ensures r.None? <==> forall i | 0 <= i < |Keys(raw)| :: !IdCandidate(raw, Keys(raw)[i])
    ensures r.Some? ==>
      exists i | 0 <= i < |Keys(raw)| ::
        Keys(raw)[i] == r.value && IdCandidate(raw, r.value)
        && forall j | 0 <= j < i :: !IdCandidate(raw, Keys(raw)[j])
  {
    var keys := Keys(raw);
    match FirstIndex(keys, IdTest(raw))
    case None => None
    case Some(i) => Some(keys[i])
  }

  /** `IdCandidate` as the test the scan applies to each key. */
  function IdTest(raw: JsValue): (p: string -> bool)
    ensures forall k :: p(k) == IdCandidate(raw, k)
  {
    k => IdCandidate(raw, k)
  }

  /** The scan `for (const k of Object.keys(raw)) { ...; break; }`. */
  method ScanIdKey(raw: JsValue) returns (r: Option<string>)
    ensures r == IdScanKey(raw)
  {
    var keys := Keys(raw);
    r := None;
    var i := 0;
    while i < |keys|
      invariant 0 <= i <= |keys|
      invariant FirstIndex(keys, IdTest(raw)) == FirstIndexFrom(keys, IdTest(raw), i)
    {
      var k := keys[i];
      ghost var p := IdTest(raw);
      if IdCandidate(raw, k) {
        assert p(k);
        r := Some(k);
        return;
      }
      assert !p(k);
      i := i + 1;
    }
  }
}
