// `sanitizeIncomingValue`: the first step every field of the normaliser
// applies to a raw value. Blank text, the sentinel tokens and non-finite
// numbers all read as "absent" (null).

module Sanitize {
  import opened Text
  import opened Numbers
  import opened JsValues

  /** The text every defaulted text field is filled with. */
  const DefaultText: string := "Vacio-Nada"

  /** The tokens that, compared case-insensitively after trimming, mean "no value". */
  const SentinelTokens: seq<string> := ["nan", "none", "null", "n/a", "vacio-nada"]

  /** Trimmed text that stands for a missing value. */
  predicate IsSentinel(t: string) {
    t == "" || Lower(t) in SentinelTokens
  }

  /** The values the sanitiser turns into null. */
  predicate ReadsAsAbsent(v: JsValue) {
    || v.Undefined?
    || v.Null?
    || (v.Str? && IsSentinel(JsTrim(v.s)))
    || (v.Num? && !v.n.Finite?)
  }

  function SanitizeIncomingValue(v: JsValue): (r: JsValue)
    ensures r.Null? <==> ReadsAsAbsent(v)
    ensures !ReadsAsAbsent(v) && v.Str? ==> r == Str(JsTrim(v.s))
    ensures !ReadsAsAbsent(v) && !v.Str? ==> r == v
    ensures !r.Undefined?
  {
    match v
    case Undefined => Null
    case Null => Null
    case Str(s) =>
      var t := JsTrim(s);
      if IsSentinel(t) then Null else Str(t)
    case Num(n) => if !n.Finite? then Null else v
    case _ => v
  }

  /** Sanitising twice is sanitising once. */
  lemma SanitizeIdempotent(v: JsValue)
    ensures SanitizeIncomingValue(SanitizeIncomingValue(v)) == SanitizeIncomingValue(v)
  {
    if v.Str? && !ReadsAsAbsent(v) {
      JsTrimIdempotent(v.s);
    }
  }

  /** A sanitised value that is not null is a string with no white space at
      either end, or the input itself. */
  lemma SanitizedTextIsTrimmed(v: JsValue)
    requires SanitizeIncomingValue(v).Str?
    ensures var t := SanitizeIncomingValue(v).s;
      t != "" && !IsJsSpace(t[0]) && !IsJsSpace(t[|t| - 1]) && !IsSentinel(t)
  {
  }

  /** The default text is itself a sentinel: a defaulted text field fed back
      in reads as absent again, with or without surrounding white space. */
  lemma DefaultTextIsSentinel(pad: string, pad': string)
    requires forall i | 0 <= i < |pad| :: IsJsSpace(pad[i])
    requires forall i | 0 <= i < |pad'| :: IsJsSpace(pad'[i])
    ensures SanitizeIncomingValue(Str(pad + DefaultText + pad')).Null?
  {
    assert !IsJsSpace(DefaultText[0]) && !IsJsSpace(DefaultText[|DefaultText| - 1]);
    TrimAroundWord(pad, DefaultText, pad');
    LowerDefaultText();
  }

  lemma LowerDefaultText()
    ensures Lower(DefaultText) == "vacio-nada"
  {
    var l := Lower(DefaultText);
    assert l[0] == 'v' && l[5] == '-' && l[6] == 'n';
    assert forall i | 0 <= i < |l| && i != 0 && i != 6 :: l[i] == DefaultText[i];
  }

  lemma {:induction false} TrimAroundWord(pad: string, w: string, pad': string)
    requires forall i | 0 <= i < |pad| :: IsJsSpace(pad[i])
    requires forall i | 0 <= i < |pad'| :: IsJsSpace(pad'[i])
    requires w != [] && !IsJsSpace(w[0]) && !IsJsSpace(w[|w| - 1])
    ensures JsTrim(pad + w + pad') == w
  {
    assert pad + w + pad' == pad + (w + pad');
    TrimStartSpaces(pad, w + pad');
    TrimEndSpaces(w, pad');
  }

  lemma {:induction false} TrimStartSpaces(pad: string, rest: string)
    requires forall i | 0 <= i < |pad| :: IsJsSpace(pad[i])
    requires rest != [] && !IsJsSpace(rest[0])
    ensures TrimStart(pad + rest) == rest
  {
    if pad == [] {
      assert pad + rest == rest;
    } else {
      assert (pad + rest)[1..] == pad[1..] + rest;
      TrimStartSpaces(pad[1..], rest);
    }
  }

  lemma {:induction false} TrimEndSpaces(w: string, pad': string)
    requires forall i | 0 <= i < |pad'| :: IsJsSpace(pad'[i])
    requires w != [] && !IsJsSpace(w[|w| - 1])
    ensures TrimEnd(w + pad') == w
  {
    if pad' == [] {
      assert w + pad' == w;
    } else {
      var s := w + pad';
      assert s[..|s| - 1] == w + pad'[..|pad'| - 1];
      TrimEndSpaces(w, pad'[..|pad'| - 1]);
    }
  }
}
