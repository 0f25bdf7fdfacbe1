// Worked examples of the gender, `||` chain and salary handling of
// `normalizeEmployee` (server.js), including one where re-feeding a
// normalised record does not give the same record back.

module NormalizerExamples {
  import opened Text
  import opened Normalizer
  import opened Numbers
  import opened Maybe
  import opened JsValues
  import opened Sanitize
  import FieldProps

  /** "Femenina", "M" and "xyz", lower-cased as the source does. */
  lemma GeneroExamples()
    ensures ClassifyGenero("femenina") == Femenino
    ensures ClassifyGenero("m") == Masculino
    ensures ClassifyGenero("xyz") == Otro
  {
    assert StartsWith("femenina", "f");
    assert StartsWith("m", "m");
    assert !Contains("m", "femen") && !Contains("m", "female");
    assert !Contains("xyz", "femen") && !Contains("xyz", "female");
    assert !Contains("xyz", "masc") && !Contains("xyz", "male");
  }

  /** The text written for an undeclared gender, fed back in, is classified
      as Otro: it has no 'f' and no 'm'. */
  lemma NoDeclaradoFedBack()
    ensures ClassifyGenero(Lower(GeneroText(NoDeclarado))) == Otro
  {
    LowerNoDeclarado();
    WithoutFAndMIsOtro(Lower(GeneroText(NoDeclarado)));
  }

  /** A text with neither 'f' nor 'm' passes none of the tests. */
  lemma WithoutFAndMIsOtro(l: string)
    requires forall i | 0 <= i < |l| :: l[i] != 'f' && l[i] != 'm'
    ensures ClassifyGenero(l) == Otro
  {
    NoLetterNoMatch(l, "f");
    NoLetterNoMatch(l, "femen");
    NoLetterNoMatch(l, "female");
    NoLetterNoMatch(l, "m");
    NoLetterNoMatch(l, "masc");
    NoLetterNoMatch(l, "male");
    assert StartsWith(l, "f") ==> Contains(l, "f");
    assert StartsWith(l, "m") ==> Contains(l, "m");
  }

  lemma LowerNoDeclarado()
    ensures Lower(GeneroText(NoDeclarado)) == "no declarado"
  {
    var t := GeneroText(NoDeclarado);
    var l := Lower(t);
    assert l[0] == 'n';
    assert forall i | 1 <= i < |l| :: l[i] == t[i];
  }

  /** A text without the first letter of `w` does not contain `w`. */
  lemma NoLetterNoMatch(s: string, w: string)
    requires w != [] && forall i | 0 <= i < |s| :: s[i] != w[0]
    ensures !Contains(s, w)
  {
    ContainsIffOccurs(s, w);
    forall i: nat | i + |w| <= |s| ensures !OccursAt(s, w, i) {
      assert s[i..i + |w|][0] == s[i] != w[0];
    }
  }

  /** The hourly test looks at the salary text, not at the key it came from:
      a `salario_por_hora` of "9.5" is read as 9.50, while "9.5/h" is scaled
      to a month of 160 hours. */
  lemma HourlyMarkerIsInTheText()
    ensures CentsOfText("9.5") == Some(950)
    ensures CentsOfText("9.5/h") == Some(152000)
  {
    NinePointFive("");
    NinePointFive("/h");
    assert "9.5" + "" == "9.5" && "9.5" + "/h" == "9.5/h";
    NoMarkerInNumber();
    MarkerAfterNumber();
    CentsOfNinePointFive();
  }

  /** The record `{ salario_por_hora: "9.5" }` gets a monthly salary of
      9.50: the key names an hourly rate, but the text carries no marker. */
  lemma HourlyKeyIsNotScaled()
    ensures SalarioField(Obj([Prop("salario_por_hora", Str("9.5"))])) == Field(Decimal(950, 2), false)
  {
    HourlyRecordLookup();
    NinePointFiveIsClean();
    HourlyMarkerIsInTheText();
    SalarioFromCleanText(Obj([Prop("salario_por_hora", Str("9.5"))]), "9.5");
  }

  lemma HourlyRecordLookup()
    ensures SalarioSource(Obj([Prop("salario_por_hora", Str("9.5"))])) == Str("9.5")
  {
    var props := [Prop("salario_por_hora", Str("9.5"))];
    assert "salario_por_hora"[7] != "salario"[6];
    assert "salario_por_hora"[0] != "ingresos_mensuales"[0];
    assert GetProp(props, "salario") == GetProp(props[1..], "salario") == GetProp([], "salario");
    assert GetProp(props, "ingresos_mensuales") == GetProp(props[1..], "ingresos_mensuales");
  }

  lemma NinePointFiveIsClean()
    ensures JsTrim("9.5") == "9.5" && ReplaceFirst("9.5", ',', '.') == "9.5"
  {
    JsTrimKeeps("9.5");
    assert ReplaceFirst("9.5", ',', '.') == ['9'] + ReplaceFirst(".5", ',', '.');
    assert ReplaceFirst(".5", ',', '.') == ['.'] + ReplaceFirst("5", ',', '.');
  }

  /** A salary source holding a text that is non-empty, trimmed and free of
      commas is read by `CentsOfText` as it stands. */
  lemma SalarioFromCleanText(raw: JsValue, t: string)
    requires SalarioSource(raw) == Str(t) && t != ""
    requires JsTrim(t) == t && ReplaceFirst(t, ',', '.') == t
    ensures SalarioCents(raw) == CentsOfText(t)
  {
    var src := SalarioSource(raw);
    assert ToJsString(src) == t;
    assert !(src.Null? || src.Undefined? || JsTrim(ToJsString(src)) == "");
    assert JsTrim(ReplaceFirst(ToJsString(src), ',', '.')) == t;
  }

  /** 9.5 is 950 cents, and 9.5 an hour is 152000 cents a month. */
  lemma CentsOfNinePointFive()
    ensures RoundCents(Decimal(95, 1), 1) == 950
    ensures RoundCents(Decimal(95, 1), HoursPerMonth) == 152000
  {
    assert Pow10(1) == 10 by {
      assert Pow10(0) == 1;
    }
    assert RoundCents(Decimal(95, 1), 1) == RoundHalfUp(9500, 10);
    assert RoundCents(Decimal(95, 1), HoursPerMonth) == RoundHalfUp(1520000, 10);
  }

  /** "9.5" followed by a text without digits reads as 9.5. */
  lemma NinePointFive(tail: string)
    requires tail == "" || tail == "/h"
    ensures FirstUnsignedNumber("9.5" + tail) == Some(Decimal(95, 1))
  {
    assert "" + "9" + "." + "5" + tail == "9.5" + tail;
    FieldProps.FirstNumberWithFraction("", "9", "5", tail);
    assert "9" + "5" == "95";
    assert DigitsValue("95") == 95 by {
      assert "95"[..1] == "9";
    }
  }

  lemma NoMarkerInNumber()
    ensures !HasHourlyMarker("9.5")
  {
    assert Lower("9.5") == "9.5";
    NoLetterNoMatch("9.5", "por_hora");
    NoLetterNoMatch("9.5", "hora");
    NoLetterNoMatch("9.5", "/h");
    NoLetterNoMatch("9.5", "h/");
    NoLetterNoMatch("9.5", "hour");
  }

  lemma MarkerAfterNumber()
    ensures HasHourlyMarker("9.5/h")
  {
    var l := "9.5/h";
    assert Lower(l) == l;
    assert StartsWith(l[3..], "/h");
    assert l[1..][1..][1..] == l[3..];
    assert Contains(l, "/h");
  }

  // ---------------------------------------------------------------------
  // The `||` chains
  // ---------------------------------------------------------------------

  /** `{ nombre: "nan", name: "Ana" }`: "nan" is truthy, so the chain stops
      at it; it then sanitises to null and the name is defaulted. */
  lemma SentinelHidesLaterKey()
    ensures ChainedTextField(Obj([Prop("nombre", Str("nan")), Prop("name", Str("Ana"))]), NombreKeys, DefaultText)
         == Field(DefaultText, true)
  {
    NanNombreLookup();
    FirstKeyReadsAbsent(Obj([Prop("nombre", Str("nan")), Prop("name", Str("Ana"))]), NombreKeys, DefaultText);
  }

  lemma NanNombreLookup()
    ensures var raw := Obj([Prop("nombre", Str("nan")), Prop("name", Str("Ana"))]);
      && Truthy(raw) && |NombreKeys| > 0
      && Truthy(Get(raw, NombreKeys[0])) && ReadsAsAbsent(Get(raw, NombreKeys[0]))
  {
    var raw := Obj([Prop("nombre", Str("nan")), Prop("name", Str("Ana"))]);
    assert Get(raw, "nombre") == Str("nan");
    assert JsTrim("nan") == "nan" by {
      JsTrimKeeps("nan");
    }
    assert Lower("nan") == "nan";
  }

  /** The chain step of the example above: a first key that is truthy but
      reads as absent defaults the field. */
  lemma FirstKeyReadsAbsent(raw: JsValue, keys: seq<string>, dflt: string)
    requires Truthy(raw) && |keys| > 0
    requires Truthy(Get(raw, keys[0])) && ReadsAsAbsent(Get(raw, keys[0]))
    ensures ChainedTextField(raw, keys, dflt) == Field(dflt, true)
  {
    FieldProps.ChainFirstTruthyDecides(raw, keys, dflt, 0);
  }

  /** `{ nombre: "", name: "Ana" }`: the empty text is falsy, so the chain
      goes on to `name`. */
  lemma EmptyTextFallsThrough()
    ensures ChainedTextField(Obj([Prop("nombre", Str("")), Prop("name", Str("Ana"))]), NombreKeys, DefaultText)
         == Field("Ana", false)
  {
    EmptyNombreLookups();
    AnaIsKept();
    SecondKeyKeepsText(Obj([Prop("nombre", Str("")), Prop("name", Str("Ana"))]), NombreKeys, DefaultText, "Ana");
  }

  /** The chain step of the example above, with its literals kept out of
      sight: a falsy first key and a kept text under the second. */
  lemma SecondKeyKeepsText(raw: JsValue, keys: seq<string>, dflt: string, x: string)
    requires Truthy(raw) && |keys| >= 2
    requires !Truthy(Get(raw, keys[0])) && Get(raw, keys[1]) == Str(x) && x != ""
    requires !ReadsAsAbsent(Str(x)) && SanitizeIncomingValue(Str(x)) == Str(x)
    ensures ChainedTextField(raw, keys, dflt) == Field(x, false)
  {
    SecondKeyChains(raw, keys);
  }

  lemma SecondKeyChains(raw: JsValue, keys: seq<string>)
    requires Truthy(raw) && |keys| >= 2
    requires !Truthy(Get(raw, keys[0])) && Truthy(Get(raw, keys[1]))
    ensures Chain(raw, keys) == Get(raw, keys[1])
  {
    var vals := FieldProps.ChainOperands(raw, keys);
    assert !Truthy(vals[0]) && Truthy(vals[1]);
    assert forall j | 0 <= j < 1 :: j == 0 ==> !Truthy(vals[j]);
    FieldProps.OrChainPicksFirstTruthy(vals, 1);
  }

  lemma EmptyNombreLookups()
    ensures var raw := Obj([Prop("nombre", Str("")), Prop("name", Str("Ana"))]);
      && Truthy(raw) && |NombreKeys| >= 2
      && !Truthy(Get(raw, NombreKeys[0])) && Get(raw, NombreKeys[1]) == Str("Ana") && "Ana" != ""
  {
    assert NombreKeys[0] == "nombre" && NombreKeys[1] == "name";
    assert "nombre" != "name" by {
      assert "nombre"[1] != "name"[1];
    }
  }

  lemma AnaIsKept()
    ensures !ReadsAsAbsent(Str("Ana")) && SanitizeIncomingValue(Str("Ana")) == Str("Ana")
  {
    AnaIsTrimmed();
    AnaIsNoSentinel();
  }

  lemma AnaIsTrimmed()
    ensures JsTrim("Ana") == "Ana"
  {
    JsTrimKeeps("Ana");
  }

  lemma AnaIsNoSentinel()
    ensures !IsSentinel("Ana")
  {
    var l := Lower("Ana");
    assert |l| == 3 && l[0] == 'a';
    assert forall k | 0 <= k < |SentinelTokens| :: |SentinelTokens[k]| != 3 || SentinelTokens[k][0] != 'a';
  }

  /** `{ edad: 0 }`: 0 is falsy and `raw.age` is undefined, so the age is
      defaulted and reported. */
  lemma ZeroUnderFirstKeyIsDefaulted()
    ensures ChainedNumberField(Obj([Prop("edad", Num(Finite(Zero)))]), EdadKeys) == Field(Zero, true)
  {
    var raw := Obj([Prop("edad", Num(Finite(Zero)))]);
    assert "edad" != "age" by {
      assert "edad"[0] != "age"[0];
    }
    var props := [Prop("edad", Num(Finite(Zero)))];
    assert GetProp(props, "age") == GetProp(props[1..], "age") == GetProp([], "age");
    assert Get(raw, "edad") == Num(Finite(Zero)) && Get(raw, "age") == Undefined;
    assert !Truthy(Get(raw, EdadKeys[0])) && !Truthy(Get(raw, EdadKeys[1]));
    FieldProps.OrChainAllFalsy(FieldProps.ChainOperands(raw, EdadKeys));
    assert Chain(raw, EdadKeys) == Undefined;
  }
}
