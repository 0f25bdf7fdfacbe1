// Field-by-field promises of `normalizeEmployee` (server.js): how each
// canonical column is derived, which alias wins, when a default is written,
// and what the defaults are.

module FieldProps {
  import opened Text
  import opened Maybe
  import opened Numbers
  import opened JsValues
  import opened Sanitize
  import opened Aliases
  import opened Normalizer
  import opened NormalizerProps
  import opened Seqs

  // ---------------------------------------------------------------------
  // Defaults
  // ---------------------------------------------------------------------

  // ---------------------------------------------------------------------
  // genero
  // ---------------------------------------------------------------------

  /** A text containing "female" is Femenino, although it also contains
      "male": the Femenino tests come first. */
  lemma FemaleBeforeMale(gl: string)
    requires Contains(gl, "female")
    ensures Contains(gl, "male")
    ensures ClassifyGenero(gl) == Femenino
  {
    assert StartsWith("female"[2..], "male");
    assert Contains("female"[1..], "male");
    assert Contains("female", "male");
    ContainsTransitive(gl, "female", "male");
  }

  /** No gender found, or only a blank one: "No declarado", reported as
      defaulted. */
  lemma GeneroAbsent(raw: JsValue)
    requires forall i | 0 <= i < |GeneroKeys| :: !Matches(raw, GeneroKeys[i], true)
    ensures GeneroField(raw) == Field(NoDeclarado, true)
  {
    assert AliasHit(raw, GeneroKeys, true).Miss?;
    assert GeneroValue(raw) == Null;
  }

  /** An exact `genero` key with non-blank text is classified by its
      lower-cased, trimmed text. */
  lemma GeneroFromExactKey(raw: JsValue)
    requires var v := Get(raw, "genero"); !v.Undefined? && JsTrim(ToJsString(v)) != ""
    ensures GeneroField(raw) ==
      Field(ClassifyGenero(Lower(JsTrim(ToJsString(Get(raw, "genero"))))), false)
  {
    var t := JsTrim(ToJsString(Get(raw, "genero")));
    assert GeneroValue(raw) == Str(t) by {
      assert Matches(raw, GeneroKeys[0], true);
      FirstMatchIsHit(raw, GeneroKeys, true, 0);
    }
    assert JsTrim(t) == t by {
      JsTrimIdempotent(ToJsString(Get(raw, "genero")));
    }
    assert Truthy(Str(t)) && ToJsString(Str(t)) == t;
  }

  // ---------------------------------------------------------------------
  // Alias lookup of setTextField / setNumField
  // ---------------------------------------------------------------------

  /** The first candidate that matches decides the field: when its value
      reads as absent the field takes the default text, even if a later
      candidate holds a usable value. */
  lemma FirstMatchDecidesText(raw: JsValue, cands: seq<string>, i: nat)
    requires i < |cands| && Matches(raw, cands[i], false)
    requires forall j | 0 <= j < i :: !Matches(raw, cands[j], false)
    ensures var v := HitValue(HitFor(raw, cands[i], false));
      TextField(raw, cands) ==
        if ReadsAsAbsent(v) then Field(DefaultText, true)
        else Field(ToJsString(SanitizeIncomingValue(v)), false)
  {
    FirstMatchIsHit(raw, cands, false, i);
  }

  /** The same for a numeric field: an absent value, or one `Number()`
      cannot read as a finite number, gives 0. */
  lemma FirstMatchDecidesNumber(raw: JsValue, cands: seq<string>, i: nat)
    requires i < |cands| && Matches(raw, cands[i], false)
    requires forall j | 0 <= j < i :: !Matches(raw, cands[j], false)
    ensures var v := HitValue(HitFor(raw, cands[i], false));
      NumField(raw, cands) ==
        if ReadsAsAbsent(v) || !ToJsNumber(SanitizeIncomingValue(v)).Finite? then Field(Zero, true)
        else Field(ToJsNumber(SanitizeIncomingValue(v)).d, false)
  {
    FirstMatchIsHit(raw, cands, false, i);
  }

  /** No candidate matches: the field is defaulted. */
  lemma NoMatchDefaults(raw: JsValue, cands: seq<string>)
    requires forall j | 0 <= j < |cands| :: !Matches(raw, cands[j], false)
    ensures TextField(raw, cands) == Field(DefaultText, true)
    ensures NumField(raw, cands) == Field(Zero, true)
  {
  }

  lemma FirstMatchIsHit(raw: JsValue, cands: seq<string>, nonBlank: bool, i: nat)
    requires i < |cands| && Matches(raw, cands[i], nonBlank)
    requires forall j | 0 <= j < i :: !Matches(raw, cands[j], nonBlank)
    ensures AliasHit(raw, cands, nonBlank) == HitFor(raw, cands[i], nonBlank)
  {
    var r := AliasHit(raw, cands, nonBlank);
    var k :| 0 <= k < |cands| && Matches(raw, cands[k], nonBlank)
      && (forall j | 0 <= j < k :: !Matches(raw, cands[j], nonBlank))
      && r == HitFor(raw, cands[k], nonBlank);
    assert k == i;
  }

  // ---------------------------------------------------------------------
  // The `||` chains (nombre, fecha_ingreso, satisfaccion, ingresos, edad)
  // ---------------------------------------------------------------------

  /** `a || b || ...` is the first truthy operand. */
  lemma {:induction false} OrChainPicksFirstTruthy(vals: seq<JsValue>, i: nat)
    requires i < |vals| && Truthy(vals[i])
    requires forall j | 0 <= j < i :: !Truthy(vals[j])
    ensures OrChain(vals) == vals[i]
    decreases i
  {
    if i > 0 {
      assert !Truthy(vals[0]) && |vals| > 1;
      OrChainPicksFirstTruthy(vals[1..], i - 1);
    }
  }

  /** When no operand is truthy, `a || b || ...` is the last one. */
  lemma {:induction false} OrChainAllFalsy(vals: seq<JsValue>)
    requires |vals| > 0
    requires forall j | 0 <= j < |vals| :: !Truthy(vals[j])
    ensures OrChain(vals) == vals[|vals| - 1]
    decreases |vals|
  {
    if |vals| > 1 {
      OrChainAllFalsy(vals[1..]);
    }
  }

  /** The operands of `raw.k1 || raw.k2 || ...`. */
  function ChainOperands(raw: JsValue, keys: seq<string>): (vals: seq<JsValue>)
    ensures |vals| == |keys|
    ensures forall j | 0 <= j < |keys| :: vals[j] == Get(raw, keys[j])
  {
    seq(|keys|, j requires 0 <= j < |keys| => Get(raw, keys[j]))
  }

  /** The first key whose raw value is truthy decides a chained field, even
      when that value then sanitises to null and a later key holds a usable
      one: the text field takes `String(v)` or its default, the numeric
      field is parsed or defaulted. */
  lemma ChainFirstTruthyDecides(raw: JsValue, keys: seq<string>, dflt: string, i: nat)
    requires Truthy(raw) && i < |keys| && Truthy(Get(raw, keys[i]))
    requires forall j | 0 <= j < i :: !Truthy(Get(raw, keys[j]))
    ensures var v := SanitizeIncomingValue(Get(raw, keys[i]));
      && ChainedTextField(raw, keys, dflt)
         == (if ReadsAsAbsent(Get(raw, keys[i])) then Field(dflt, true) else Field(ToJsString(v), false))
      && (ReadsAsAbsent(Get(raw, keys[i])) ==> ChainedNumberField(raw, keys) == Field(Zero, true))
  {
    var vals := ChainOperands(raw, keys);
    OrChainPicksFirstTruthy(vals, i);
    assert Chain(raw, keys) == Get(raw, keys[i]);
  }

  /** No key holds a truthy value: the text field is defaulted. */
  lemma ChainNoTruthyKey(raw: JsValue, keys: seq<string>, dflt: string)
    requires |keys| > 0
    requires forall j | 0 <= j < |keys| :: !Truthy(Get(raw, keys[j]))
    ensures ChainedTextField(raw, keys, dflt) == Field(dflt, true)
  {
    if Truthy(raw) {
      var vals := ChainOperands(raw, keys);
      OrChainAllFalsy(vals);
    }
  }

  // ---------------------------------------------------------------------
  // employee_id
  // ---------------------------------------------------------------------

  /** The explicit `||` chain is tried first: when it yields a usable value
      the key scan is not consulted. */
  lemma IdFromChain(raw: JsValue, suffix: string)
    requires Truthy(SanitizeIncomingValue(Chain(raw, IdKeys)))
    ensures EmployeeIdField(raw, suffix) == Field(ToJsString(SanitizeIncomingValue(Chain(raw, IdKeys))), false)
  {
  }

  /** Otherwise the first key whose lower-cased name contains an id marker
      and whose value is not blank supplies the id, if it sanitises to a
      usable value. */
  lemma IdFromScan(raw: JsValue, suffix: string, i: nat)
    requires Truthy(raw) && !Truthy(SanitizeIncomingValue(Chain(raw, IdKeys)))
    requires i < |Keys(raw)| && IdCandidate(raw, Keys(raw)[i])
    requires forall j | 0 <= j < i :: !IdCandidate(raw, Keys(raw)[j])
    ensures var v := SanitizeIncomingValue(Get(raw, Keys(raw)[i]));
      EmployeeIdField(raw, suffix) ==
        if Truthy(v) then Field(ToJsString(v), false) else Field(GeneratedIdPrefix + suffix, true)
  {
    var r := IdScanKey(raw);
    var k :| 0 <= k < |Keys(raw)| && Keys(raw)[k] == r.value && IdCandidate(raw, r.value)
      && forall j | 0 <= j < k :: !IdCandidate(raw, Keys(raw)[j]);
    assert k == i;
  }

  /** A generated id: "srv_" and the random characters, reported first in
      the autofill list, and marked `_generated_employee_id` in `otros`
      unless what `raw.otros` merges in carries that key itself. */
  lemma GeneratedIdIsReported(raw: JsValue, suffix: string, now: string, parse: string -> Option<JsValue>)
    requires EmployeeIdField(raw, suffix).defaulted
    requires !HasKey(MergedOtros(raw, parse), "_generated_employee_id")
    ensures var n := Normalize(raw, suffix, now, parse);
      && n.emp.employeeId == GeneratedIdPrefix + suffix
      && |n.autofields| > 0 && n.autofields[0] == "employee_id"
      && GetProp(n.emp.otros, "_generated_employee_id") == Bool(true)
  {
    var f := ResolveFields(raw, suffix);
    var a := Autofields(f);
    NormalizeReports(raw, suffix, now, parse);
    NormalizeId(raw, suffix, now, parse);
    IdReportedFirst(f);
    OthersIdMark(raw, f, parse, a);
  }

  lemma IdReportedFirst(f: Fields)
    requires f.id.defaulted
    ensures |Autofields(f)| > 0 && Autofields(f)[0] == "employee_id"
  {
    var a := Autofields(f);
    assert a == ["employee_id"] + a[1..];
  }

  lemma OthersIdMark(raw: JsValue, f: Fields, parse: string -> Option<JsValue>, a: seq<string>)
    requires f.id.defaulted
    requires !HasKey(MergedOtros(raw, parse), "_generated_employee_id")
    ensures GetProp(Others(raw, f, parse, a), "_generated_employee_id") == Bool(true)
  {
    var o0 := InitialOthers(raw);
    var o1 := Assign(o0, "_generated_employee_id", Bool(true));
    var o2 := if f.nombre.defaulted then Assign(o1, "_generated_nombre", Bool(true)) else o1;
    var m := MergeOtros(o2, raw, parse);
    assert Others(raw, f, parse, a) == Assign(m, "_fields_autofilled", Texts(a));
    AssignKeepsOther(m, "_fields_autofilled", Texts(a), "_generated_employee_id");
    MergeOtrosKeeps(o2, raw, parse, "_generated_employee_id");
    if f.nombre.defaulted {
      AssignKeepsOther(o1, "_generated_nombre", Bool(true), "_generated_employee_id");
    }
  }

  /** The properties the final merge of `raw.otros` spreads into `others`. */
  function MergedOtros(raw: JsValue, parse: string -> Option<JsValue>): seq<Prop>
  {
    var o := Get(raw, "otros");
    if OtrosIsObject(raw) then SpreadProps(o)
    else if Truthy(o) && o.Str? then
      match parse(o.s)
      case Some(p) => if IsTypeofObject(p) then SpreadProps(p) else []
      case None => []
    else []
  }

  /** A key that the merged properties do not carry keeps its value, except
      `_otros_raw`, where an unparsable string is kept. */
  lemma MergeOtrosKeeps(others: seq<Prop>, raw: JsValue, parse: string -> Option<JsValue>, k: string)
    requires !HasKey(MergedOtros(raw, parse), k) && k != "_otros_raw"
    ensures GetProp(MergeOtros(others, raw, parse), k) == GetProp(others, k)
  {
    var o := Get(raw, "otros");
    if OtrosIsObject(raw) {
      MergeKeeps(others, SpreadProps(o), k);
    } else if Truthy(o) && o.Str? {
      match parse(o.s)
      case Some(p) =>
        if IsTypeofObject(p) {
          MergeKeeps(others, SpreadProps(p), k);
        }
      case None =>
    }
  }

  // ---------------------------------------------------------------------
  // salario and ingresos_mensuales
  // ---------------------------------------------------------------------

  /** The salary source is chosen by presence, not by validity: a present
      `salario` is used even when it holds no number, and the field is then
      defaulted whatever `ingresos_mensuales` holds. */
  lemma SalarioByPresence(raw: JsValue)
    ensures !Get(raw, "salario").Undefined? ==> SalarioSource(raw) == Get(raw, "salario")
    ensures Get(raw, "salario").Undefined? && !Get(raw, "ingresos_mensuales").Undefined? ==>
      SalarioSource(raw) == Get(raw, "ingresos_mensuales")
    ensures (Get(raw, "salario").Undefined? && Get(raw, "ingresos_mensuales").Undefined?
      && !Get(raw, "salario_por_hora").Undefined?) ==> SalarioSource(raw) == Get(raw, "salario_por_hora")
    ensures !Get(raw, "salario").Undefined? && !HasDigit(ToJsString(Get(raw, "salario"))) ==>
      SalarioField(raw) == Field(Zero, true)
  {
    SalarioDefaults(raw);
  }

  /** The salary is defaulted (to 0) exactly when there is no source, it is
      blank, or its text has no digit. */
  lemma SalarioDefaults(raw: JsValue)
    ensures var src := SalarioSource(raw);
      SalarioField(raw).defaulted <==>
        src.Null? || src.Undefined? || JsTrim(ToJsString(src)) == "" || !HasDigit(ToJsString(src))
  {
    var src := SalarioSource(raw);
    var t := ToJsString(src);
    if !(src.Null? || src.Undefined? || JsTrim(t) == "") {
      var s := JsTrim(ReplaceFirst(t, ',', '.'));
      DigitsSurviveReplaceAndTrim(t);
      assert SalarioCents(raw) == CentsOfText(s);
      assert CentsOfText(s).None? <==> !HasDigit(s);
    }
  }

  /** Replacing the first comma and trimming neither adds nor removes digits. */
  lemma DigitsSurviveReplaceAndTrim(t: string)
    ensures HasDigit(t) <==> HasDigit(JsTrim(ReplaceFirst(t, ',', '.')))
  {
    var r := ReplaceFirst(t, ',', '.');
    ReplaceFirstKeepsDigits(t);
    assert HasDigit(t) <==> HasDigit(r) by {
      if HasDigit(t) {
        var i :| 0 <= i < |t| && IsAsciiDigit(t[i]);
        assert IsAsciiDigit(r[i]);
      }
      if HasDigit(r) {
        var i :| 0 <= i < |r| && IsAsciiDigit(r[i]);
        assert IsAsciiDigit(t[i]);
      }
    }
    TrimStartKeepsDigits(r);
    TrimEndKeepsDigits(TrimStart(r));
  }

  lemma {:induction false} ReplaceFirstKeepsDigits(t: string)
    ensures forall i | 0 <= i < |t| :: IsAsciiDigit(t[i]) <==> IsAsciiDigit(ReplaceFirst(t, ',', '.')[i])
  {
    if t != [] && t[0] != ',' {
      ReplaceFirstKeepsDigits(t[1..]);
      var r := ReplaceFirst(t, ',', '.');
      assert forall i | 1 <= i < |t| :: r[i] == ReplaceFirst(t[1..], ',', '.')[i - 1];
    }
  }

  lemma TrimStartKeepsDigits(r: string)
    ensures HasDigit(r) <==> HasDigit(TrimStart(r))
  {
    var u := TrimStart(r);
    var d := |r| - |u|;
    assert u == r[d..];
    assert HasDigit(r) ==> HasDigit(u) by {
      if HasDigit(r) {
        var i :| 0 <= i < |r| && IsAsciiDigit(r[i]);
        assert i >= d by {
          TrimStartDropsSpaces(r);
          DigitIsNotSpace(r[i]);
        }
        assert IsAsciiDigit(u[i - d]);
      }
    }
    assert HasDigit(u) ==> HasDigit(r) by {
      if HasDigit(u) {
        var i :| 0 <= i < |u| && IsAsciiDigit(u[i]);
        assert IsAsciiDigit(r[i + d]);
      }
    }
  }

  lemma DigitIsNotSpace(c: char)
    requires IsAsciiDigit(c)
    ensures !IsJsSpace(c)
  {
  }

  lemma TrimEndKeepsDigits(r: string)
    ensures HasDigit(r) <==> HasDigit(TrimEnd(r))
  {
    var u := TrimEnd(r);
    TrimEndDropsSpaces(r);
    if HasDigit(r) {
      var i :| 0 <= i < |r| && IsAsciiDigit(r[i]);
      assert i < |u| by {
        DigitIsNotSpace(r[i]);
      }
      assert u[i] == r[i];
    }
    if HasDigit(u) {
      var i :| 0 <= i < |u| && IsAsciiDigit(u[i]);
      assert r[i] == u[i];
    }
  }

  /** The monthly salary: the first number of the text, times 160 when the
      text carries an hourly marker, rounded to whole cents. */
  lemma SalarioScaling(raw: JsValue)
    requires !SalarioField(raw).defaulted
    ensures var s := JsTrim(ReplaceFirst(ToJsString(SalarioSource(raw)), ',', '.'));
      var d := FirstUnsignedNumber(s).value;
      var factor := if HasHourlyMarker(s) then HoursPerMonth else 1;
      var c := SalarioField(raw).value;
      && c.scale == 2
      && c.units * (2 * Pow10(d.scale)) <= 2 * (100 * d.units * factor) + Pow10(d.scale)
      && 2 * (100 * d.units * factor) + Pow10(d.scale) < c.units * (2 * Pow10(d.scale)) + 2 * Pow10(d.scale)
  {
  }

  /** Without a usable income of its own the field falls back to the salary,
      and is reported as defaulted exactly when the result is 0. */
  lemma IngresosFallsBackToSalario(raw: JsValue, salario: Decimal)
    requires Blank(SanitizeIncomingValue(Chain(raw, IngresosKeys)))
    ensures var f := IngresosField(raw, salario);
      && (IsZero(salario) ==> f.value == Zero)
      && (!IsZero(salario) ==> f.value == salario)
      && (f.defaulted <==> IsZero(f.value))
  {
  }

  /** With a value of its own, ingresos_mensuales ignores the salary: it is
      that value when `Number()` reads it (a decimal comma read as a point)
      as a finite number, and otherwise 0, reported as defaulted. */
  lemma IngresosOwnValue(raw: JsValue, salario: Decimal, salario': Decimal)
    requires !Blank(SanitizeIncomingValue(Chain(raw, IngresosKeys)))
    ensures IngresosField(raw, salario) == IngresosField(raw, salario')
    ensures var v := SanitizeIncomingValue(Chain(raw, IngresosKeys));
      var n := StringToNumber(ReplaceFirst(ToJsString(v), ',', '.'));
      && (IngresosField(raw, salario).defaulted <==> !n.Finite?)
      && (n.Finite? ==> IngresosField(raw, salario).value == n.d)
  {
  }

  // ---------------------------------------------------------------------
  // The number the salary is read from
  // ---------------------------------------------------------------------

  predicate NoDigit(s: string) {
    forall k | 0 <= k < |s| :: !IsAsciiDigit(s[k])
  }

  /** The leftmost run of digits, with no fraction after it, is the number. */
  lemma FirstNumberIsLeftmostRun(pre: string, digits: string, rest: string)
    requires NoDigit(pre) && digits != [] && AllDigits(digits)
    requires rest == [] || !IsAsciiDigit(rest[0])
    requires !(|rest| >= 2 && rest[0] == '.' && IsAsciiDigit(rest[1]))
    ensures FirstUnsignedNumber(pre + digits + rest) == Some(Decimal(DigitsValue(digits), 0))
  {
    FirstDigitAt(pre, digits, rest);
    NumberAtWholeRun(digits, rest);
  }

  /** A point and more digits after the leftmost run are its fraction. */
  lemma FirstNumberWithFraction(pre: string, digits: string, frac: string, rest: string)
    requires NoDigit(pre) && digits != [] && AllDigits(digits)
    requires frac != [] && AllDigits(frac)
    requires rest == [] || !IsAsciiDigit(rest[0])
    ensures FirstUnsignedNumber(pre + digits + "." + frac + rest)
         == Some(Decimal(DigitsValue(digits + frac), |frac|))
  {
    FractionJoin(pre, digits, frac, rest);
    FirstDigitAt(pre, digits, "." + frac + rest);
    NumberAtFraction(digits, frac, rest);
  }

  lemma NumberAtWholeRun(digits: string, rest: string)
    requires AllDigits(digits)
    requires rest == [] || !IsAsciiDigit(rest[0])
    requires !(|rest| >= 2 && rest[0] == '.' && IsAsciiDigit(rest[1]))
    ensures NumberAt(digits + rest) == Decimal(DigitsValue(digits), 0)
  {
    var t := digits + rest;
    LeadingDigitsOfRun(digits, rest);
    assert t[..|digits|] == digits && t[|digits|..] == rest;
  }

  lemma NumberAtFraction(digits: string, frac: string, rest: string)
    requires AllDigits(digits) && frac != [] && AllDigits(frac)
    requires rest == [] || !IsAsciiDigit(rest[0])
    ensures NumberAt(digits + ("." + frac + rest)) == Decimal(DigitsValue(digits + frac), |frac|)
  {
    LeadingDigitsOfRun(digits, "." + frac + rest);
    LeadingDigitsOfRun(frac, rest);
    FractionSlices(digits, frac, rest);
  }

  /** How `NumberAt` takes `digits.frac rest` apart. */
  lemma FractionSlices(digits: string, frac: string, rest: string)
    requires frac != []
    ensures var t := digits + ("." + frac + rest);
      && t[|digits|..] == "." + frac + rest
      && t[|digits|..][1..] == frac + rest
      && t[|digits|..][1] == frac[0]
      && t[..|digits|] == digits
      && (frac + rest)[..|frac|] == frac
  {
  }

  lemma FractionJoin(pre: string, digits: string, frac: string, rest: string)
    ensures pre + digits + "." + frac + rest == pre + digits + ("." + frac + rest)
  {
  }

  lemma FirstDigitAt(pre: string, digits: string, rest: string)
    requires NoDigit(pre) && digits != [] && AllDigits(digits)
    ensures FirstUnsignedNumber(pre + digits + rest) == Some(NumberAt(digits + rest))
  {
    assert (pre + digits + rest)[|pre|..] == digits + rest;
    var s := pre + digits + rest;
    assert s[|pre|] == digits[0];
    assert forall j | 0 <= j < |pre| :: s[j] == pre[j];
    FirstIndexIs(s, IsAsciiDigit, |pre|);
  }
}
