// What `normalizeEmployee` promises about its result, proved of the
// specification `Normalize` (and so of the method `NormalizeEmployee`).

module NormalizerProps {
  import opened Text
  import opened Maybe
  import opened Numbers
  import opened JsValues
  import opened Sanitize
  import opened Aliases
  import opened Seqs
  import opened Normalizer

  /** The autofilled list is the defaulted fields, picked in processing order. */
  lemma AutofieldsPicked(f: Fields)
    ensures Autofields(f) == Pick(FieldOrder, DefaultedFlags(f))
  {
    PickUnrolled(FieldOrder, DefaultedFlags(f));
  }

  lemma PickUnrolled<T>(xs: seq<T>, fl: seq<bool>)
    requires |xs| == |fl| == 13
    ensures Pick(xs, fl) ==
      Keep(fl[0], xs[0]) + Keep(fl[1], xs[1]) + Keep(fl[2], xs[2]) + Keep(fl[3], xs[3])
      + Keep(fl[4], xs[4]) + Keep(fl[5], xs[5]) + Keep(fl[6], xs[6]) + Keep(fl[7], xs[7])
      + Keep(fl[8], xs[8]) + Keep(fl[9], xs[9]) + Keep(fl[10], xs[10]) + Keep(fl[11], xs[11])
      + Keep(fl[12], xs[12])
  {
    forall k | 0 <= k < 13
      ensures Pick(xs[..k + 1], fl[..k + 1]) == Pick(xs[..k], fl[..k]) + Keep(fl[k], xs[k])
    {
      assert xs[..k + 1] == xs[..k] + [xs[k]];
      assert fl[..k + 1] == fl[..k] + [fl[k]];
      PickSnoc(xs[..k], fl[..k], xs[k], fl[k]);
    }
    assert Pick(xs[..0], fl[..0]) == [];
    assert Pick(xs[..1], fl[..1]) == Keep(fl[0], xs[0]);
    assert xs[..13] == xs && fl[..13] == fl;
  }

  lemma FieldOrderDistinct()
    ensures forall i, j | 0 <= i < j < |FieldOrder| :: FieldOrder[i] != FieldOrder[j]
  {
  }

  /** A field's name is in `autofields` exactly when that field was defaulted;
      no name appears twice, and the count reported is the list's length. */
  lemma AutofieldsAreTheDefaultedFields(raw: JsValue, suffix: string, now: string, parse: string -> Option<JsValue>)
    ensures var n := Normalize(raw, suffix, now, parse);
      var flags := DefaultedFlags(ResolveFields(raw, suffix));
      && n.autofilledCount == |n.autofields| <= |FieldOrder|
      && (forall i | 0 <= i < |FieldOrder| :: FieldOrder[i] in n.autofields <==> flags[i])
      && (forall k, l | 0 <= k < l < |n.autofields| :: n.autofields[k] != n.autofields[l])
      && (forall k | 0 <= k < |n.autofields| :: n.autofields[k] in FieldOrder)
  {
    var f := ResolveFields(raw, suffix);
    NormalizeReports(raw, suffix, now, parse);
    AutofieldsListed(f);
  }

  lemma AutofieldsListed(f: Fields)
    ensures var a := Autofields(f);
      var flags := DefaultedFlags(f);
      && |a| <= |FieldOrder|
      && (forall i | 0 <= i < |FieldOrder| :: FieldOrder[i] in a <==> flags[i])
      && (forall k, l | 0 <= k < l < |a| :: a[k] != a[l])
      && (forall k | 0 <= k < |a| :: a[k] in FieldOrder)
  {
    AutofieldsPicked(f);
    FieldOrderDistinct();
    PickCharacterised(FieldOrder, DefaultedFlags(f));
  }

  /** Every alias of an `||` chain over a value without properties is missing. */
  lemma {:induction false} OrChainOfMissing(vals: seq<JsValue>)
    requires |vals| > 0
    requires forall i | 0 <= i < |vals| :: vals[i].Undefined?
    ensures OrChain(vals).Undefined?
  {
    if |vals| > 1 {
      OrChainOfMissing(vals[1..]);
    }
  }

  lemma ChainOfNothing(raw: JsValue, keys: seq<string>)
    requires |keys| > 0 && Own(raw) == []
    requires Truthy(raw) || raw.Null? || raw.Undefined?
    ensures SanitizeIncomingValue(Chain(raw, keys)).Null?
  {
    if Truthy(raw) {
      OrChainOfMissing(seq(|keys|, i requires 0 <= i < |keys| => Get(raw, keys[i])));
    }
  }

  lemma AliasMissOnNothing(raw: JsValue, cands: seq<string>, nonBlank: bool)
    requires Own(raw) == []
    ensures AliasHit(raw, cands, nonBlank).Miss?
  {
    forall i | 0 <= i < |cands| ensures !Matches(raw, cands[i], nonBlank) {
      assert Keys(raw) == [];
    }
  }

  lemma IdentityOfNothing(raw: JsValue, suffix: string)
    requires Own(raw) == []
    requires Truthy(raw) || raw.Null? || raw.Undefined?
    ensures EmployeeIdField(raw, suffix) == Field(GeneratedIdPrefix + suffix, true)
    ensures ChainedTextField(raw, NombreKeys, DefaultText) == Field(DefaultText, true)
    ensures GeneroField(raw) == Field(NoDeclarado, true)
  {
    IdOfNothing(raw, suffix);
    ChainedTextOfNothing(raw, NombreKeys, DefaultText);
    GeneroOfNothing(raw);
  }

  lemma IdOfNothing(raw: JsValue, suffix: string)
    requires Own(raw) == []
    requires Truthy(raw) || raw.Null? || raw.Undefined?
    ensures EmployeeIdField(raw, suffix) == Field(GeneratedIdPrefix + suffix, true)
  {
    ChainOfNothing(raw, IdKeys);
    assert Keys(raw) == [];
  }

  lemma ChainedTextOfNothing(raw: JsValue, keys: seq<string>, dflt: string)
    requires Own(raw) == [] && |keys| > 0
    requires Truthy(raw) || raw.Null? || raw.Undefined?
    ensures ChainedTextField(raw, keys, dflt) == Field(dflt, true)
  {
    ChainOfNothing(raw, keys);
  }

  lemma GeneroOfNothing(raw: JsValue)
    requires Own(raw) == []
    ensures GeneroField(raw) == Field(NoDeclarado, true)
  {
    AliasMissOnNothing(raw, GeneroKeys, true);
    assert GeneroValue(raw) == Null;
  }

  lemma TextsOfNothing(raw: JsValue)
    requires Own(raw) == []
    requires Truthy(raw) || raw.Null? || raw.Undefined?
    ensures TextField(raw, DepartamentoKeys) == Field(DefaultText, true)
    ensures ChainedTextField(raw, FechaKeys, DefaultDate) == Field(DefaultDate, true)
    ensures TextField(raw, PuestoKeys) == Field(DefaultText, true)
    ensures TextField(raw, RolKeys) == Field(DefaultText, true)
  {
    TextFieldOfNothing(raw, DepartamentoKeys);
    ChainedTextOfNothing(raw, FechaKeys, DefaultDate);
    TextFieldOfNothing(raw, PuestoKeys);
    TextFieldOfNothing(raw, RolKeys);
  }

  lemma TextFieldOfNothing(raw: JsValue, cands: seq<string>)
    requires Own(raw) == []
    ensures TextField(raw, cands) == Field(DefaultText, true)
  {
    AliasMissOnNothing(raw, cands, false);
  }

  lemma NumbersOfNothing(raw: JsValue)
    requires Own(raw) == []
    requires Truthy(raw) || raw.Null? || raw.Undefined?
    ensures NumField(raw, AntiguedadKeys) == Field(Zero, true)
    ensures SalarioField(raw) == Field(Zero, true)
    ensures ChainedNumberField(raw, SatisfaccionKeys) == Field(Zero, true)
    ensures IngresosField(raw, Zero) == Field(Zero, true)
    ensures HorasField(raw) == Field(Zero, true)
    ensures ChainedNumberField(raw, EdadKeys) == Field(Zero, true)
  {
    NumFieldOfNothing(raw, AntiguedadKeys);
    SalarioOfNothing(raw);
    ChainedNumberOfNothing(raw, SatisfaccionKeys);
    IngresosOfNothing(raw);
    HorasOfNothing(raw);
    ChainedNumberOfNothing(raw, EdadKeys);
  }

  lemma NumFieldOfNothing(raw: JsValue, cands: seq<string>)
    requires Own(raw) == []
    ensures NumField(raw, cands) == Field(Zero, true)
  {
    AliasMissOnNothing(raw, cands, false);
  }

  lemma HorasOfNothing(raw: JsValue)
    requires Own(raw) == []
    ensures HorasField(raw) == Field(Zero, true)
  {
    AliasMissOnNothing(raw, HorasKeys, true);
  }

  lemma SalarioOfNothing(raw: JsValue)
    requires Own(raw) == []
    ensures SalarioField(raw) == Field(Zero, true)
  {
    assert SalarioSource(raw) == Null;
  }

  lemma ChainedNumberOfNothing(raw: JsValue, keys: seq<string>)
    requires Own(raw) == [] && |keys| > 0
    requires Truthy(raw) || raw.Null? || raw.Undefined?
    ensures ChainedNumberField(raw, keys) == Field(Zero, true)
  {
    ChainOfNothing(raw, keys);
  }

  lemma IngresosOfNothing(raw: JsValue)
    requires Own(raw) == []
    requires Truthy(raw) || raw.Null? || raw.Undefined?
    ensures IngresosField(raw, Zero) == Field(Zero, true)
  {
    ChainOfNothing(raw, IngresosKeys);
  }

  lemma FieldsOfNothing(raw: JsValue, suffix: string)
    requires Own(raw) == []
    requires Truthy(raw) || raw.Null? || raw.Undefined?
    ensures ResolveFields(raw, suffix) == Fields(
      Field(GeneratedIdPrefix + suffix, true), Field(DefaultText, true), Field(NoDeclarado, true),
      Field(DefaultText, true), Field(DefaultDate, true), Field(Zero, true), Field(Zero, true),
      Field(Zero, true), Field(Zero, true), Field(Zero, true), Field(DefaultText, true),
      Field(DefaultText, true), Field(Zero, true))
  {
    IdentityOfNothing(raw, suffix);
    TextsOfNothing(raw);
    NumbersOfNothing(raw);
  }

  /** `Normalize` reports exactly the autofill list of its resolved fields. */
  lemma NormalizeReports(raw: JsValue, suffix: string, now: string, parse: string -> Option<JsValue>)
    ensures var n := Normalize(raw, suffix, now, parse); var a := Autofields(ResolveFields(raw, suffix));
      n.autofields == a && n.autofilledCount == |a| && n.emp.otros == Others(raw, ResolveFields(raw, suffix), parse, a)
  {
  }

  lemma NormalizeId(raw: JsValue, suffix: string, now: string, parse: string -> Option<JsValue>)
    ensures Normalize(raw, suffix, now, parse).emp.employeeId == EmployeeIdField(raw, suffix).value
  {
  }

  lemma AllDefaultedReportsAll(f: Fields)
    requires f.id.defaulted && f.nombre.defaulted && f.genero.defaulted && f.departamento.defaulted
    requires f.fecha.defaulted && f.antiguedad.defaulted && f.salario.defaulted && f.satisfaccion.defaulted
    requires f.ingresos.defaulted && f.horas.defaulted && f.puesto.defaulted && f.rol.defaulted
    requires f.edad.defaulted
    ensures Autofields(f) == FieldOrder
  {
  }

  /** A record with no properties (`{}`, null, undefined, a non-empty string)
      comes out with every field at its default. */
  lemma NothingGivesAllDefaults(raw: JsValue, suffix: string, now: string, parse: string -> Option<JsValue>)
    requires Own(raw) == []
    requires Truthy(raw) || raw.Null? || raw.Undefined?
    ensures var e := Normalize(raw, suffix, now, parse).emp;
      && e.employeeId == GeneratedIdPrefix + suffix
      && e.nombre == DefaultText && e.departamento == DefaultText
      && e.puesto == DefaultText && e.rolDelPuesto == DefaultText
      && e.genero == NoDeclarado && e.fechaIngreso == DefaultDate
      && e.antiguedadMeses == Zero && e.salario == Zero && e.satisfaccion == Zero
      && e.ingresosMensuales == Zero && e.horasExtras == Zero && e.edad == Zero
      && e.creadoAt == now && e.actualizadoAt == now
  {
    FieldsOfNothing(raw, suffix);
  }

  /** ... and all thirteen names are reported, in processing order, both in
      the result and in `otros`, next to the two `_generated_*` marks. */
  lemma NothingReportsEveryField(raw: JsValue, suffix: string, now: string, parse: string -> Option<JsValue>)
    requires Own(raw) == []
    requires Truthy(raw) || raw.Null? || raw.Undefined?
    ensures var n := Normalize(raw, suffix, now, parse);
      && n.autofields == FieldOrder
      && n.autofilledCount == 13
      && GetProp(n.emp.otros, "_fields_autofilled") == Texts(FieldOrder)
      && GetProp(n.emp.otros, "_generated_employee_id") == Bool(true)
      && GetProp(n.emp.otros, "_generated_nombre") == Bool(true)
  {
    var f := ResolveFields(raw, suffix);
    FieldsOfNothing(raw, suffix);
    NormalizeReports(raw, suffix, now, parse);
    AllDefaultedReportsAll(f);
    assert Get(raw, "otros").Undefined?;
    OthersMarks(raw, f, parse, FieldOrder);
  }

  /** The extras object lists its keys as an ordinary JavaScript object does:
      each key once, array indices first and ascending, every other key in
      the order it was first assigned. */
  lemma OthersInPropertyOrder(raw: JsValue, f: Fields, parse: string -> Option<JsValue>, a: seq<string>)
    ensures InPropertyOrder(Others(raw, f, parse, a))
  {
    var o0 := InitialOthers(raw);
    if OtrosIsObject(raw) {
      MergeKeepsOrder([], SpreadProps(Get(raw, "otros")));
    }
    var o1 := if f.id.defaulted then Assign(o0, "_generated_employee_id", Bool(true)) else o0;
    if f.id.defaulted {
      AssignKeepsOrder(o0, "_generated_employee_id", Bool(true));
    }
    var o2 := if f.nombre.defaulted then Assign(o1, "_generated_nombre", Bool(true)) else o1;
    if f.nombre.defaulted {
      AssignKeepsOrder(o1, "_generated_nombre", Bool(true));
    }
    MergeOtrosKeepsOrder(o2, raw, parse);
    AssignKeepsOrder(MergeOtros(o2, raw, parse), "_fields_autofilled", Texts(a));
  }

  lemma MergeOtrosKeepsOrder(others: seq<Prop>, raw: JsValue, parse: string -> Option<JsValue>)
    requires InPropertyOrder(others)
    ensures InPropertyOrder(MergeOtros(others, raw, parse))
  {
    var o := Get(raw, "otros");
    if OtrosIsObject(raw) {
      MergeKeepsOrder(others, SpreadProps(o));
    } else if Truthy(o) && o.Str? {
      match parse(o.s)
      case Some(p) =>
        if IsTypeofObject(p) {
          MergeKeepsOrder(others, SpreadProps(p));
        } else {
          AssignKeepsOrder(others, "_otros_raw", o);
        }
      case None => AssignKeepsOrder(others, "_otros_raw", o);
    }
  }

  /** The marks `Others` writes into the extras object. `_fields_autofilled`
      is written last and so always holds the list; the `_generated_*` marks
      survive unless `raw.otros` carries something to merge over them. */
  lemma OthersMarks(raw: JsValue, f: Fields, parse: string -> Option<JsValue>, a: seq<string>)
    ensures var o := Others(raw, f, parse, a);
      && GetProp(o, "_fields_autofilled") == Texts(a)
      && (f.id.defaulted && !Truthy(Get(raw, "otros")) ==> GetProp(o, "_generated_employee_id") == Bool(true))
      && (f.nombre.defaulted && !Truthy(Get(raw, "otros")) ==> GetProp(o, "_generated_nombre") == Bool(true))
  {
    var o0 := InitialOthers(raw);
    var o1 := if f.id.defaulted then Assign(o0, "_generated_employee_id", Bool(true)) else o0;
    var o2 := if f.nombre.defaulted then Assign(o1, "_generated_nombre", Bool(true)) else o1;
    var m := MergeOtros(o2, raw, parse);
    assert Others(raw, f, parse, a) == Assign(m, "_fields_autofilled", Texts(a));
    if !Truthy(Get(raw, "otros")) {
      assert m == o2;
      AssignKeepsOther(m, "_fields_autofilled", Texts(a), "_generated_nombre");
      AssignKeepsOther(m, "_fields_autofilled", Texts(a), "_generated_employee_id");
      if f.id.defaulted {
        AssignKeepsOther(o1, "_generated_nombre", Bool(true), "_generated_employee_id");
      }
    }
  }

  lemma AssignKeepsOther(bag: seq<Prop>, k: string, x: JsValue, k': string)
    requires k' != k
    ensures GetProp(Assign(bag, k, x), k') == GetProp(bag, k')
  {
  }

  /** Picking with every flag set keeps everything. */
  lemma {:induction false} PickAll<T>(xs: seq<T>, flags: seq<bool>)
    requires |xs| == |flags|
    requires forall i | 0 <= i < |flags| :: flags[i]
    ensures Pick(xs, flags) == xs
  {
    if xs != [] {
      PickAll(xs[1..], flags[1..]);
    }
  }
}
