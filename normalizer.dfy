// `normalizeEmployee` (server.js): any raw object in, a fully populated
// 16-column employee record out, together with the ordered list of the
// fields that had to be defaulted.
//
// The record is first specified field by field as functions (`...Field`),
// composed by `Normalize`; the method `NormalizeEmployee` then builds the
// record step by step as the source does (pushes onto `autofilled`,
// updates of `others`, candidate loops with `break`) and is proved to
// produce exactly `Normalize`.

module Normalizer {
  import opened Text
  import opened Maybe
  import opened Numbers
  import opened JsValues
  import opened Sanitize
  import opened Aliases
  import opened Seqs

  const DefaultDate: string := "1900-01-01"
  const HoursPerMonth: nat := 160
  const GeneratedIdPrefix: string := "srv_"

  // The alias lists, in the order the source tries them.
  const IdKeys: seq<string> := ["employee_id", "id", "Id", "id_empleado", "codigo", "dni", "dui", "legajo"]
  const NombreKeys: seq<string> := ["nombre", "name", "Nombres", "nombres", "full_name"]
  const GeneroKeys: seq<string> := ["genero", "sexo", "gender", "sex"]
  const DepartamentoKeys: seq<string> := ["departamento", "dept", "area", "department", "division"]
  const FechaKeys: seq<string> := ["fecha_ingreso", "start_date", "fechaInicio"]
  const AntiguedadKeys: seq<string> := ["antiguedad_meses", "antiguedad", "años_trabaja", "años_enla_empr", "años_enel"]
  const SatisfaccionKeys: seq<string> :=
    ["satisfaccion", "satisfaccion_conel_entorno", "sastisfacion_laboral", "satisfaccion_laboral", "satisfaction"]
  const IngresosKeys: seq<string> := ["ingresos_mensuales", "ingresos", "income"]
  const HorasKeys: seq<string> :=
    ["horas_extras", "horas", "extra_hours", "extra_hours_worked", "overtime", "overtime_hours", "hrs_extra"]
  const PuestoKeys: seq<string> := ["puesto", "position", "cargo", "rol_del_puesto", "rol"]
  const RolKeys: seq<string> := ["rol_del_puesto", "role", "rol"]
  const EdadKeys: seq<string> := ["edad", "age"]

  /** The order in which the fields are processed, and so reported when defaulted. */
  const FieldOrder: seq<string> := [
    "employee_id", "nombre", "genero", "departamento", "fecha_ingreso", "antiguedad_meses",
    "salario", "satisfaccion", "ingresos_mensuales", "horas_extras", "puesto",
    "rol_del_puesto", "edad"]

  datatype Genero = Femenino | Masculino | Otro | NoDeclarado

  function GeneroText(g: Genero): string {
    match g
    case Femenino => "Femenino"
    case Masculino => "Masculino"
    case Otro => "Otro"
    case NoDeclarado => "No declarado"
  }

  /** The canonical employee record (`emp`). Numeric columns are always finite;
      `otros` is the extras object before it is serialised. */
  datatype Employee = Employee(
    employeeId: string,
    nombre: string,
    genero: Genero,
    departamento: string,
    fechaIngreso: string,
    antiguedadMeses: Decimal,
    salario: Decimal,
    satisfaccion: Decimal,
    ingresosMensuales: Decimal,
    horasExtras: Decimal,
    puesto: string,
    rolDelPuesto: string,
    otros: seq<Prop>,
    creadoAt: string,
    actualizadoAt: string,
    edad: Decimal)

  /** `{ emp, autofilled_count, autofields }` */
  datatype Normalized = Normalized(emp: Employee, autofilledCount: nat, autofields: seq<string>)

  /** One resolved field: its value and whether it was defaulted. */
  datatype Field<T> = Field(value: T, defaulted: bool)

  /** `a || b || c`: the first truthy operand, else the last one. */
  function OrChain(vals: seq<JsValue>): JsValue
    requires |vals| > 0
  {
    if |vals| == 1 || Truthy(vals[0]) then vals[0] else OrChain(vals[1..])
  }

  /** `raw && (raw.k1 || raw.k2 || ...)`: exact keys only. */
  function Chain(raw: JsValue, keys: seq<string>): JsValue
    requires |keys| > 0
  {
    if !Truthy(raw) then raw
    else OrChain(seq(|keys|, i requires 0 <= i < |keys| => Get(raw, keys[i])))
  }

  /** A value the numeric fields treat as missing: null, undefined or blank text. */
  predicate Blank(v: JsValue) {
    v.Null? || v.Undefined? || JsTrim(ToJsString(v)) == ""
  }

  // ---------------------------------------------------------------------
  // The fields, one by one
  // ---------------------------------------------------------------------

  /** The value the id lookup settles on before the generated fallback:
      the sanitised `||` chain, and when that is falsy the first id-like
      key with a non-blank value. */
  function EmployeeIdValue(raw: JsValue): JsValue
  {
    var chained := SanitizeIncomingValue(Chain(raw, IdKeys));
    if !Truthy(chained) && Truthy(raw) then
      match IdScanKey(raw)
      case Some(k) => SanitizeIncomingValue(Get(raw, k))
      case None => chained
    else chained
  }

  function EmployeeIdField(raw: JsValue, suffix: string): (r: Field<string>)
    ensures r.defaulted <==> !Truthy(EmployeeIdValue(raw))
    ensures r.defaulted ==> r.value == GeneratedIdPrefix + suffix
  {
    var id := EmployeeIdValue(raw);
    if !Truthy(id) then Field(GeneratedIdPrefix + suffix, true) else Field(ToJsString(id), false)
  }

  /** A text field read through an `||` chain (nombre, fecha_ingreso):
      `String(v)`, or `dflt` when the sanitised value is falsy. */
  function ChainedTextField(raw: JsValue, keys: seq<string>, dflt: string): (r: Field<string>)
    requires |keys| > 0
    ensures r.defaulted ==> r.value == dflt
  {
    var v := SanitizeIncomingValue(Chain(raw, keys));
    if !Truthy(v) then Field(dflt, true) else Field(ToJsString(v), false)
  }

  /** Classification of the lower-cased gender text. Femenino is tested
      first, so a text that also matches a Masculino test stays Femenino. */
  function ClassifyGenero(gl: string): Genero
  {
    if StartsWith(gl, "f") || Contains(gl, "femen") || Contains(gl, "female") then Femenino
    else if StartsWith(gl, "m") || Contains(gl, "masc") || Contains(gl, "male") then Masculino
    else Otro
  }

  /** The `gen` variable after the genero loop: the trimmed text when the
      exact key was found, the raw value when a normalised key was. */
  function GeneroValue(raw: JsValue): JsValue
  {
    match AliasHit(raw, GeneroKeys, true)
    case Exact(v) => Str(JsTrim(ToJsString(v)))
    case ByNormalizedKey(_, v) => v
    case Miss => Null
  }

  function GeneroField(raw: JsValue): (r: Field<Genero>)
    ensures r.defaulted <==> r.value == NoDeclarado
  {
    var gen := GeneroValue(raw);
    if !Truthy(gen) || JsTrim(ToJsString(gen)) == "" then Field(NoDeclarado, true)
    else Field(ClassifyGenero(Lower(ToJsString(gen))), false)
  }

  /** `setTextField(key, candidates)` */
  function TextField(raw: JsValue, cands: seq<string>): (r: Field<string>)
    ensures r.defaulted ==> r.value == DefaultText
  {
    var v := SanitizeIncomingValue(HitValue(AliasHit(raw, cands, false)));
    if v.Null? then Field(DefaultText, true) else Field(ToJsString(v), false)
  }

  /** `setNumField(key, candidates)`: `Number(v)`, defaulted when not finite. */
  function NumField(raw: JsValue, cands: seq<string>): (r: Field<Decimal>)
    ensures r.defaulted ==> r.value == Zero
  {
    var v := SanitizeIncomingValue(HitValue(AliasHit(raw, cands, false)));
    if v.Null? then Field(Zero, true)
    else
      match ToJsNumber(v)
      case Finite(d) => Field(d, false)
      case _ => Field(Zero, true)
  }

  /** `salario`, else `ingresos_mensuales`, else `salario_por_hora`: the first
      key that is present at all, whatever its value. */
  function SalarioSource(raw: JsValue): JsValue
  {
    if !Get(raw, "salario").Undefined? then Get(raw, "salario")
    else if !Get(raw, "ingresos_mensuales").Undefined? then Get(raw, "ingresos_mensuales")
    else if !Get(raw, "salario_por_hora").Undefined? then Get(raw, "salario_por_hora")
    else Null
  }

  /** `/(por_hora|hora|\/h|h\/|hour)/i.test(s)` */
  predicate HasHourlyMarker(s: string) {
    var l := Lower(s);
    Contains(l, "por_hora") || Contains(l, "hora") || Contains(l, "/h") || Contains(l, "h/") || Contains(l, "hour")
  }

  /** `s.match(/([0-9]+(?:\.[0-9]+)?)/)`: the number read at the leftmost digit. */
  function FirstUnsignedNumber(s: string): (r: Option<Decimal>)
    ensures r.None? <==> forall i | 0 <= i < |s| :: !IsAsciiDigit(s[i])
    ensures r.Some? ==> r.value.units >= 0
  {
    match Seqs.FirstIndex(s, IsAsciiDigit)
    case None => None
    case Some(i) => Some(NumberAt(s[i..]))
  }

  /** The number at the front of `t`: its run of digits, with a fraction
      when a point and at least one more digit follow the run. */
  function NumberAt(t: string): (d: Decimal)
    ensures d.units >= 0
  {
    var n := LeadingDigits(t);
    var rest := t[n..];
    if |rest| >= 2 && rest[0] == '.' && IsAsciiDigit(rest[1]) then
      var m := LeadingDigits(rest[1..]);
      Decimal(DigitsValue(t[..n] + rest[1..][..m]), m)
    else Decimal(DigitsValue(t[..n]), 0)
  }

  /** `Math.round(x * factor * 100)` for x = d >= 0, in exact arithmetic:
      the nearest whole number of cents, halves rounded up. With
      x * factor * 100 == e / p, the cents c satisfy c - 1/2 <= e / p < c + 1/2. */
  function RoundCents(d: Decimal, factor: nat): (cents: nat)
    requires d.units >= 0
    ensures var p := Pow10(d.scale); var e := 100 * d.units * factor;
      && cents * (2 * p) <= 2 * e + p
      && 2 * e + p < cents * (2 * p) + 2 * p
  {
    RoundHalfUp(100 * d.units * factor, Pow10(d.scale))
  }

  /** n / p rounded to the nearest whole number, halves up. */
  function RoundHalfUp(n: nat, p: nat): (q: nat)
    requires p > 0
    ensures q * (2 * p) <= 2 * n + p < q * (2 * p) + 2 * p
  {
    var a := 2 * n + p;
    var b := 2 * p;
    assert a == (a / b) * b + a % b;
    a / b
  }

  /** `salarioVal` in cents; None is null. */
  function SalarioCents(raw: JsValue): Option<nat>
  {
    var src := SalarioSource(raw);
    if src.Null? || src.Undefined? || JsTrim(ToJsString(src)) == "" then None
    else CentsOfText(JsTrim(ReplaceFirst(ToJsString(src), ',', '.')))
  }

  /** The cents read from the cleaned salary text: its first number, scaled
      to a month when the text marks an hourly rate. */
  function CentsOfText(s: string): Option<nat>
  {
    match FirstUnsignedNumber(s)
    case None => None
    case Some(d) => Some(RoundCents(d, if HasHourlyMarker(s) then HoursPerMonth else 1))
  }

  function SalarioField(raw: JsValue): (r: Field<Decimal>)
    ensures r.defaulted ==> r.value == Zero
    ensures !r.defaulted ==> r.value.scale == 2
    ensures r.value.units >= 0
  {
    match SalarioCents(raw)
    case None => Field(Zero, true)
    case Some(c) => Field(Decimal(c, 2), false)
  }

  /** `Number(String(v).replace(",", "."))`, defaulted when not finite. */
  function ParsedField(v: JsValue): (r: Field<Decimal>)
    ensures r.defaulted <==> !StringToNumber(ReplaceFirst(ToJsString(v), ',', '.')).Finite?
    ensures r.defaulted ==> r.value == Zero
  {
    match StringToNumber(ReplaceFirst(ToJsString(v), ',', '.'))
    case Finite(d) => Field(d, false)
    case _ => Field(Zero, true)
  }

  /** A numeric field read through an `||` chain (satisfaccion, edad). */
  function ChainedNumberField(raw: JsValue, keys: seq<string>): (r: Field<Decimal>)
    requires |keys| > 0
    ensures r.defaulted ==> r.value == Zero
  {
    var v := SanitizeIncomingValue(Chain(raw, keys));
    if Blank(v) then Field(Zero, true) else ParsedField(v)
  }

  /** Without its own value the field takes `emp.salario || 0`, and counts as
      defaulted only when that is 0. */
  function IngresosField(raw: JsValue, salario: Decimal): (r: Field<Decimal>)
    ensures r.defaulted ==> r.value == Zero
  {
    var v := SanitizeIncomingValue(Chain(raw, IngresosKeys));
    if Blank(v) then
      var x := if IsZero(salario) then Zero else salario;
      Field(x, IsZero(x))
    else ParsedField(v)
  }

  /** horas_extras: its value is not sanitised before it is parsed. */
  function HorasField(raw: JsValue): (r: Field<Decimal>)
    ensures r.defaulted ==> r.value == Zero
  {
    var h := HitValue(AliasHit(raw, HorasKeys, true));
    if Blank(h) then Field(Zero, true) else ParsedField(h)
  }

  function CreadoAt(raw: JsValue, now: string): string
  {
    if Truthy(raw) && Truthy(Get(raw, "creado_at")) then ToJsString(Get(raw, "creado_at")) else now
  }

  function ActualizadoAt(raw: JsValue, creado: string): string
  {
    if Truthy(raw) && Truthy(Get(raw, "actualizado_at")) then ToJsString(Get(raw, "actualizado_at")) else creado
  }

  // ---------------------------------------------------------------------
  // The extras object `otros`
  // ---------------------------------------------------------------------

  /** `raw.otros` is a truthy value of type object. */
  predicate OtrosIsObject(raw: JsValue) {
    var o := Get(raw, "otros");
    Truthy(o) && IsTypeofObject(o)
  }

  /** `{ ...raw.otros }`, or `{}` */
  function InitialOthers(raw: JsValue): seq<Prop>
  {
    if OtrosIsObject(raw) then Merge([], SpreadProps(Get(raw, "otros"))) else []
  }

  /** The merge of `raw.otros` at the end: an object is spread in again; a
      string is parsed, and kept under `_otros_raw` when it does not parse
      to an object. `parse` is `JSON.parse`, None when it throws. */
  function MergeOtros(others: seq<Prop>, raw: JsValue, parse: string -> Option<JsValue>): seq<Prop>
  {
    var o := Get(raw, "otros");
    if OtrosIsObject(raw) then Merge(others, SpreadProps(o))
    else if Truthy(o) && o.Str? then
      match parse(o.s)
      case Some(p) =>
        if IsTypeofObject(p) then Merge(others, SpreadProps(p)) else Assign(others, "_otros_raw", o)
      case None => Assign(others, "_otros_raw", o)
    else others
  }

  /** The list of names as a JavaScript array of strings. */
  function Texts(names: seq<string>): (r: JsValue)
    ensures r.Arr? && |r.items| == |names|
  {
    Arr(seq(|names|, i requires 0 <= i < |names| => Str(names[i])))
  }

  // ---------------------------------------------------------------------
  // The whole record
  // ---------------------------------------------------------------------

  datatype Fields = Fields(
    id: Field<string>,
    nombre: Field<string>,
    genero: Field<Genero>,
    departamento: Field<string>,
    fecha: Field<string>,
    antiguedad: Field<Decimal>,
    salario: Field<Decimal>,
    satisfaccion: Field<Decimal>,
    ingresos: Field<Decimal>,
    horas: Field<Decimal>,
    puesto: Field<string>,
    rol: Field<string>,
    edad: Field<Decimal>)

  function ResolveFields(raw: JsValue, suffix: string): Fields
  {
    var salario := SalarioField(raw);
    Fields(
      EmployeeIdField(raw, suffix),
      ChainedTextField(raw, NombreKeys, DefaultText),
      GeneroField(raw),
      TextField(raw, DepartamentoKeys),
      ChainedTextField(raw, FechaKeys, DefaultDate),
      NumField(raw, AntiguedadKeys),
      salario,
      ChainedNumberField(raw, SatisfaccionKeys),
      IngresosField(raw, salario.value),
      HorasField(raw),
      TextField(raw, PuestoKeys),
      TextField(raw, RolKeys),
      ChainedNumberField(raw, EdadKeys))
  }

  /** The defaulted flags, in `FieldOrder`. */
  function DefaultedFlags(f: Fields): (flags: seq<bool>)
    ensures |flags| == |FieldOrder|
  {
    [f.id.defaulted, f.nombre.defaulted, f.genero.defaulted, f.departamento.defaulted,
     f.fecha.defaulted, f.antiguedad.defaulted, f.salario.defaulted, f.satisfaccion.defaulted,
     f.ingresos.defaulted, f.horas.defaulted, f.puesto.defaulted, f.rol.defaulted, f.edad.defaulted]
  }

  /** The `autofilled` array: one push per defaulted field, in processing order. */
  function Autofields(f: Fields): seq<string>
  {
    Keep(f.id.defaulted, "employee_id") + Keep(f.nombre.defaulted, "nombre")
    + Keep(f.genero.defaulted, "genero") + Keep(f.departamento.defaulted, "departamento")
    + Keep(f.fecha.defaulted, "fecha_ingreso") + Keep(f.antiguedad.defaulted, "antiguedad_meses")
    + Keep(f.salario.defaulted, "salario") + Keep(f.satisfaccion.defaulted, "satisfaccion")
    + Keep(f.ingresos.defaulted, "ingresos_mensuales") + Keep(f.horas.defaulted, "horas_extras")
    + Keep(f.puesto.defaulted, "puesto") + Keep(f.rol.defaulted, "rol_del_puesto")
    + Keep(f.edad.defaulted, "edad")
  }

  function Others(raw: JsValue, f: Fields, parse: string -> Option<JsValue>, autofields: seq<string>): seq<Prop>
  {
    var o0 := InitialOthers(raw);
    var o1 := if f.id.defaulted then Assign(o0, "_generated_employee_id", Bool(true)) else o0;
    var o2 := if f.nombre.defaulted then Assign(o1, "_generated_nombre", Bool(true)) else o1;
    Assign(MergeOtros(o2, raw, parse), "_fields_autofilled", Texts(autofields))
  }

  /** The specification of `normalizeEmployee(raw)`. `suffix` stands for the
      random characters of a generated id, `now` for the current timestamp. */
  function Normalize(raw: JsValue, suffix: string, now: string, parse: string -> Option<JsValue>): Normalized
  {
    var f := ResolveFields(raw, suffix);
    var a := Autofields(f);
    var creado := CreadoAt(raw, now);
    Normalized(
      Employee(
        f.id.value, f.nombre.value, f.genero.value, f.departamento.value, f.fecha.value,
        f.antiguedad.value, f.salario.value, f.satisfaccion.value, f.ingresos.value,
        f.horas.value, f.puesto.value, f.rol.value, Others(raw, f, parse, a),
        creado, ActualizadoAt(raw, creado), f.edad.value),
      |a|, a)
  }

  // ---------------------------------------------------------------------
  // The imperative normaliser
  // ---------------------------------------------------------------------

  /** The employee_id block: the `||` chain, then the key scan. */
  method TakeEmployeeId(raw: JsValue, suffix: string) returns (f: Field<string>)
    ensures f == EmployeeIdField(raw, suffix)
  {
    var empId := SanitizeIncomingValue(Chain(raw, IdKeys));
    if !Truthy(empId) && Truthy(raw) {
      var k := ScanIdKey(raw);
      if k.Some? {
        empId := SanitizeIncomingValue(Get(raw, k.value));
      }
    }
    if !Truthy(empId) {
      f := Field(GeneratedIdPrefix + suffix, true);
    } else {
      f := Field(ToJsString(empId), false);
    }
  }

  /** The genero loop and its classification. */
  method TakeGenero(raw: JsValue) returns (f: Field<Genero>)
    ensures f == GeneroField(raw)
  {
    var hit := LookupCandidates(raw, GeneroKeys, true);
    var gen := match hit
      case Exact(v) => Str(JsTrim(ToJsString(v)))
      case ByNormalizedKey(_, v) => v
      case Miss => Null;
    if !Truthy(gen) || JsTrim(ToJsString(gen)) == "" {
      f := Field(NoDeclarado, true);
    } else {
      f := Field(ClassifyGenero(Lower(ToJsString(gen))), false);
    }
  }

  /** `setTextField(key, candidates)` */
  method SetTextField(raw: JsValue, cands: seq<string>) returns (f: Field<string>)
    ensures f == TextField(raw, cands)
  {
    var hit := LookupCandidates(raw, cands, false);
    var v := SanitizeIncomingValue(HitValue(hit));
    if v.Null? {
      f := Field(DefaultText, true);
    } else {
      f := Field(ToJsString(v), false);
    }
  }

  /** `setNumField(key, candidates)` */
  method SetNumField(raw: JsValue, cands: seq<string>) returns (f: Field<Decimal>)
    ensures f == NumField(raw, cands)
  {
    var hit := LookupCandidates(raw, cands, false);
    var v := SanitizeIncomingValue(HitValue(hit));
    if v.Null? {
      f := Field(Zero, true);
    } else {
      var n := ToJsNumber(v);
      f := if n.Finite? then Field(n.d, false) else Field(Zero, true);
    }
  }

  /** The horas_extras loop. */
  method TakeHoras(raw: JsValue) returns (f: Field<Decimal>)
    ensures f == HorasField(raw)
  {
    var hit := LookupCandidates(raw, HorasKeys, true);
    var h := HitValue(hit);
    if Blank(h) {
      f := Field(Zero, true);
    } else {
      var n := StringToNumber(ReplaceFirst(ToJsString(h), ',', '.'));
      f := if n.Finite? then Field(n.d, false) else Field(Zero, true);
    }
  }

  /** The thirteen field blocks in source order, each pushing its name onto
      `autofilled` when it had to default. */
  method ResolveAll(raw: JsValue, suffix: string) returns (f: Fields, autofilled: seq<string>)
    ensures f == ResolveFields(raw, suffix)
    ensures autofilled == Autofields(f)
  {
    var id := TakeEmployeeId(raw, suffix);
    autofilled := Keep(id.defaulted, "employee_id");
    var nombre := ChainedTextField(raw, NombreKeys, DefaultText);
    autofilled := autofilled + Keep(nombre.defaulted, "nombre");
    var genero := TakeGenero(raw);
    autofilled := autofilled + Keep(genero.defaulted, "genero");
    var departamento := SetTextField(raw, DepartamentoKeys);
    autofilled := autofilled + Keep(departamento.defaulted, "departamento");
    var fecha := ChainedTextField(raw, FechaKeys, DefaultDate);
    autofilled := autofilled + Keep(fecha.defaulted, "fecha_ingreso");
    var antiguedad := SetNumField(raw, AntiguedadKeys);
    autofilled := autofilled + Keep(antiguedad.defaulted, "antiguedad_meses");
    var salario := SalarioField(raw);
    autofilled := autofilled + Keep(salario.defaulted, "salario");
    var satisfaccion := ChainedNumberField(raw, SatisfaccionKeys);
    autofilled := autofilled + Keep(satisfaccion.defaulted, "satisfaccion");
    var ingresos := IngresosField(raw, salario.value);
    autofilled := autofilled + Keep(ingresos.defaulted, "ingresos_mensuales");
    var horas := TakeHoras(raw);
    autofilled := autofilled + Keep(horas.defaulted, "horas_extras");
    var puesto := SetTextField(raw, PuestoKeys);
    autofilled := autofilled + Keep(puesto.defaulted, "puesto");
    var rol := SetTextField(raw, RolKeys);
    autofilled := autofilled + Keep(rol.defaulted, "rol_del_puesto");
    var edad := ChainedNumberField(raw, EdadKeys);
    autofilled := autofilled + Keep(edad.defaulted, "edad");
    f := Fields(id, nombre, genero, departamento, fecha, antiguedad, salario, satisfaccion,
      ingresos, horas, puesto, rol, edad);
  }

  /** `normalizeEmployee(raw)`. The `_generated_*` marks are written into
      `others` after the fields are resolved rather than inside their blocks;
      no field reads `others`, so the object is the same. */
  method NormalizeEmployee(raw: JsValue, suffix: string, now: string, parse: string -> Option<JsValue>)
    returns (result: Normalized)
    ensures result == Normalize(raw, suffix, now, parse)
  {
    var f, autofilled := ResolveAll(raw, suffix);

    var others := InitialOthers(raw);
    if f.id.defaulted {
      others := Assign(others, "_generated_employee_id", Bool(true));
    }
    if f.nombre.defaulted {
      others := Assign(others, "_generated_nombre", Bool(true));
    }

    var creado := if Truthy(raw) && Truthy(Get(raw, "creado_at")) then ToJsString(Get(raw, "creado_at")) else now;
    var actualizado :=
      if Truthy(raw) && Truthy(Get(raw, "actualizado_at")) then ToJsString(Get(raw, "actualizado_at")) else creado;

    others := MergeOtros(others, raw, parse);
    others := Assign(others, "_fields_autofilled", Texts(autofilled));

    result := Normalized(
      Employee(f.id.value, f.nombre.value, f.genero.value, f.departamento.value, f.fecha.value,
        f.antiguedad.value, f.salario.value, f.satisfaccion.value, f.ingresos.value, f.horas.value,
        f.puesto.value, f.rol.value, others, creado, actualizado, f.edad.value),
      |autofilled|, autofilled);
  }
}
