// The bookkeeping of `POST /api/empleados_raw/bulk` (server.js): the input
// is cut into fixed-size chunks in order, every record is normalised and
// flattened into a 16-value row, each chunk is written with one INSERT
// statement, and a summary counts what was inserted and what had to be
// defaulted. The database is an oracle: each chunk's INSERT, and the
// connection and commit around them, may fail, and any failure rolls the
// whole request back.

module BulkIngest {
  import opened Text
  import opened Maybe
  import opened Numbers
  import opened JsValues
  import opened Seqs
  import opened Normalizer

  /** The columns of the INSERT, in order. */
  const Columns: seq<string> := [
    "employee_id", "nombre", "genero", "departamento", "fecha_ingreso", "antiguedad_meses",
    "salario", "satisfaccion", "ingresos_mensuales", "horas_extras", "puesto", "rol_del_puesto",
    "otros", "creado_at", "actualizado_at", "edad"]

  /** The default of `EMP_INSERT_CHUNK`. */
  const DefaultChunk: nat := 400

  /** One value bound to a `?` of the statement. */
  datatype Cell = TextCell(s: string) | NumCell(d: Decimal)

  /** `emp[c]` for a column name `c`; `otros` is sent as its JSON text. */
  function ColumnValue(e: Employee, c: string, encode: seq<Prop> -> string): Cell
  {
    match c
    case "employee_id" => TextCell(e.employeeId)
    case "nombre" => TextCell(e.nombre)
    case "genero" => TextCell(GeneroText(e.genero))
    case "departamento" => TextCell(e.departamento)
    case "fecha_ingreso" => TextCell(e.fechaIngreso)
    case "antiguedad_meses" => NumCell(e.antiguedadMeses)
    case "salario" => NumCell(e.salario)
    case "satisfaccion" => NumCell(e.satisfaccion)
    case "ingresos_mensuales" => NumCell(e.ingresosMensuales)
    case "horas_extras" => NumCell(e.horasExtras)
    case "puesto" => TextCell(e.puesto)
    case "rol_del_puesto" => TextCell(e.rolDelPuesto)
    case "otros" => TextCell(encode(e.otros))
    case "creado_at" => TextCell(e.creadoAt)
    case "actualizado_at" => TextCell(e.actualizadoAt)
    case _ => NumCell(e.edad)
  }

  /** `cols.map(c => emp[c])`: one value per column, in column order. */
  function RowValues(e: Employee, encode: seq<Prop> -> string): (r: seq<Cell>)
    ensures |r| == |Columns|
  {
    seq(|Columns|, k requires 0 <= k < |Columns| => ColumnValue(e, Columns[k], encode))
  }

  /** The row loses no field of the record: two records whose rows agree
      are the same record, as long as their `otros` texts tell them apart. */
  lemma RowKeepsEveryField(e1: Employee, e2: Employee, encode: seq<Prop> -> string)
    requires encode(e1.otros) == encode(e2.otros) ==> e1.otros == e2.otros
    ensures RowValues(e1, encode) == RowValues(e2, encode) ==> e1 == e2
  {
    if RowValues(e1, encode) == RowValues(e2, encode) {
      RowFirstFields(e1, e2, encode);
      RowSecondFields(e1, e2, encode);
      RowThirdFields(e1, e2, encode);
      RowLastFields(e1, e2, encode);
    }
  }

  // Equal rows agree field by field; each lemma reads four columns.

  lemma RowFirstFields(e1: Employee, e2: Employee, encode: seq<Prop> -> string)
    requires RowValues(e1, encode) == RowValues(e2, encode)
    ensures e1.employeeId == e2.employeeId && e1.nombre == e2.nombre
    ensures e1.genero == e2.genero && e1.departamento == e2.departamento
  {
    RowSlots(e1, e2, encode, 0);
    assert ColumnValue(e1, Columns[0], encode) == ColumnValue(e2, Columns[0], encode);
    assert ColumnValue(e1, Columns[1], encode) == ColumnValue(e2, Columns[1], encode);
    assert ColumnValue(e1, Columns[2], encode) == ColumnValue(e2, Columns[2], encode);
    assert ColumnValue(e1, Columns[3], encode) == ColumnValue(e2, Columns[3], encode);
    assert GeneroText(e1.genero) == GeneroText(e2.genero);
  }

  lemma RowSecondFields(e1: Employee, e2: Employee, encode: seq<Prop> -> string)
    requires RowValues(e1, encode) == RowValues(e2, encode)
    ensures e1.fechaIngreso == e2.fechaIngreso && e1.antiguedadMeses == e2.antiguedadMeses
    ensures e1.salario == e2.salario && e1.satisfaccion == e2.satisfaccion
  {
    RowSlots(e1, e2, encode, 4);
    assert ColumnValue(e1, Columns[4], encode) == ColumnValue(e2, Columns[4], encode);
    assert ColumnValue(e1, Columns[5], encode) == ColumnValue(e2, Columns[5], encode);
    assert ColumnValue(e1, Columns[6], encode) == ColumnValue(e2, Columns[6], encode);
    assert ColumnValue(e1, Columns[7], encode) == ColumnValue(e2, Columns[7], encode);
  }

  lemma RowThirdFields(e1: Employee, e2: Employee, encode: seq<Prop> -> string)
    requires RowValues(e1, encode) == RowValues(e2, encode)
    ensures e1.ingresosMensuales == e2.ingresosMensuales && e1.horasExtras == e2.horasExtras
    ensures e1.puesto == e2.puesto && e1.rolDelPuesto == e2.rolDelPuesto
  {
    RowSlots(e1, e2, encode, 8);
    assert ColumnValue(e1, Columns[8], encode) == ColumnValue(e2, Columns[8], encode);
    assert ColumnValue(e1, Columns[9], encode) == ColumnValue(e2, Columns[9], encode);
    assert ColumnValue(e1, Columns[10], encode) == ColumnValue(e2, Columns[10], encode);
    assert ColumnValue(e1, Columns[11], encode) == ColumnValue(e2, Columns[11], encode);
  }

  lemma RowLastFields(e1: Employee, e2: Employee, encode: seq<Prop> -> string)
    requires RowValues(e1, encode) == RowValues(e2, encode)
    ensures encode(e1.otros) == encode(e2.otros) && e1.creadoAt == e2.creadoAt
    ensures e1.actualizadoAt == e2.actualizadoAt && e1.edad == e2.edad
  {
    RowSlots(e1, e2, encode, 12);
    assert ColumnValue(e1, Columns[12], encode) == ColumnValue(e2, Columns[12], encode);
    assert ColumnValue(e1, Columns[13], encode) == ColumnValue(e2, Columns[13], encode);
    assert ColumnValue(e1, Columns[14], encode) == ColumnValue(e2, Columns[14], encode);
    assert ColumnValue(e1, Columns[15], encode) == ColumnValue(e2, Columns[15], encode);
  }

  /** Equal rows agree on the four columns from position `k` on. */
  lemma RowSlots(e1: Employee, e2: Employee, encode: seq<Prop> -> string, k: nat)
    requires RowValues(e1, encode) == RowValues(e2, encode) && k + 4 <= |Columns|
    ensures forall j | k <= j < k + 4 :: ColumnValue(e1, Columns[j], encode) == ColumnValue(e2, Columns[j], encode)
  {
    var r1, r2 := RowValues(e1, encode), RowValues(e2, encode);
    assert r1[k] == r2[k] && r1[k + 1] == r2[k + 1] && r1[k + 2] == r2[k + 2] && r1[k + 3] == r2[k + 3];
  }

  // ---------------------------------------------------------------------
  // flattenValues and the placeholders
  // ---------------------------------------------------------------------

  /** `flattenValues(values)`: the rows one after the other. */
  function Flatten<T>(rows: seq<seq<T>>): seq<T>
  {
    if rows == [] then [] else Flatten(rows[..|rows| - 1]) + rows[|rows| - 1]
  }

  /** Flattening rows of width `w` gives `w` values per row, the value at
      column `k` of row `i` at position `i * w + k`. */
  lemma FlattenUniform<T>(rows: seq<seq<T>>, w: nat)
    requires forall i | 0 <= i < |rows| :: |rows[i]| == w
    ensures |Flatten(rows)| == |rows| * w
    ensures forall i, k | 0 <= i < |rows| && 0 <= k < w ::
      i * w + k < |Flatten(rows)| && Flatten(rows)[i * w + k] == rows[i][k]
  {
    FlattenLength(rows, w);
    forall i, k | 0 <= i < |rows| && 0 <= k < w {
      FlattenAt(rows, w, i, k);
    }
  }

  lemma {:induction false} FlattenLength<T>(rows: seq<seq<T>>, w: nat)
    requires forall i | 0 <= i < |rows| :: |rows[i]| == w
    ensures |Flatten(rows)| == |rows| * w
  {
    if rows != [] {
      FlattenLength(rows[..|rows| - 1], w);
      assert (|rows| - 1) * w + w == |rows| * w;
    }
  }

  lemma {:induction false} FlattenAt<T>(rows: seq<seq<T>>, w: nat, i: nat, k: nat)
    requires forall i | 0 <= i < |rows| :: |rows[i]| == w
    requires i < |rows| && k < w
    ensures i * w + k < |Flatten(rows)| && Flatten(rows)[i * w + k] == rows[i][k]
  {
    var init := rows[..|rows| - 1];
    var n := |rows| - 1;
    FlattenLength(init, w);
    FlattenLength(rows, w);
    if i < n {
      FlattenAt(init, w, i, k);
    } else {
      assert i * w == |Flatten(init)|;
    }
  }

  lemma MulMono(a: nat, b: nat, w: nat)
    requires a <= b
    ensures a * w <= b * w
  {
  }

  /** Flattening distributes over concatenation. */
  lemma {:induction false} FlattenAppend<T>(a: seq<seq<T>>, b: seq<seq<T>>)
    ensures Flatten(a + b) == Flatten(a) + Flatten(b)
    decreases |b|
  {
    if b == [] {
      assert a + b == a;
    } else {
      var last := b[|b| - 1];
      assert (a + b)[..|a + b| - 1] == a + b[..|b| - 1];
      FlattenAppend(a, b[..|b| - 1]);
    }
  }

  /** `colsPlaceholder(cols)` for `n` columns: `n` question marks joined by commas. */
  function Placeholders(n: nat): (r: string)
    ensures n == 0 ==> r == ""
    ensures n > 0 ==> |r| == 2 * n - 1
    ensures forall i | 0 <= i < |r| :: r[i] == if i % 2 == 0 then '?' else ','
  {
    if n == 0 then ""
    else if n == 1 then "?"
    else
      var r := Placeholders(n - 1) + ",?";
      assert forall i | 0 <= i < |r| - 2 :: r[i] == Placeholders(n - 1)[i];
      r
  }

  /** The placeholder text holds exactly `n` question marks. */
  lemma {:induction false} PlaceholdersCount(n: nat)
    ensures CountChar(Placeholders(n), '?') == n
  {
    if n > 1 {
      PlaceholdersCount(n - 1);
      CountCharAppend(Placeholders(n - 1), ",?", '?');
      assert CountChar(",?", '?') == 1 by {
        assert ",?"[1..] == "?" && "?"[1..] == "";
      }
    } else if n == 1 {
      assert "?"[1..] == "";
    }
  }

  /** `valuesList.map(_ => "(" + colsPlaceholder(cols) + ")").join(",")`. */
  function ValuesClause(rows: nat, cols: nat): string
  {
    if rows == 0 then ""
    else if rows == 1 then "(" + Placeholders(cols) + ")"
    else ValuesClause(rows - 1, cols) + ",(" + Placeholders(cols) + ")"
  }

  /** The statement binds exactly as many values as it has placeholders. */
  lemma {:induction false} ValuesClauseCount(rows: nat, cols: nat)
    ensures CountChar(ValuesClause(rows, cols), '?') == rows * cols
  {
    var p := Placeholders(cols);
    PlaceholdersCount(cols);
    assert CountChar("(", '?') == 0 && CountChar(")", '?') == 0 && CountChar(",(", '?') == 0 by {
      assert "("[1..] == "" && ")"[1..] == "" && ",("[1..] == "(";
    }
    if rows == 1 {
      CountCharAppend("(" + p, ")", '?');
      CountCharAppend("(", p, '?');
    } else if rows > 1 {
      ValuesClauseCount(rows - 1, cols);
      var v := ValuesClause(rows - 1, cols);
      assert ValuesClause(rows, cols) == v + ",(" + p + ")";
      CountCharAppend(v + ",(" + p, ")", '?');
      CountCharAppend(v + ",(", p, '?');
      CountCharAppend(v, ",(", '?');
      assert CountChar(ValuesClause(rows, cols), '?') == (rows - 1) * cols + cols;
      assert (rows - 1) * cols + cols == rows * cols;
    }
  }

  /** The INSERT of a chunk has exactly one placeholder per value it binds. */
  lemma InsertBindsEveryValue(rows: seq<seq<Cell>>)
    requires forall i | 0 <= i < |rows| :: |rows[i]| == |Columns|
    ensures CountChar(ValuesClause(|rows|, |Columns|), '?') == |Flatten(rows)|
  {
    ValuesClauseCount(|rows|, |Columns|);
    FlattenLength(rows, |Columns|);
  }

  // ---------------------------------------------------------------------
  // Chunks
  // ---------------------------------------------------------------------

  /** `for (i = 0; i < xs.length; i += n) xs.slice(i, i + n)`. */
  function Chunks<T>(xs: seq<T>, n: nat): seq<seq<T>>
    requires n > 0
    decreases |xs|
  {
    if xs == [] then []
    else if |xs| <= n then [xs]
    else [xs[..n]] + Chunks(xs[n..], n)
  }

  /** The chunks partition the input in order: concatenated they give it
      back, none is empty, and all but the last hold exactly `n` records. */
  lemma {:induction false} ChunksPartition<T>(xs: seq<T>, n: nat)
    requires n > 0
    ensures var cs := Chunks(xs, n);
      && Flatten(cs) == xs
      && (forall c | 0 <= c < |cs| :: 0 < |cs[c]| <= n)
      && (forall c | 0 <= c < |cs| - 1 :: |cs[c]| == n)
    decreases |xs|
  {
    if |xs| > n {
      ChunksPartition(xs[n..], n);
      var cs := Chunks(xs, n);
      assert cs[1..] == Chunks(xs[n..], n);
      assert forall c | 1 <= c < |cs| :: cs[c] == Chunks(xs[n..], n)[c - 1];
      FlattenAppend([xs[..n]], cs[1..]);
      assert cs == [xs[..n]] + cs[1..];
      assert Flatten([xs[..n]]) == xs[..n] by {
        assert [xs[..n]][..0] == [];
      }
      assert xs[..n] + xs[n..] == xs;
    } else if xs != [] {
      assert Flatten([xs]) == Flatten([]) + xs by {
        assert [xs][..0] == [];
      }
    }
  }

  /** Chunk `c` exists exactly when `c * n` is a position of the input,
      and is then the slice that starts there. */
  lemma {:induction false} ChunkAt<T>(xs: seq<T>, n: nat, c: nat)
    requires n > 0
    ensures c < |Chunks(xs, n)| <==> c * n < |xs|
    ensures c * n < |xs| ==>
      Chunks(xs, n)[c] == xs[c * n..if c * n + n <= |xs| then c * n + n else |xs|]
    decreases c
  {
    if c == 0 {
    } else if |xs| <= n {
      MulMono(1, c, n);
    } else {
      var ys := xs[n..];
      var m := c - 1;
      assert c * n == m * n + n;
      ChunkAt(ys, n, m);
      assert Chunks(xs, n) == [xs[..n]] + Chunks(ys, n);
      if c * n < |xs| {
        var e := if m * n + n <= |ys| then m * n + n else |ys|;
        assert Chunks(xs, n)[c] == Chunks(ys, n)[m] == ys[m * n..e];
        assert ys[m * n..e] == xs[c * n..e + n];
      }
    }
  }

  /** Stepping from chunk `c`, which exists, to chunk `c + 1`. */
  lemma NextChunk<T>(xs: seq<T>, n: nat, c: nat)
    requires n > 0 && c * n < |xs|
    ensures c < |Chunks(xs, n)|
    ensures (c + 1) * n == c * n + n
    ensures c + 1 < |Chunks(xs, n)| <==> c * n + n < |xs|
  {
    ChunkAt(xs, n, c);
    ChunkAt(xs, n, c + 1);
  }

  // ---------------------------------------------------------------------
  // The summary
  // ---------------------------------------------------------------------

  /** The outside world one request meets: the random characters and clock
      reading of each record's normalisation (by position in the request),
      `JSON.parse` and `JSON.stringify` for `otros`, and the outcome of
      each database call. */
  datatype World = World(
    suffix: nat -> string,
    now: nat -> string,
    parse: string -> Option<JsValue>,
    encode: seq<Prop> -> string,
    connected: bool,           // getConnection succeeds
    begun: bool,               // beginTransaction succeeds
    insertOk: nat -> bool,     // the INSERT of chunk c succeeds
    committed: bool)           // commit succeeds

  datatype Detail = Detail(employeeId: string, autofields: seq<string>)

  datatype Summary = Summary(total: nat, inserted: nat, autofilledTotal: nat, details: seq<Detail>)

  /** The JSON answer: `{ ok: true, summary }`, or `{ ok: false, error }`;
      `rolledBack` says whether the transaction was rolled back first, which
      the handler does exactly when it obtained a connection. */
  datatype Reply = Ok(summary: Summary) | Failed(rolledBack: bool)

  /** `Array.isArray(body.empleados) ? body.empleados : (Array.isArray(body) ? body : [])` */
  function Empleados(body: JsValue): (xs: seq<JsValue>)
    ensures Get(body, "empleados").Arr? ==> xs == Get(body, "empleados").items
    ensures !Get(body, "empleados").Arr? && body.Arr? ==> xs == body.items
    ensures !Get(body, "empleados").Arr? && !body.Arr? ==> xs == []
  {
    var e := Get(body, "empleados");
    if e.Arr? then e.items else if body.Arr? then body.items else []
  }

  /** `ns` are the records `xs` normalised one by one, record `k` with the
      world's inputs for position `k`. The trigger leaves a record's
      normalisation folded until a call of it is in view. */
  predicate NormalizedRecords(xs: seq<JsValue>, w: World, ns: seq<Normalized>)
  {
    |ns| == |xs| &&
    forall k {:trigger Normalize(xs[k], w.suffix(k), w.now(k), w.parse)} | 0 <= k < |xs| ::
      ns[k] == Normalize(xs[k], w.suffix(k), w.now(k), w.parse)
  }

  /** Each record normalised on its own, with the world's inputs for its position. */
  function NormalizeAll(xs: seq<JsValue>, w: World): (ns: seq<Normalized>)
    ensures NormalizedRecords(xs, w, ns)
  {
    seq(|xs|, k requires 0 <= k < |xs| => Normalize(xs[k], w.suffix(k), w.now(k), w.parse))
  }

  /** There is only one way to normalise the records of a request. */
  lemma RecordsDetermined(xs: seq<JsValue>, w: World, ns: seq<Normalized>)
    requires NormalizedRecords(xs, w, ns)
    ensures ns == NormalizeAll(xs, w)
  {
    var all := NormalizeAll(xs, w);
    forall k | 0 <= k < |xs|
      ensures ns[k] == all[k]
    {
      assert all[k] == Normalize(xs[k], w.suffix(k), w.now(k), w.parse);
    }
  }

  /** `summary.autofilled_total` after the first `p` records. */
  function SumCounts(ns: seq<Normalized>, p: nat): nat
    requires p <= |ns|
  {
    if p == 0 then 0 else SumCounts(ns, p - 1) + ns[p - 1].autofilledCount
  }

  function DetailOf(n: Normalized): Detail { Detail(n.emp.employeeId, n.autofields) }

  /** `summary.details` after the first `p` records: one push per record
      that had defaults. */
  function Details(ns: seq<Normalized>, p: nat): seq<Detail>
    requires p <= |ns|
  {
    if p == 0 then []
    else Details(ns, p - 1) + Keep(ns[p - 1].autofilledCount > 0, DetailOf(ns[p - 1]))
  }

  /** One flag per record: did it take any default? */
  function HadDefaults(ns: seq<Normalized>): (flags: seq<bool>)
    ensures |flags| == |ns|
    ensures forall i | 0 <= i < |ns| :: flags[i] == (ns[i].autofilledCount > 0)
  {
    seq(|ns|, i requires 0 <= i < |ns| => ns[i].autofilledCount > 0)
  }

  /** The detail every record would report. */
  function AllDetails(ns: seq<Normalized>): (ds: seq<Detail>)
    ensures |ds| == |ns|
    ensures forall i | 0 <= i < |ns| :: ds[i] == DetailOf(ns[i])
  {
    seq(|ns|, i requires 0 <= i < |ns| => DetailOf(ns[i]))
  }

  /** The pushes of the loop pick, in order, the details of the records
      that took defaults. */
  lemma {:induction false} DetailsArePicked(ns: seq<Normalized>, p: nat)
    requires p <= |ns|
    ensures Details(ns, p) == Pick(AllDetails(ns)[..p], HadDefaults(ns)[..p])
  {
    if p > 0 {
      DetailsArePicked(ns, p - 1);
      var xs := AllDetails(ns);
      var fl := HadDefaults(ns);
      assert xs[..p] == xs[..p - 1] + [xs[p - 1]];
      assert fl[..p] == fl[..p - 1] + [fl[p - 1]];
      PickSnoc(xs[..p - 1], fl[..p - 1], xs[p - 1], fl[p - 1]);
    }
  }

  /** `summary.details` lists, in input order, exactly the records that
      took at least one default: entry `k` is the record at position
      `idx[k]`, the positions increase, each of them took a default, and
      every record that took one is listed. */
  lemma DetailsListDefaulted(ns: seq<Normalized>)
    ensures var idx := TrueIndices(HadDefaults(ns));
      && |Details(ns, |ns|)| == |idx|
      && StrictlyIncreasing(idx)
      && (forall k | 0 <= k < |idx| ::
            idx[k] < |ns| && ns[idx[k]].autofilledCount > 0
            && Details(ns, |ns|)[k] == DetailOf(ns[idx[k]]))
      && (forall i | 0 <= i < |ns| && ns[i].autofilledCount > 0 :: i in idx)
  {
    var xs := AllDetails(ns);
    var fl := HadDefaults(ns);
    DetailsArePicked(ns, |ns|);
    assert xs[..|ns|] == xs && fl[..|ns|] == fl;
    PickSelectsFlagged(xs, fl);
    TrueIndicesSound(fl);
    forall i | 0 <= i < |ns| && ns[i].autofilledCount > 0
      ensures i in TrueIndices(fl)
    {
      TrueIndicesComplete(fl, i);
    }
  }

  /** `valuesList` for the records `ns[i..p]`, one row each. */
  function Rows(ns: seq<Normalized>, i: nat, p: nat, encode: seq<Prop> -> string): (rows: seq<seq<Cell>>)
    requires i <= p <= |ns|
    ensures |rows| == p - i
    decreases p - i
  {
    if p == i then [] else Rows(ns, i, p - 1, encode) + [RowValues(ns[p - 1].emp, encode)]
  }

  /** The INSERTs of chunks `0 .. c - 1` all succeed. */
  function InsertsSucceed(w: World, c: nat): bool
  {
    c == 0 || (InsertsSucceed(w, c - 1) && w.insertOk(c - 1))
  }

  /** A failed INSERT stays failed however many chunks follow it. */
  lemma {:induction false} InsertFailureStays(w: World, c: nat, m: nat)
    requires c < m && !w.insertOk(c)
    ensures !InsertsSucceed(w, m)
    decreases m
  {
    if c < m - 1 {
      InsertFailureStays(w, c, m - 1);
    }
  }

  /** What the request answers, given its records normalised. */
  function Outcome(xs: seq<JsValue>, n: nat, w: World, ns: seq<Normalized>): Reply
    requires n > 0 && |ns| == |xs|
  {
    if !w.connected then Failed(false)
    else if !w.begun then Failed(true)
    else if !InsertsSucceed(w, |Chunks(xs, n)|) then Failed(true)
    else if !w.committed then Failed(true)
    else Ok(Summary(|xs|, |xs|, SumCounts(ns, |ns|), Details(ns, |ns|)))
  }

  /** What the request answers. */
  function BulkReply(body: JsValue, n: nat, w: World): Reply
    requires n > 0
  {
    var xs := Empleados(body);
    Outcome(xs, n, w, NormalizeAll(xs, w))
  }

  // ---------------------------------------------------------------------
  // The handler
  // ---------------------------------------------------------------------

  /** `normalizeEmployee` applied to the record at position `k` of the request. */
  method NormalizeRecord(xs: seq<JsValue>, k: nat, w: World, ghost ns: seq<Normalized>) returns (r: Normalized)
    requires k < |xs|
    requires NormalizedRecords(xs, w, ns)
    ensures r == ns[k]
  {
    r := NormalizeEmployee(xs[k], w.suffix(k), w.now(k), w.parse);
  }

  /** The inner `for (const raw of chunk)` loop over the records
      `xs[i..end]`: each is normalised, counted into the summary and
      turned into a row. */
  method ProcessChunk(xs: seq<JsValue>, i: nat, end: nat, w: World, ghost ns: seq<Normalized>,
                      autofilledIn: nat, detailsIn: seq<Detail>)
    returns (valuesList: seq<seq<Cell>>, autofilledTotal: nat, details: seq<Detail>)
    requires i <= end <= |xs|
    requires NormalizedRecords(xs, w, ns)
    requires autofilledIn == SumCounts(ns, i) && detailsIn == Details(ns, i)
    ensures valuesList == Rows(ns, i, end, w.encode)
    ensures autofilledTotal == SumCounts(ns, end) && details == Details(ns, end)
  {
    var chunk := xs[i..end];
    valuesList, autofilledTotal, details := [], autofilledIn, detailsIn;
    var j := 0;
    while j < |chunk|
      invariant 0 <= j <= |chunk|
      invariant valuesList == Rows(ns, i, i + j, w.encode)
      invariant autofilledTotal == SumCounts(ns, i + j) && details == Details(ns, i + j)
    {
      var r := NormalizeRecord(xs, i + j, w, ns);
      autofilledTotal := autofilledTotal + r.autofilledCount;
      if r.autofilledCount > 0 {
        details := details + [Detail(r.emp.employeeId, r.autofields)];
      }
      valuesList := valuesList + [RowValues(r.emp, w.encode)];
      j := j + 1;
    }
  }

  /** One round of the outer loop, on the chunk `xs[i..end]` with number
      `c`: its rows are built and, when there are any, written with one
      INSERT, which fails when the database refuses chunk `c`. The text of
      that INSERT and its flattened values are not built here: the oracle
      `insertOk` stands for the query, and `InsertBindsEveryValue` states
      that its placeholders and values agree in number. */
  method InsertChunk(xs: seq<JsValue>, i: nat, end: nat, c: nat, w: World, ghost ns: seq<Normalized>,
                     autofilledIn: nat, detailsIn: seq<Detail>)
    returns (failed: bool, count: nat, autofilledTotal: nat, details: seq<Detail>)
    requires i <= end <= |xs|
    requires NormalizedRecords(xs, w, ns)
    requires autofilledIn == SumCounts(ns, i) && detailsIn == Details(ns, i)
    ensures failed <==> i < end && !w.insertOk(c)
    ensures count == end - i
    ensures autofilledTotal == SumCounts(ns, end) && details == Details(ns, end)
  {
    var valuesList;
    valuesList, autofilledTotal, details := ProcessChunk(xs, i, end, w, ns, autofilledIn, detailsIn);
    count := |valuesList|;
    if |valuesList| == 0 {
      return false, count, autofilledTotal, details;
    }
    failed := !w.insertOk(c);
  }

  /** The outer `for (let i = 0; i < empleados.length; i += CHUNK)` loop:
      it stops at the first INSERT that fails; otherwise every record is
      inserted and counted. */
  method InsertAll(xs: seq<JsValue>, n: nat, w: World, ghost ns: seq<Normalized>)
    returns (ok: bool, inserted: nat, autofilledTotal: nat, details: seq<Detail>)
    requires n > 0
    requires NormalizedRecords(xs, w, ns)
    ensures ok <==> InsertsSucceed(w, |Chunks(xs, n)|)
    ensures ok ==> inserted == |xs| && autofilledTotal == SumCounts(ns, |xs|) && details == Details(ns, |xs|)
  {
    ghost var cs := Chunks(xs, n);
    inserted, autofilledTotal, details := 0, 0, [];
    var i := 0;
    var c := 0;  // the number of the chunk, which indexes the database oracle
    while i < |xs|
      invariant i == c * n
      invariant c <= |cs|
      invariant c < |cs| <==> i < |xs|
      invariant inserted == (if i <= |xs| then i else |xs|)
      invariant autofilledTotal == SumCounts(ns, inserted) && details == Details(ns, inserted)
      invariant InsertsSucceed(w, c)
      decreases |xs| - i
    {
      NextChunk(xs, n, c);
      var end := if i + n <= |xs| then i + n else |xs|;
      var failed, count;
      failed, count, autofilledTotal, details := InsertChunk(xs, i, end, c, w, ns, autofilledTotal, details);
      if failed {
        InsertFailureStays(w, c, |cs|);
        return false, inserted, autofilledTotal, details;
      }
      inserted := inserted + count;
      i, c := i + n, c + 1;
    }
    ok := true;
  }

  /** The body of `POST /api/empleados_raw/bulk`, with `n` the chunk size
      and `ns` the records as `normalizeEmployee` turns them out. */
  method BulkInsert(body: JsValue, n: nat, w: World, ghost ns: seq<Normalized>) returns (reply: Reply)
    requires n > 0
    requires NormalizedRecords(Empleados(body), w, ns)
    ensures reply == Outcome(Empleados(body), n, w, ns)
  {
    var empleados := Empleados(body);
    var total := |empleados|;
    if !w.connected {
      return Failed(false);
    }
    if !w.begun {
      return Failed(true);
    }
    var ok, inserted, autofilledTotal, details := InsertAll(empleados, n, w, ns);
    if !ok || !w.committed {
      return Failed(true);
    }
    reply := Ok(Summary(total, inserted, autofilledTotal, details));
  }
}
