// The input-cleaning part of the prediction service: how column names are
// normalised, how the employee-id column is found, and how incoming values
// are made safe before a data frame is built from them.
//
// `unidecode.unidecode` and `bytes.decode("utf-8", errors="ignore")` are
// library calls whose tables are not modelled: both are parameters.

module Predictor {
  import opened Text
  import opened Maybe
  import opened Numbers
  import opened Seqs

  // ---------------------------------------------------------------------
  // normalizar_columna
  // ---------------------------------------------------------------------

  /** Column names that, once normalised, name the employee id. */
  const IdAliases: seq<string> :=
    ["id", "id_empleado", "employee_id", "empleado_id", "codigo", "dni", "doc"]

  /** `str.isspace()` for one character: the Unicode white space Python's
      `strip()` removes. */
  predicate IsPySpace(c: char) {
    var n := c as int;
    (9 <= n <= 13) || (0x1C <= n <= 0x20) || n == 0x85 || n == 0xA0 || n == 0x1680
    || (0x2000 <= n <= 0x200A) || n == 0x2028 || n == 0x2029 || n == 0x202F
    || n == 0x205F || n == 0x3000
  }

  function PyStripStart(s: string): (r: string)
    ensures |r| <= |s|
    ensures r == [] || !IsPySpace(r[0])
    ensures |s| > 0 && !IsPySpace(s[0]) ==> r == s
  {
    if |s| > 0 && IsPySpace(s[0]) then PyStripStart(s[1..]) else s
  }

  function PyStripEnd(s: string): (r: string)
    ensures |r| <= |s| && r == s[..|r|]
    ensures r == [] || !IsPySpace(r[|r| - 1])
    ensures |s| > 0 && !IsPySpace(s[|s| - 1]) ==> r == s
  {
    if |s| > 0 && IsPySpace(s[|s| - 1]) then PyStripEnd(s[..|s| - 1]) else s
  }

  /** `s.strip()` */
  function PyStrip(s: string): (r: string)
    ensures r == [] || (!IsPySpace(r[0]) && !IsPySpace(r[|r| - 1]))
  {
    var t := PyStripStart(s);
    var r := PyStripEnd(t);
    assert r != [] ==> r[0] == t[0];
    r
  }

  /** `PyStripStart` drops only white space. */
  lemma {:induction false} PyStripStartDropsSpace(s: string)
    ensures PyStripStart(s) == s[|s| - |PyStripStart(s)|..]
    ensures forall k | 0 <= k < |s| - |PyStripStart(s)| :: IsPySpace(s[k])
    decreases |s|
  {
    if |s| > 0 && IsPySpace(s[0]) {
      var t := s[1..];
      PyStripStartDropsSpace(t);
      assert t[|t| - |PyStripStart(t)|..] == s[|s| - |PyStripStart(s)|..];
      forall k | 0 <= k < |s| - |PyStripStart(s)| ensures IsPySpace(s[k]) {
        if k > 0 {
          assert s[k] == t[k - 1];
        }
      }
    }
  }

  /** `PyStripEnd` drops only white space. */
  lemma {:induction false} PyStripEndDropsSpace(s: string)
    ensures forall k | |PyStripEnd(s)| <= k < |s| :: IsPySpace(s[k])
    decreases |s|
  {
    if |s| > 0 && IsPySpace(s[|s| - 1]) {
      PyStripEndDropsSpace(s[..|s| - 1]);
    }
  }

  /** `strip()` removes Python white space from the two ends and nothing
      else: the result is the slice of `s` left between the removed runs. */
  lemma PyStripDropsOnlySpace(s: string, i: nat)
    requires i == |s| - |PyStripStart(s)|
    ensures i + |PyStrip(s)| <= |s| && PyStrip(s) == s[i..i + |PyStrip(s)|]
    ensures forall k | 0 <= k < i :: IsPySpace(s[k])
    ensures forall k | i + |PyStrip(s)| <= k < |s| :: IsPySpace(s[k])
  {
    var t := PyStripStart(s);
    var r := PyStrip(s);
    PyStripStartDropsSpace(s);
    PyStripEndDropsSpace(t);
    assert t == s[i..];
    assert r == PyStripEnd(t) == t[..|r|];
    forall k | i + |r| <= k < |s| ensures IsPySpace(s[k]) {
      assert s[k] == t[k - i];
    }
  }

  /** The characters a normalised column name may hold: `c.isalnum() or
      c == "_"`, for the ASCII text `unidecode` produces. */
  predicate IsColumnChar(c: char) {
    IsAsciiAlnum(c) || c == '_'
  }

  predicate IsColumnText(s: string) {
    forall i | 0 <= i < |s| :: IsColumnChar(s[i])
  }

  /** `"".join(c for c in s if c.isalnum() or c == "_")` */
  function KeepColumnChars(s: string): (r: string)
    ensures IsColumnText(r)
    ensures |r| <= |s|
    ensures forall i | 0 <= i < |r| :: r[i] in s
  {
    if s == [] then []
    else if IsColumnChar(s[0]) then [s[0]] + KeepColumnChars(s[1..])
    else KeepColumnChars(s[1..])
  }

  /** The filter works character by character: kept characters stay in
      their order, whichever way the text is split. */
  lemma {:induction false} KeepColumnCharsAppend(a: string, b: string)
    ensures KeepColumnChars(a + b) == KeepColumnChars(a) + KeepColumnChars(b)
    decreases |a|
  {
    if a == [] {
      assert a + b == b;
    } else {
      assert (a + b)[0] == a[0] && (a + b)[1..] == a[1..] + b;
      KeepColumnCharsAppend(a[1..], b);
    }
  }

  /** A column character is kept and anything else is dropped, wherever it stands. */
  lemma KeepColumnCharsAt(a: string, c: char, b: string)
    ensures IsColumnChar(c) ==> KeepColumnChars(a + [c] + b) == KeepColumnChars(a) + [c] + KeepColumnChars(b)
    ensures !IsColumnChar(c) ==> KeepColumnChars(a + [c] + b) == KeepColumnChars(a) + KeepColumnChars(b)
  {
    KeepColumnCharsAppend(a + [c], b);
    KeepColumnCharsAppend(a, [c]);
    assert KeepColumnChars([c]) == (if IsColumnChar(c) then [c] else []) by {
      assert [c][1..] == [];
    }
  }

  /** `normalizar_columna(nombre)`: strip, lower-case, transliterate to
      ASCII, turn blanks and hyphens into underscores, then drop every
      character that is neither alphanumeric nor an underscore. */
  function NormalizarColumna(unidecode: string -> string, nombre: string): (r: string)
    ensures IsColumnText(r)
    ensures forall i | 0 <= i < |r| :: r[i] != ' ' && r[i] != '-'
  {
    var u := unidecode(Lower(PyStrip(nombre)));
    KeepColumnChars(ReplaceAll(ReplaceAll(u, ' ', '_'), '-', '_'))
  }

  /** The property the library promises of `unidecode`: ASCII text is
      returned as it is. */
  ghost predicate KeepsAscii(unidecode: string -> string) {
    forall s: string | IsAsciiText(s) :: unidecode(s) == s
  }

  predicate IsAsciiText(s: string) {
    forall i | 0 <= i < |s| :: s[i] as int < 0x80
  }

  /** A name already written in lower-case ASCII letters, digits and
      underscores. */
  predicate IsCleanColumn(s: string) {
    forall i | 0 <= i < |s| :: IsAsciiLower(s[i]) || IsAsciiDigit(s[i]) || s[i] == '_'
  }

  lemma {:induction false} KeepColumnCharsKeepsClean(s: string)
    requires IsColumnText(s)
    ensures KeepColumnChars(s) == s
    decreases |s|
  {
    if s != [] {
      assert IsColumnText(s[1..]) by {
        forall i | 0 <= i < |s[1..]| ensures IsColumnChar(s[1..][i]) {
          assert s[1..][i] == s[i + 1];
        }
      }
      KeepColumnCharsKeepsClean(s[1..]);
      assert s == [s[0]] + s[1..];
    }
  }

  /** Normalising a name that is already clean changes nothing. */
  lemma NormalizarColumnaKeepsClean(unidecode: string -> string, nombre: string)
    requires KeepsAscii(unidecode)
    requires IsCleanColumn(nombre)
    ensures NormalizarColumna(unidecode, nombre) == nombre
  {
    assert PyStripStart(nombre) == nombre;
    assert PyStrip(nombre) == nombre;
    assert Lower(nombre) == nombre;
    assert IsAsciiText(nombre);
    assert unidecode(nombre) == nombre;
    var w := ReplaceAll(ReplaceAll(nombre, ' ', '_'), '-', '_');
    assert w == nombre;
    KeepColumnCharsKeepsClean(nombre);
  }

  /** Every alias is already clean, so a column named exactly like an alias
      keeps its name. */
  lemma AliasesAreClean()
    ensures forall k | 0 <= k < |IdAliases| :: IsCleanColumn(IdAliases[k])
  {
  }

  // ---------------------------------------------------------------------
  // detectar_id
  // ---------------------------------------------------------------------

  /** A Python dict as its items in iteration order. */
  type Dict = seq<(string, string)>

  /** `d[k] = v`: an existing key keeps its position and takes the new
      value; a new key goes at the end. */
  function DictPut(d: Dict, k: string, v: string): (r: Dict)
    ensures |r| == |d| || |r| == |d| + 1
    ensures forall e | e in r :: e in d || e == (k, v)
  {
    if d == [] then [(k, v)]
    else if d[0].0 == k then [(k, v)] + d[1..]
    else [d[0]] + DictPut(d[1..], k, v)
  }

  /** `d.get(k)`: the value stored under the first entry with key `k`. */
  function DictGet(d: Dict, k: string): (r: Option<string>)
    ensures r.Some? ==> (k, r.value) in d
    ensures r.None? ==> forall e | e in d :: e.0 != k
  {
    if d == [] then None
    else if d[0].0 == k then Some(d[0].1)
    else DictGet(d[1..], k)
  }

  /** Storing under `k` changes what `k` maps to and nothing else. */
  lemma {:induction false} DictGetPut(d: Dict, k: string, v: string, key: string)
    ensures DictGet(DictPut(d, k, v), key) == if key == k then Some(v) else DictGet(d, key)
    decreases |d|
  {
    if d != [] && d[0].0 != k {
      assert DictPut(d, k, v) == [d[0]] + DictPut(d[1..], k, v);
      DictGetPut(d[1..], k, v, key);
    }
  }

  /** An entry whose key no earlier entry carries is what `DictGet` finds. */
  lemma {:induction false} DictGetAt(d: Dict, i: nat)
    requires i < |d| && forall j | 0 <= j < i :: d[j].0 != d[i].0
    ensures DictGet(d, d[i].0) == Some(d[i].1)
    decreases i
  {
    if i > 0 {
      assert d[1..][i - 1] == d[i];
      assert forall j | 0 <= j < i - 1 :: d[1..][j] == d[j + 1];
      DictGetAt(d[1..], i - 1);
    }
  }

  /** `{norm(c): c for c in cols}` */
  function NormIndex(norm: string -> string, cols: seq<string>): (d: Dict)
    ensures forall e | e in d :: e.1 in cols && e.0 == norm(e.1)
    decreases |cols|
  {
    if cols == [] then []
    else
      var c := cols[|cols| - 1];
      var d := NormIndex(norm, cols[..|cols| - 1]);
      assert forall e | e in d :: e.1 in cols by {
        forall e | e in d ensures e.1 in cols {
          assert e.1 in cols[..|cols| - 1];
        }
      }
      DictPut(d, norm(c), c)
  }

  /** The position of the last column whose normalised name is `key`. */
  function LastIndexWith(norm: string -> string, cols: seq<string>, key: string): (r: Option<nat>)
    ensures r.Some? ==> r.value < |cols| && norm(cols[r.value]) == key
                        && forall j | r.value < j < |cols| :: norm(cols[j]) != key
    ensures r.None? ==> forall i | 0 <= i < |cols| :: norm(cols[i]) != key
    decreases |cols|
  {
    if cols == [] then None
    else if norm(cols[|cols| - 1]) == key then Some(|cols| - 1)
    else LastIndexWith(norm, cols[..|cols| - 1], key)
  }

  /** The last column whose normalised name is `key`. */
  function LastWithNorm(norm: string -> string, cols: seq<string>, key: string): Option<string>
  {
    match LastIndexWith(norm, cols, key)
    case Some(i) => Some(cols[i])
    case None => None
  }

  /** Looking a name up in the comprehension finds the last column that
      normalises to it: a later column overwrites an earlier one. */
  lemma {:induction false} NormIndexGet(norm: string -> string, cols: seq<string>, key: string)
    ensures DictGet(NormIndex(norm, cols), key) == LastWithNorm(norm, cols, key)
    decreases |cols|
  {
    if cols != [] {
      var p := cols[..|cols| - 1];
      var c := cols[|cols| - 1];
      NormIndexGet(norm, p, key);
      DictGetPut(NormIndex(norm, p), norm(c), c, key);
      assert NormIndex(norm, cols) == DictPut(NormIndex(norm, p), norm(c), c);
      if norm(c) != key {
        assert LastIndexWith(norm, cols, key) == LastIndexWith(norm, p, key);
        match LastIndexWith(norm, p, key)
        case Some(i) => assert p[i] == cols[i];
        case None =>
      }
    }
  }

  /** The item test of a loop that looks only at keys. */
  function KeyTest(q: string -> bool): (p: ((string, string)) -> bool)
    ensures forall e :: p(e) == q(e.0)
  {
    (e: (string, string)) => q(e.0)
  }

  /** The first key of `d`, in iteration order, that `q` accepts. */
  function FirstKey(d: Dict, q: string -> bool): Option<string>
  {
    match FirstIndex(d, KeyTest(q))
    case Some(i) => Some(d[i].0)
    case None => None
  }

  /** Storing under a key never reorders the keys already there: the first
      accepted key stays first, and a new key can only become the first
      accepted one when there was none. */
  lemma {:induction false} FirstKeyPut(d: Dict, k: string, v: string, q: string -> bool)
    ensures FirstKey(DictPut(d, k, v), q)
         == if FirstKey(d, q).Some? then FirstKey(d, q) else if q(k) then Some(k) else None
    decreases |d|
  {
    var p := KeyTest(q);
    var r := DictPut(d, k, v);
    if d == [] {
      assert r == [(k, v)] + [];
      FirstIndexCons((k, v), [], p);
    } else if d[0].0 == k {
      assert r == [(k, v)] + d[1..] && d == [d[0]] + d[1..];
      FirstIndexCons((k, v), d[1..], p);
      FirstIndexCons(d[0], d[1..], p);
    } else {
      var r' := DictPut(d[1..], k, v);
      assert r == [d[0]] + r' && d == [d[0]] + d[1..];
      FirstKeyPut(d[1..], k, v, q);
      FirstIndexCons(d[0], d[1..], p);
      FirstIndexCons(d[0], r', p);
      match FirstIndex(d[1..], p)
      case Some(i) => assert d[1..][i] == d[i + 1];
      case None =>
      match FirstIndex(r', p)
      case Some(i) => assert r'[i] == r[i + 1];
      case None =>
    }
  }

  /** Searching `[x] + s` looks at `x`, then searches `s`. */
  lemma FirstIndexCons<T>(x: T, s: seq<T>, p: T -> bool)
    ensures FirstIndex([x] + s, p)
         == if p(x) then Some(0)
            else match FirstIndex(s, p) case Some(i) => Some(i + 1) case None => None
  {
    var t := [x] + s;
    assert t[0] == x;
    assert forall j | 1 <= j < |t| :: t[j] == s[j - 1];
    if p(x) {
      FirstIndexIs(t, p, 0);
    } else if FirstIndex(s, p).Some? {
      var i := FirstIndex(s, p).value;
      FirstIndexIs(t, p, i + 1);
    }
  }

  /** The keys of the comprehension are the normalised names in the order
      they first appear, so its first accepted key is the normalised name
      of the first column `q` accepts. */
  lemma {:induction false} FirstKeyOfIndex(norm: string -> string, q: string -> bool, cols: seq<string>, j: nat)
    requires j < |cols| && q(norm(cols[j]))
    requires forall i | 0 <= i < j :: !q(norm(cols[i]))
    ensures FirstKey(NormIndex(norm, cols), q) == Some(norm(cols[j]))
    decreases |cols|
  {
    var p := cols[..|cols| - 1];
    var c := cols[|cols| - 1];
    FirstKeyPut(NormIndex(norm, p), norm(c), c, q);
    assert NormIndex(norm, cols) == DictPut(NormIndex(norm, p), norm(c), c);
    if j < |cols| - 1 {
      assert forall i | 0 <= i <= j :: p[i] == cols[i];
      FirstKeyOfIndex(norm, q, p, j);
    } else {
      assert forall i | 0 <= i < |p| :: p[i] == cols[i];
      FirstKeyNone(norm, q, p);
    }
  }

  /** No column `q` accepts: no key of the comprehension is accepted. */
  lemma {:induction false} FirstKeyNone(norm: string -> string, q: string -> bool, cols: seq<string>)
    requires forall i | 0 <= i < |cols| :: !q(norm(cols[i]))
    ensures FirstKey(NormIndex(norm, cols), q) == None
    decreases |cols|
  {
    if cols != [] {
      var p := cols[..|cols| - 1];
      var c := cols[|cols| - 1];
      FirstKeyPut(NormIndex(norm, p), norm(c), c, q);
      assert NormIndex(norm, cols) == DictPut(NormIndex(norm, p), norm(c), c);
      assert forall i | 0 <= i < |p| :: p[i] == cols[i];
      FirstKeyNone(norm, q, p);
      assert q(norm(c)) == !!q(norm(cols[|cols| - 1]));
    }
  }

  /** The heuristic of the second loop. */
  predicate LooksLikeId(norm: string) {
    norm == "id" || EndsWith(norm, "_id") || Contains(norm, "emple") || Contains(norm, "codigo")
  }

  function IdHeuristic(): (q: string -> bool)
    ensures forall s :: q(s) == LooksLikeId(s)
  {
    s => LooksLikeId(s)
  }

  /** The alias test of the first loop, over the comprehension `d`. */
  function AliasIn(d: Dict): (p: string -> bool)
    ensures forall a :: p(a) == DictGet(d, a).Some?
  {
    a => DictGet(d, a).Some?
  }

  /** `detectar_id` with the column normaliser as a parameter: the column of
      the earliest alias present, else the first normalised name the
      heuristic accepts, else nothing. */
  function DetectWith(norm: string -> string, cols: seq<string>): (r: Option<string>)
    ensures r.Some? ==> r.value in cols
  {
    var d := NormIndex(norm, cols);
    match FirstIndex(IdAliases, AliasIn(d))
    case Some(k) => DictGet(d, IdAliases[k])
    case None =>
      match FirstIndex(d, KeyTest(IdHeuristic()))
      case Some(i) =>
        assert d[i] in d;
        Some(d[i].1)
      case None => None
  }

  /** `normalizar_columna` as a value. */
  function Normalizer(unidecode: string -> string): (norm: string -> string)
    ensures forall s :: norm(s) == NormalizarColumna(unidecode, s)
  {
    s => NormalizarColumna(unidecode, s)
  }

  /** `detectar_id(df)` over the column names of `df`, in order. */
  function DetectarId(unidecode: string -> string, cols: seq<string>): (r: Option<string>)
    ensures r.Some? ==> r.value in cols
  {
    DetectWith(Normalizer(unidecode), cols)
  }

  /** Some column normalises to alias number `k`. */
  predicate AliasPresent(norm: string -> string, cols: seq<string>, k: nat)
    requires k < |IdAliases|
  {
    exists i | 0 <= i < |cols| :: norm(cols[i]) == IdAliases[k]
  }

  lemma AliasPresentInIndex(norm: string -> string, cols: seq<string>, k: nat)
    requires k < |IdAliases|
    ensures AliasIn(NormIndex(norm, cols))(IdAliases[k]) <==> AliasPresent(norm, cols, k)
  {
    NormIndexGet(norm, cols, IdAliases[k]);
    if AliasPresent(norm, cols, k) {
      var i :| 0 <= i < |cols| && norm(cols[i]) == IdAliases[k];
    }
  }

  lemma NoAliasInIndex(norm: string -> string, cols: seq<string>)
    requires forall k | 0 <= k < |IdAliases| :: !AliasPresent(norm, cols, k)
    ensures FirstIndex(IdAliases, AliasIn(NormIndex(norm, cols))) == None
  {
    forall k | 0 <= k < |IdAliases| ensures !AliasIn(NormIndex(norm, cols))(IdAliases[k]) {
      AliasPresentInIndex(norm, cols, k);
    }
  }

  /** Alias precedence: when alias `k` is the earliest alias some column
      normalises to, the answer is the last column with that name. */
  lemma DetectPrefersAlias(norm: string -> string, cols: seq<string>, k: nat)
    requires k < |IdAliases| && AliasPresent(norm, cols, k)
    requires forall j | 0 <= j < k :: !AliasPresent(norm, cols, j)
    ensures DetectWith(norm, cols) == LastWithNorm(norm, cols, IdAliases[k])
  {
    var d := NormIndex(norm, cols);
    AliasPresentInIndex(norm, cols, k);
    forall j | 0 <= j < k ensures !AliasIn(d)(IdAliases[j]) {
      AliasPresentInIndex(norm, cols, j);
    }
    FirstIndexIs(IdAliases, AliasIn(d), k);
    NormIndexGet(norm, cols, IdAliases[k]);
  }

  /** With no alias present, the heuristic decides: the first column it
      accepts gives the name, and the last column with that normalised name
      is the answer. */
  lemma DetectFallsBackToHeuristic(norm: string -> string, cols: seq<string>, j: nat)
    requires forall k | 0 <= k < |IdAliases| :: !AliasPresent(norm, cols, k)
    requires j < |cols| && LooksLikeId(norm(cols[j]))
    requires forall i | 0 <= i < j :: !LooksLikeId(norm(cols[i]))
    ensures DetectWith(norm, cols) == LastWithNorm(norm, cols, norm(cols[j]))
  {
    var d := NormIndex(norm, cols);
    var q := IdHeuristic();
    NoAliasInIndex(norm, cols);
    FirstKeyOfIndex(norm, q, cols, j);
    var key := norm(cols[j]);
    var i := FirstIndex(d, KeyTest(q)).value;
    assert d[i].0 == key;
    assert DictGet(d, key) == Some(d[i].1) by {
      assert forall m | 0 <= m < i :: !KeyTest(q)(d[m]);
      DictGetAt(d, i);
    }
    NormIndexGet(norm, cols, key);
  }

  /** Nothing is found exactly when no column is named like an alias and no
      column passes the heuristic. */
  lemma DetectFindsNothing(norm: string -> string, cols: seq<string>)
    ensures DetectWith(norm, cols).None?
        <==> forall i | 0 <= i < |cols| :: norm(cols[i]) !in IdAliases && !LooksLikeId(norm(cols[i]))
  {
    var d := NormIndex(norm, cols);
    var q := IdHeuristic();
    if forall i | 0 <= i < |cols| :: norm(cols[i]) !in IdAliases && !LooksLikeId(norm(cols[i])) {
      forall k | 0 <= k < |IdAliases| ensures !AliasPresent(norm, cols, k) {
        assert IdAliases[k] in IdAliases;
      }
      NoAliasInIndex(norm, cols);
      FirstKeyNone(norm, q, cols);
    } else {
      var i :| 0 <= i < |cols| && (norm(cols[i]) in IdAliases || LooksLikeId(norm(cols[i])));
      var key := norm(cols[i]);
      if key in IdAliases {
        var k :| 0 <= k < |IdAliases| && IdAliases[k] == key;
        AliasPresentInIndex(norm, cols, k);
      } else {
        NormIndexGet(norm, cols, key);
        assert (key, DictGet(d, key).value) in d;
        assert KeyTest(q)((key, DictGet(d, key).value));
      }
    }
  }

  /** The same three facts for `detectar_id` itself. */
  lemma DetectarIdCharacterised(unidecode: string -> string, cols: seq<string>)
    ensures forall k | 0 <= k < |IdAliases| && AliasPresent(Normalizer(unidecode), cols, k)
              && (forall j | 0 <= j < k :: !AliasPresent(Normalizer(unidecode), cols, j))
              :: DetectarId(unidecode, cols) == LastWithNorm(Normalizer(unidecode), cols, IdAliases[k])
    ensures DetectarId(unidecode, cols).None?
        <==> forall i | 0 <= i < |cols| ::
               NormalizarColumna(unidecode, cols[i]) !in IdAliases
               && !LooksLikeId(NormalizarColumna(unidecode, cols[i]))
  {
    var norm := Normalizer(unidecode);
    forall k | 0 <= k < |IdAliases| && AliasPresent(norm, cols, k)
               && (forall j | 0 <= j < k :: !AliasPresent(norm, cols, j)) {
      DetectPrefersAlias(norm, cols, k);
    }
    DetectFindsNothing(norm, cols);
  }

  // ---------------------------------------------------------------------
  // sanitize_input_value, sanitize_row_before_df
  // ---------------------------------------------------------------------

  type byte = bv8

  /** The Python values a request row may carry. A float is an exact decimal
      or one of NaN and the infinities; other objects (lists, dicts) are
      passed through untouched. */
  datatype PyValue =
    | PyNone
    | PyBool(b: bool)
    | PyInt(i: int)
    | PyFloat(x: Number)
    | PyStr(s: string)
    | PyBytes(bytes: seq<byte>)   // `bytes` and `bytearray`
    | PyOther

  /** A value as it reaches `sanitize_input_value`: a plain Python value, or
      a numpy scalar whose `.item()` either yields a Python value or raises. */
  datatype PyInput =
    | Plain(v: PyValue)
    | NumpyScalar(item: Option<PyValue>)

  /** The texts that, stripped and lower-cased, stand for a missing value. */
  const NullTexts: seq<string> := ["", "nan", "none", "null", "inf", "-inf", "+inf"]

  predicate IsNullText(s: string) {
    Lower(PyStrip(s)) in NullTexts
  }

  /** The cleaning applied once `.item()` has been taken: bytes are decoded
      (undecodable bytes dropped), a text standing for a missing value and a
      float that is NaN or infinite become None, everything else is kept. */
  function SanitizeValue(decode: seq<byte> -> string, v: PyValue): (r: PyValue)
    ensures !r.PyBytes?
    ensures r.PyNone? || r == v || (v.PyBytes? && r == PyStr(decode(v.bytes)))
    ensures r.PyStr? ==> !IsNullText(r.s)
    ensures r.PyFloat? ==> r.x.Finite?
    ensures !v.PyStr? && !v.PyBytes? && !v.PyFloat? ==> r == v
  {
    match v
    case PyBytes(bs) => SanitizeText(decode(bs))
    case PyStr(t) => SanitizeText(t)
    case PyFloat(x) => if x.Finite? then v else PyNone
    case _ => v
  }

  /** The string branch: the untrimmed text, or None. */
  function SanitizeText(t: string): (r: PyValue)
    ensures r == PyNone <==> IsNullText(t)
    ensures r != PyNone ==> r == PyStr(t)
  {
    if IsNullText(t) then PyNone else PyStr(t)
  }

  /** "Something safe for pandas": no bytes, no text standing for a missing
      value, no NaN or infinite float. */
  predicate SafeForPandas(r: PyValue) {
    !r.PyBytes? && (r.PyStr? ==> !IsNullText(r.s)) && (r.PyFloat? ==> r.x.Finite?)
  }

  /** `sanitize_input_value(v)` */
  function SanitizeInputValue(decode: seq<byte> -> string, x: PyInput): (r: PyValue)
    ensures SafeForPandas(r)
    ensures x.Plain? ==> r == SanitizeValue(decode, x.v)
    ensures x.NumpyScalar? && x.item.Some? ==> r == SanitizeValue(decode, x.item.value)
    ensures x.NumpyScalar? && x.item.None? ==> r == PyNone
  {
    match x
    case Plain(v) => SanitizeValue(decode, v)
    case NumpyScalar(Some(v)) => SanitizeValue(decode, v)
    case NumpyScalar(None) => PyNone
  }

  /** What the string branch promises, in full: a text gives None exactly
      when it stands for a missing value, and otherwise comes back as it
      was, white space included; bytes behave as their decoded text. */
  lemma SanitizeStrings(decode: seq<byte> -> string, t: string, bs: seq<byte>)
    ensures SanitizeInputValue(decode, Plain(PyStr(t))) == PyNone <==> IsNullText(t)
    ensures !IsNullText(t) ==> SanitizeInputValue(decode, Plain(PyStr(t))) == PyStr(t)
    ensures SanitizeInputValue(decode, Plain(PyBytes(bs)))
         == SanitizeInputValue(decode, Plain(PyStr(decode(bs))))
  {
  }

  /** A float is dropped exactly when it is NaN or infinite. */
  lemma SanitizeFloats(decode: seq<byte> -> string, x: Number)
    ensures SanitizeInputValue(decode, Plain(PyFloat(x))) == PyNone <==> !x.Finite?
  {
  }

  /** A numpy scalar is cleaned by what its `item()` yields, exactly like
      the same Python value passed in directly. */
  lemma NumpyItemIsCleaned(decode: seq<byte> -> string, v: PyValue)
    ensures SanitizeInputValue(decode, NumpyScalar(Some(v))) == SanitizeInputValue(decode, Plain(v))
    ensures SanitizeInputValue(decode, NumpyScalar(Some(PyFloat(NaN)))) == PyNone
  {
  }

  /** Sanitising a sanitised value changes nothing. */
  lemma SanitizeIdempotent(decode: seq<byte> -> string, x: PyInput)
    ensures SanitizeInputValue(decode, Plain(SanitizeInputValue(decode, x)))
         == SanitizeInputValue(decode, x)
  {
    var r := SanitizeInputValue(decode, x);
    if r.PyStr? {
      assert SanitizeText(r.s) == r;
    }
  }

  /** Padding and case do not matter to the sentinel test. */
  lemma PaddedNaNIsNull(decode: seq<byte> -> string)
    ensures SanitizeInputValue(decode, Plain(PyStr(" NaN "))) == PyNone
  {
    PaddedNaNIsNullText();
    assert SanitizeInputValue(decode, Plain(PyStr(" NaN "))) == SanitizeText(" NaN ");
  }

  lemma PaddedNaNIsNullText()
    ensures IsNullText(" NaN ")
  {
    assert PyStrip(" NaN ") == "NaN" by {
      assert PyStripStart(" NaN ") == "NaN ";
      assert PyStripEnd("NaN ") == "NaN";
    }
    assert Lower("NaN") == "nan" == NullTexts[1];
  }

  /** A value that is not a sentinel keeps its padding. */
  lemma PaddedZeroIsKept(decode: seq<byte> -> string)
    ensures SanitizeInputValue(decode, Plain(PyStr(" 0 "))) == PyStr(" 0 ")
  {
    PaddedZeroIsNotNullText();
    assert SanitizeInputValue(decode, Plain(PyStr(" 0 "))) == SanitizeText(" 0 ");
  }

  lemma PaddedZeroIsNotNullText()
    ensures !IsNullText(" 0 ")
  {
    assert PyStrip(" 0 ") == "0" by {
      assert PyStripStart(" 0 ") == "0 ";
      assert PyStripEnd("0 ") == "0";
    }
    assert Lower("0") == "0";
    assert forall t | t in NullTexts :: t == "" || t[0] != '0';
  }

  /** A request row as its items in order. */
  type Row<V> = seq<(string, V)>

  /** The row with every value sanitised. */
  function SanitizedRow(decode: seq<byte> -> string, row: Row<PyInput>): (out: Row<PyValue>)
  {
    seq(|row|, i requires 0 <= i < |row| => (row[i].0, SanitizeInputValue(decode, row[i].1)))
  }

  function Keys<V>(row: Row<V>): seq<string> {
    seq(|row|, i requires 0 <= i < |row| => row[i].0)
  }

  /** `sanitize_row_before_df(row)`: a new dict, filled key by key. */
  method SanitizeRowBeforeDf(decode: seq<byte> -> string, row: Row<PyInput>) returns (out: Row<PyValue>)
    ensures out == SanitizedRow(decode, row)
  {
    out := [];
    var i := 0;
    while i < |row|
      invariant i <= |row|
      invariant out == SanitizedRow(decode, row[..i])
    {
      var (k, v) := row[i];
      assert row[..i + 1] == row[..i] + [row[i]];
      out := out + [(k, SanitizeInputValue(decode, v))];
      i := i + 1;
    }
    assert row[..i] == row;
  }

  /** The sanitised row has the same keys in the same order, each value is
      the sanitised input value, and sanitising it again changes nothing. */
  lemma SanitizedRowKeepsKeys(decode: seq<byte> -> string, row: Row<PyInput>)
    ensures Keys(SanitizedRow(decode, row)) == Keys(row)
    ensures forall i | 0 <= i < |row| :: SanitizedRow(decode, row)[i].1 == SanitizeInputValue(decode, row[i].1)
    ensures forall i | 0 <= i < |row| :: SafeForPandas(SanitizedRow(decode, row)[i].1)
    ensures SanitizedRow(decode, Resanitize(SanitizedRow(decode, row))) == SanitizedRow(decode, row)
  {
    var out := SanitizedRow(decode, row);
    forall i | 0 <= i < |row| ensures SanitizedRow(decode, Resanitize(out))[i] == out[i] {
      SanitizeIdempotent(decode, row[i].1);
    }
  }

  /** A sanitised row fed back in as plain values. */
  function Resanitize(row: Row<PyValue>): (r: Row<PyInput>)
    ensures |r| == |row|
  {
    seq(|row|, i requires 0 <= i < |row| => (row[i].0, Plain(row[i].1)))
  }
}
