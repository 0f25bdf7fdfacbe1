// The JavaScript values the Express handlers receive from `express.json()`,
// and the handful of language operations the normaliser applies to them:
// truthiness, `String(v)`, `Number(v)`, `trim()`, property access and the
// object spread `{ ...a, ...b }`.

module JsValues {
  import opened Text
  import opened Numbers
  import opened Maybe

  datatype JsValue =
    | Undefined
    | Null
    | Bool(b: bool)
    | Num(n: Number)
    | Str(s: string)
    | Arr(items: seq<JsValue>)
    | Obj(props: seq<Prop>)

  /** One own property of an object, in the order `Object.keys` lists it. */
  datatype Prop = Prop(key: string, value: JsValue)

  /** The characters `trim()` removes and `\s` matches: white space and line terminators. */
  predicate IsJsSpace(c: char) {
    var n := c as int;
    (9 <= n <= 13) || n == 32 || n == 0xA0 || n == 0x1680 || (0x2000 <= n <= 0x200A)
    || n == 0x2028 || n == 0x2029 || n == 0x202F || n == 0x205F || n == 0x3000 || n == 0xFEFF
  }

  function TrimStart(s: string): (r: string)
    ensures |r| <= |s| && r == s[|s| - |r|..]
    ensures r == [] || !IsJsSpace(r[0])
    ensures |s| > 0 && IsJsSpace(s[0]) ==> |r| < |s|
    ensures |s| > 0 && !IsJsSpace(s[0]) ==> r == s
  {
    if |s| > 0 && IsJsSpace(s[0]) then TrimStart(s[1..]) else s
  }

  function TrimEnd(s: string): (r: string)
    ensures |r| <= |s| && r == s[..|r|]
    ensures r == [] || !IsJsSpace(r[|r| - 1])
    ensures |s| > 0 && !IsJsSpace(s[|s| - 1]) ==> r == s
  {
    if |s| > 0 && IsJsSpace(s[|s| - 1]) then TrimEnd(s[..|s| - 1]) else s
  }

  /** `TrimStart` drops only white space. */
  lemma {:induction false} TrimStartDropsSpaces(s: string)
    ensures forall i | 0 <= i < |s| - |TrimStart(s)| :: IsJsSpace(s[i])
    decreases |s|
  {
    if |s| > 0 && IsJsSpace(s[0]) {
      var t := s[1..];
      TrimStartDropsSpaces(t);
      var n := |t| - |TrimStart(t)|;
      assert |s| - |TrimStart(s)| == n + 1;
      forall i | 0 < i < n + 1
        ensures IsJsSpace(s[i])
      {
        assert s[i] == t[i - 1];
      }
    }
  }

  /** `TrimEnd` drops only white space. */
  lemma {:induction false} TrimEndDropsSpaces(s: string)
    ensures forall i | |TrimEnd(s)| <= i < |s| :: IsJsSpace(s[i])
    decreases |s|
  {
    if |s| > 0 && IsJsSpace(s[|s| - 1]) {
      TrimEndDropsSpaces(s[..|s| - 1]);
    }
  }

  /** `String.prototype.trim`. */
  function JsTrim(s: string): (r: string)
    ensures r == [] || (!IsJsSpace(r[0]) && !IsJsSpace(r[|r| - 1]))
    ensures |r| <= |s|
  {
    TrimEnd(TrimStart(s))
  }

  lemma JsTrimKeeps(s: string)
    requires s == [] || (!IsJsSpace(s[0]) && !IsJsSpace(s[|s| - 1]))
    ensures JsTrim(s) == s
  {
  }

  lemma JsTrimIdempotent(s: string)
    ensures JsTrim(JsTrim(s)) == JsTrim(s)
  {
    JsTrimKeeps(JsTrim(s));
  }

  /** `s.replace(/\s+/g, '_')`: every maximal run of white space becomes one
      underscore. `\s` matches the same characters `trim` removes. */
  function CollapseWhitespace(s: string): (r: string)
    ensures |r| <= |s|
    decreases |s|
  {
    if s == [] then []
    else if IsJsSpace(s[0]) then "_" + CollapseWhitespace(TrimStart(s[1..]))
    else [s[0]] + CollapseWhitespace(s[1..])
  }

  predicate NoSpace(s: string) {
    forall i | 0 <= i < |s| :: !IsJsSpace(s[i])
  }

  /** A run made only of white space. */
  predicate AllSpace(s: string)
    decreases |s|
  {
    s == [] || (IsJsSpace(s[0]) && AllSpace(s[1..]))
  }

  /** The rewritten name holds no white space. */
  lemma {:induction false} CollapseWhitespaceNoSpace(s: string)
    ensures NoSpace(CollapseWhitespace(s))
    decreases |s|
  {
    if s != [] {
      var r := CollapseWhitespace(s);
      if IsJsSpace(s[0]) {
        CollapseWhitespaceNoSpace(TrimStart(s[1..]));
        assert r == "_" + CollapseWhitespace(TrimStart(s[1..]));
      } else {
        CollapseWhitespaceNoSpace(s[1..]);
        assert r == [s[0]] + CollapseWhitespace(s[1..]);
      }
    }
  }

  /** A name without white space is kept as it is. */
  lemma {:induction false} CollapseWhitespaceKeepsClean(s: string)
    requires NoSpace(s)
    ensures CollapseWhitespace(s) == s
    decreases |s|
  {
    if s != [] {
      assert NoSpace(s[1..]) by {
        forall i | 0 <= i < |s[1..]| ensures !IsJsSpace(s[1..][i]) {
          assert s[1..][i] == s[i + 1];
        }
      }
      CollapseWhitespaceKeepsClean(s[1..]);
      assert s == [s[0]] + s[1..];
    }
  }

  /** Rewriting twice is rewriting once. */
  lemma CollapseWhitespaceIdempotent(s: string)
    ensures CollapseWhitespace(CollapseWhitespace(s)) == CollapseWhitespace(s)
  {
    CollapseWhitespaceNoSpace(s);
    CollapseWhitespaceKeepsClean(CollapseWhitespace(s));
  }

  /** Two words separated by any white space are joined by one underscore. */
  lemma CollapseWhitespaceJoins(a: string, gap: string, b: string)
    requires NoSpace(a) && NoSpace(b) && gap != [] && AllSpace(gap)
    requires b == [] || !IsJsSpace(b[0])
    ensures CollapseWhitespace(a + gap + b) == a + "_" + b
  {
    var tail := gap + b;
    assert CollapseWhitespace(a + tail) == a + ("_" + b) by {
      CollapseWhitespaceGap(gap, b);
      CollapseWhitespaceOverClean(a, tail);
    }
    assert a + gap + b == a + tail;
    assert a + ("_" + b) == a + "_" + b;
  }

  /** A run of white space in front of a clean word becomes one underscore. */
  lemma CollapseWhitespaceGap(gap: string, b: string)
    requires NoSpace(b) && gap != [] && AllSpace(gap)
    requires b == [] || !IsJsSpace(b[0])
    ensures CollapseWhitespace(gap + b) == "_" + b
  {
    var t := gap + b;
    var rest := TrimStart(t[1..]);
    assert CollapseWhitespace(t) == "_" + CollapseWhitespace(rest) by {
      assert t[0] == gap[0];
    }
    assert rest == b by {
      assert t[1..] == gap[1..] + b;
      TrimStartOverRun(gap[1..], b);
    }
    assert CollapseWhitespace(b) == b by {
      CollapseWhitespaceKeepsClean(b);
    }
  }

  /** A prefix without white space passes through unchanged. */
  lemma {:induction false} CollapseWhitespaceOverClean(a: string, t: string)
    requires NoSpace(a)
    ensures CollapseWhitespace(a + t) == a + CollapseWhitespace(t)
    decreases |a|
  {
    if a == [] {
      assert a + t == t;
    } else {
      assert (a + t)[0] == a[0] && (a + t)[1..] == a[1..] + t;
      assert NoSpace(a[1..]) by {
        forall i | 0 <= i < |a[1..]| ensures !IsJsSpace(a[1..][i]) {
          assert a[1..][i] == a[i + 1];
        }
      }
      CollapseWhitespaceOverClean(a[1..], t);
      assert !IsJsSpace(a[0]) && a + t != [];
      assert CollapseWhitespace(a + t) == [a[0]] + CollapseWhitespace(a[1..] + t);
      assert [a[0]] + (a[1..] + CollapseWhitespace(t)) == a + CollapseWhitespace(t) by {
        assert a == [a[0]] + a[1..];
      }
    }
  }

  /** Trimming white space off the front stops at the first other character. */
  lemma {:induction false} TrimStartOverRun(gap: string, b: string)
    requires AllSpace(gap)
    requires b == [] || !IsJsSpace(b[0])
    ensures TrimStart(gap + b) == b
    decreases |gap|
  {
    if gap == [] {
      assert gap + b == b;
    } else {
      assert (gap + b)[1..] == gap[1..] + b;
      TrimStartOverRun(gap[1..], b);
    }
  }

  predicate Truthy(v: JsValue) {
    match v
    case Undefined => false
    case Null => false
    case Bool(b) => b
    case Num(n) => !(n.Finite? && IsZero(n.d)) && !n.NaN?
    case Str(s) => s != ""
    case Arr(_) => true
    case Obj(_) => true
  }

  /** `typeof v === 'object'` */
  predicate IsTypeofObject(v: JsValue) { v.Null? || v.Arr? || v.Obj? }

  /** `String(v)`; an array joins its elements with commas, writing null and
      undefined elements as empty strings. */
  function ToJsString(v: JsValue): string
  {
    match v
    case Undefined => "undefined"
    case Null => "null"
    case Bool(b) => if b then "true" else "false"
    case Num(n) => NumberToString(n)
    case Str(s) => s
    case Arr(items) =>
      Join(seq(|items|, i requires 0 <= i < |items| =>
             if items[i].Null? || items[i].Undefined? then ""
             else assert items[i] in items; ToJsString(items[i])), ",")
    case Obj(_) => "[object Object]"
  }

  /** `Number(s)` for a string: surrounding white space is ignored, the empty
      string is 0, and otherwise the whole text must be a signed decimal
      literal or `Infinity`. */
  function StringToNumber(s: string): Number
  {
    var t := JsTrim(s);
    if t == [] then Finite(Zero)
    else
      var neg := t[0] == '-';
      var u := if t[0] == '+' || t[0] == '-' then t[1..] else t;
      if u == "Infinity" then Infinity(neg)
      else
        match ParseUnsignedDecimal(u)
        case Some(d) => Finite(if neg then Negate(d) else d)
        case None => NaN
  }

  /** `Number(v)` */
  function ToJsNumber(v: JsValue): Number
  {
    match v
    case Undefined => NaN
    case Null => Finite(Zero)
    case Bool(b) => Finite(if b then Decimal(1, 0) else Zero)
    case Num(n) => n
    case Str(s) => StringToNumber(s)
    case Arr(_) => StringToNumber(ToJsString(v))
    case Obj(_) => StringToNumber(ToJsString(v))
  }

  /** The own properties of `v`. Only objects have properties a lookup in the
      normaliser can reach (see README). */
  function Own(v: JsValue): seq<Prop>
  {
    if v.Obj? then v.props else []
  }

  function GetProp(props: seq<Prop>, key: string): JsValue
  {
    if props == [] then Undefined
    else if props[0].key == key then props[0].value
    else GetProp(props[1..], key)
  }

  predicate HasKey(props: seq<Prop>, key: string) {
    exists i | 0 <= i < |props| :: props[i].key == key
  }

  /** `raw[key]` */
  function Get(v: JsValue, key: string): JsValue
  {
    GetProp(Own(v), key)
  }

  /** `Object.keys(v)` */
  function KeysOf(props: seq<Prop>): (r: seq<string>)
    ensures |r| == |props|
    ensures forall i | 0 <= i < |props| :: r[i] == props[i].key
  {
    seq(|props|, i requires 0 <= i < |props| => props[i].key)
  }

  /** An array index: the canonical decimal text of an integer below
      2^32 - 1. An ordinary object lists such keys before all others, in
      ascending numeric order, and every other key in insertion order. */
  predicate IsArrayIndex(key: string) {
    |key| > 0 && AllDigits(key) && (key[0] != '0' || key == "0") && DigitsValue(key) < 0xFFFF_FFFF
  }

  /** Whether key `k` is listed before key `k0` when both are own keys. */
  predicate GoesBefore(k: string, k0: string) {
    IsArrayIndex(k) && (!IsArrayIndex(k0) || DigitsValue(k) < DigitsValue(k0))
  }

  /** The order in which an ordinary object keeps its own keys: each key once,
      and no key listed after one it goes before. */
  predicate InPropertyOrder(bag: seq<Prop>) {
    forall i, j | 0 <= i < j < |bag| :: bag[i].key != bag[j].key && !GoesBefore(bag[j].key, bag[i].key)
  }

  /** `o[k] = x` on a plain object: a key already present keeps its place and
      takes the new value; a new array index goes before the first key it
      precedes; any other new key goes last. */
  function Assign(bag: seq<Prop>, k: string, x: JsValue): (r: seq<Prop>)
    ensures GetProp(r, k) == x
    ensures forall k' | k' != k :: GetProp(r, k') == GetProp(bag, k')
    ensures forall p | p in r :: p.key == k || p in bag
  {
    if bag == [] then [Prop(k, x)]
    else if bag[0].key == k then [Prop(k, x)] + bag[1..]
    else if GoesBefore(k, bag[0].key) && !HasKey(bag, k) then [Prop(k, x)] + bag
    else [bag[0]] + Assign(bag[1..], k, x)
  }

  /** A key that is not an array index and is new goes last. */
  lemma {:induction false} AssignNamedKeyGoesLast(bag: seq<Prop>, k: string, x: JsValue)
    requires !IsArrayIndex(k) && !HasKey(bag, k)
    ensures Assign(bag, k, x) == bag + [Prop(k, x)]
    decreases |bag|
  {
    if bag != [] {
      assert !HasKey(bag[1..], k) by {
        forall i | 0 <= i < |bag[1..]| ensures bag[1..][i].key != k {
          assert bag[1..][i] == bag[i + 1];
        }
      }
      AssignNamedKeyGoesLast(bag[1..], k, x);
      assert bag[0].key != k && !GoesBefore(k, bag[0].key);
      assert Assign(bag, k, x) == [bag[0]] + Assign(bag[1..], k, x);
      AppendAfterHead(bag, Prop(k, x));
    }
  }

  lemma AppendAfterHead<T>(s: seq<T>, p: T)
    requires s != []
    ensures [s[0]] + (s[1..] + [p]) == s + [p]
  {
    assert s == [s[0]] + s[1..];
  }

  /** A new key is inserted at one place `n`, after every key it does not go
      before and in front of the first key it goes before; the keys already
      there keep their order. */
  lemma {:induction false} AssignInserts(bag: seq<Prop>, k: string, x: JsValue) returns (n: nat)
    requires !HasKey(bag, k)
    ensures n <= |bag| && Assign(bag, k, x) == bag[..n] + [Prop(k, x)] + bag[n..]
    ensures forall i | 0 <= i < n :: !GoesBefore(k, bag[i].key)
    ensures n < |bag| ==> GoesBefore(k, bag[n].key)
    decreases |bag|
  {
    if bag == [] {
      n := 0;
    } else if GoesBefore(k, bag[0].key) {
      n := 0;
      assert Assign(bag, k, x) == [Prop(k, x)] + bag;
      InsertionAtFront(bag, Prop(k, x));
    } else {
      assert !HasKey(bag[1..], k) by {
        forall i | 0 <= i < |bag[1..]| ensures bag[1..][i].key != k {
          assert bag[1..][i] == bag[i + 1];
        }
      }
      var m := AssignInserts(bag[1..], k, x);
      n := m + 1;
      InsertsAfterFirst(bag, k, x, m);
      forall i | 0 <= i < n ensures !GoesBefore(k, bag[i].key) {
        if i > 0 { assert bag[i] == bag[1..][i - 1]; }
      }
      assert n < |bag| ==> bag[n] == bag[1..][m];
    }
  }

  /** One step of `AssignInserts`: a key placed in the tail is placed one
      further along in the whole. */
  lemma InsertsAfterFirst(bag: seq<Prop>, k: string, x: JsValue, m: nat)
    requires bag != [] && bag[0].key != k && !GoesBefore(k, bag[0].key)
    requires m < |bag| && Assign(bag[1..], k, x) == bag[1..][..m] + [Prop(k, x)] + bag[1..][m..]
    ensures Assign(bag, k, x) == bag[..m + 1] + [Prop(k, x)] + bag[m + 1..]
  {
    assert Assign(bag, k, x) == [bag[0]] + Assign(bag[1..], k, x);
    InsertionShifts(bag, m, Prop(k, x));
  }

  lemma InsertionAtFront<T>(s: seq<T>, p: T)
    ensures s[..0] + [p] + s[0..] == [p] + s
  {
  }

  /** Putting `p` at position `m` of the tail puts it at `m + 1` of the whole. */
  lemma InsertionShifts<T>(s: seq<T>, m: nat, p: T)
    requires m < |s|
    ensures [s[0]] + (s[1..][..m] + [p] + s[1..][m..]) == s[..m + 1] + [p] + s[m + 1..]
  {
    assert s[..m + 1] == [s[0]] + s[1..][..m];
    assert s[m + 1..] == s[1..][m..];
  }

  /** Whether `q` may head a list whose rest is `rest`. */
  predicate Precedes(q: Prop, rest: seq<Prop>) {
    forall j | 0 <= j < |rest| :: q.key != rest[j].key && !GoesBefore(rest[j].key, q.key)
  }

  lemma ConsInOrder(q: Prop, rest: seq<Prop>)
    requires InPropertyOrder(rest) && Precedes(q, rest)
    ensures InPropertyOrder([q] + rest)
  {
    var r := [q] + rest;
    forall i, j | 0 <= i < j < |r| ensures r[i].key != r[j].key && !GoesBefore(r[j].key, r[i].key) {
      assert r[j] == rest[j - 1];
      if i > 0 { assert r[i] == rest[i - 1]; }
    }
  }

  lemma UnconsInOrder(bag: seq<Prop>)
    requires bag != [] && InPropertyOrder(bag)
    ensures InPropertyOrder(bag[1..]) && Precedes(bag[0], bag[1..])
  {
    forall i, j | 0 <= i < j < |bag[1..]|
      ensures bag[1..][i].key != bag[1..][j].key && !GoesBefore(bag[1..][j].key, bag[1..][i].key)
    {
      assert bag[1..][i] == bag[i + 1] && bag[1..][j] == bag[j + 1];
    }
    forall j | 0 <= j < |bag[1..]| ensures bag[0].key != bag[1..][j].key && !GoesBefore(bag[1..][j].key, bag[0].key) {
      assert bag[1..][j] == bag[j + 1];
    }
  }

  /** A new array index that goes before the first key goes before them all. */
  lemma IndexPrecedes(bag: seq<Prop>, q: Prop)
    requires bag != [] && InPropertyOrder(bag) && !HasKey(bag, q.key) && GoesBefore(q.key, bag[0].key)
    ensures Precedes(q, bag)
  {
    forall j | 0 < j < |bag| ensures !GoesBefore(bag[j].key, q.key) {
      assert !GoesBefore(bag[j].key, bag[0].key);
    }
  }

  /** Assignment keeps an object's keys in the order an ordinary object lists them. */
  lemma {:induction false} AssignKeepsOrder(bag: seq<Prop>, k: string, x: JsValue)
    requires InPropertyOrder(bag)
    ensures InPropertyOrder(Assign(bag, k, x))
    decreases |bag|
  {
    if bag == [] {
    } else {
      UnconsInOrder(bag);
      if bag[0].key == k {
        assert Assign(bag, k, x) == [Prop(k, x)] + bag[1..];
        ConsInOrder(Prop(k, x), bag[1..]);
      } else if GoesBefore(k, bag[0].key) && !HasKey(bag, k) {
        assert Assign(bag, k, x) == [Prop(k, x)] + bag;
        IndexPrecedes(bag, Prop(k, x));
        ConsInOrder(Prop(k, x), bag);
      } else {
        var rest := Assign(bag[1..], k, x);
        AssignKeepsOrder(bag[1..], k, x);
        assert Assign(bag, k, x) == [bag[0]] + rest;
        assert !GoesBefore(k, bag[0].key) by {
          if HasKey(bag, k) {
            var m :| 0 <= m < |bag| && bag[m].key == k;
            assert bag[1..][m - 1] == bag[m];
          }
        }
        forall j | 0 <= j < |rest| ensures bag[0].key != rest[j].key && !GoesBefore(rest[j].key, bag[0].key) {
          assert rest[j] in rest;
          if rest[j].key != k {
            var m :| 0 <= m < |bag[1..]| && bag[1..][m] == rest[j];
          }
        }
        ConsInOrder(bag[0], rest);
      }
    }
  }

  /** `{ ...bag, ...src }`: the properties of `src` assigned in order. */
  function Merge(bag: seq<Prop>, src: seq<Prop>): seq<Prop>
    decreases |src|
  {
    if src == [] then bag else Merge(Assign(bag, src[0].key, src[0].value), src[1..])
  }

  /** A spread keeps an object's keys in the order an ordinary object lists them. */
  lemma {:induction false} MergeKeepsOrder(bag: seq<Prop>, src: seq<Prop>)
    requires InPropertyOrder(bag)
    ensures InPropertyOrder(Merge(bag, src))
    decreases |src|
  {
    if src != [] {
      AssignKeepsOrder(bag, src[0].key, src[0].value);
      MergeKeepsOrder(Assign(bag, src[0].key, src[0].value), src[1..]);
    }
  }

  /** `{ ...{ _generated_employee_id: true }, ...["x"] }` lists the index "0"
      first, although it is assigned last. */
  lemma SpreadListsIndexFirst()
    ensures Merge([Prop("_generated_employee_id", Bool(true))], [Prop("0", Str("x"))])
         == [Prop("0", Str("x")), Prop("_generated_employee_id", Bool(true))]
  {
    assert IsArrayIndex("0") && !IsArrayIndex("_generated_employee_id");
    assert !HasKey([Prop("_generated_employee_id", Bool(true))], "0");
  }

  /** Merging in properties that do not mention `k` leaves `k` as it was. */
  lemma {:induction false} MergeKeeps(bag: seq<Prop>, src: seq<Prop>, k: string)
    requires !HasKey(src, k)
    ensures GetProp(Merge(bag, src), k) == GetProp(bag, k)
    decreases |src|
  {
    if src != [] {
      assert !HasKey(src[1..], k) by {
        forall i | 0 <= i < |src[1..]| ensures src[1..][i].key != k {
          assert src[1..][i] == src[i + 1];
        }
      }
      assert src[0].key != k;
      MergeKeeps(Assign(bag, src[0].key, src[0].value), src[1..], k);
    }
  }

  /** The properties an object spread `{ ...v }` copies out of `v`. */
  function SpreadProps(v: JsValue): seq<Prop>
  {
    match v
    case Obj(props) => props
    case Arr(items) => seq(|items|, i requires 0 <= i < |items| => Prop(NatToString(i), items[i]))
    case _ => []
  }
}
