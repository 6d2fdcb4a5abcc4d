/**
 * The proofHash preimage: stableStringify.
 *
 * Texts are JavaScript strings, sequences of UTF-16 code units.  The serialization is undone by a
 * parser (string syntax as in section 7 of RFC 8259), which makes it injective on values up to key
 * order and undefined-valued keys.
 */
module CanonicalJson {
  import opened Options
  import opened Sorting

  type Unit = u: nat | u < 0x10000

  type Text = seq<Unit>

  /** A field of an object, in insertion order. */
  datatype Field = Field(key: Text, value: Json)

  /** A JavaScript value as stableStringify meets it; numbers are integers. */
  datatype Json =
    | Null
    | Undefined
    | Bool(b: bool)
    | Num(n: int)
    | Str(s: Text)
    | Arr(elems: seq<Json>)
    | Obj(fields: seq<Field>)

  const QUOTE: Unit := 34
  const COMMA: Unit := 44
  const MINUS: Unit := 45
  const ZERO: Unit := 48
  const COLON: Unit := 58
  const OPEN_BRACKET: Unit := 91
  const BACKSLASH: Unit := 92
  const CLOSE_BRACKET: Unit := 93
  const LOWER_U: Unit := 117
  const OPEN_BRACE: Unit := 123
  const CLOSE_BRACE: Unit := 125

  const NULL: Text := [110, 117, 108, 108]
  const TRUE: Text := [116, 114, 117, 101]
  const FALSE: Text := [102, 97, 108, 115, 101]

  // ---- JSON.stringify of strings and numbers -------------------------------------------------

  predicate IsLead(u: Unit) {
    0xD800 <= u < 0xDC00
  }

  predicate IsTrail(u: Unit) {
    0xDC00 <= u < 0xE000
  }

  function HexDigit(d: nat): Unit
    requires d < 16
  {
    if d < 10 then 48 + d else 87 + d
  }

  /** `\uXXXX` in lower case. */
  function UnicodeEscape(u: Unit): Text {
    [BACKSLASH, LOWER_U, HexDigit(u / 16 / 16 / 16), HexDigit(u / 16 / 16 % 16), HexDigit(u / 16 % 16), HexDigit(u % 16)]
  }

  function EscapeUnit(u: Unit): Text {
    if u == 8 then [BACKSLASH, 98]
    else if u == 9 then [BACKSLASH, 116]
    else if u == 10 then [BACKSLASH, 110]
    else if u == 12 then [BACKSLASH, 102]
    else if u == 13 then [BACKSLASH, 114]
    else if u == QUOTE || u == BACKSLASH then [BACKSLASH, u]
    else if u < 32 || IsLead(u) || IsTrail(u) then UnicodeEscape(u)
    else [u]
  }

  predicate StartsWithPair(s: Text) {
    |s| > 1 && IsLead(s[0]) && IsTrail(s[1])
  }

  /** Well-formed JSON.stringify: a surrogate pair is literal, a lone surrogate is escaped. */
  function Escape(s: Text): Text {
    if s == [] then []
    else if StartsWithPair(s) then [s[0], s[1]] + Escape(s[2..])
    else EscapeUnit(s[0]) + Escape(s[1..])
  }

  function Quote(s: Text): Text {
    [QUOTE] + Escape(s) + [QUOTE]
  }

  function Digits(n: nat): (t: Text)
    ensures t != []
  {
    if n < 10 then [ZERO + n] else Digits(n / 10) + [ZERO + n % 10]
  }

  function Number(n: int): Text {
    if n < 0 then [MINUS] + Digits(-n) else Digits(n)
  }

  // ---- stableStringify -----------------------------------------------------------------------

  /** JavaScript's default sort order on strings: by code units. */
  predicate TextLe(a: Text, b: Text) {
    a == [] || (b != [] && (a[0] < b[0] || (a[0] == b[0] && TextLe(a[1..], b[1..]))))
  }

  predicate FieldLe(f: Field, g: Field) {
    TextLe(f.key, g.key)
  }

  /** The fields whose value is not undefined. */
  function Defined(fs: seq<Field>): (r: seq<Field>)
    ensures forall f :: f in r <==> f in fs && !f.value.Undefined?
  {
    if fs == [] then []
    else (if fs[0].value.Undefined? then [] else [fs[0]]) + Defined(fs[1..])
  }

  /** The fields in the order they are written. */
  function Ordered(fs: seq<Field>): seq<Field> {
    Sort(FieldLe, Defined(fs))
  }

  lemma {:induction false} TextLeTotal(a: Text, b: Text)
    ensures TextLe(a, b) || TextLe(b, a)
    ensures TextLe(a, b) && TextLe(b, a) ==> a == b
  {
    if a != [] && b != [] {
      TextLeTotal(a[1..], b[1..]);
      if a[0] == b[0] && a[1..] == b[1..] {
        assert a == [a[0]] + a[1..] == b;
      }
    }
  }

  lemma {:induction false} TextLeTransitive(a: Text, b: Text, c: Text)
    requires TextLe(a, b) && TextLe(b, c)
    ensures TextLe(a, c)
  {
    if a != [] && a[0] == b[0] == c[0] {
      TextLeTransitive(a[1..], b[1..], c[1..]);
    }
  }

  /** At the first unit where two keys differ the smaller unit comes first; a prefix comes before its extensions. */
  lemma {:induction false} TextLeByUnits(a: Text, b: Text, k: nat)
    requires k <= |a| && k <= |b| && a[..k] == b[..k]
    ensures k == |a| ==> TextLe(a, b)
    ensures k < |a| && k < |b| && a[k] != b[k] ==> (TextLe(a, b) <==> a[k] < b[k])
  {
    if k > 0 {
      assert a[0] == a[..k][0] == b[..k][0] == b[0];
      assert a[1..][..k - 1] == a[..k][1..] == b[..k][1..] == b[1..][..k - 1];
      TextLeByUnits(a[1..], b[1..], k - 1);
    }
  }

  lemma FieldLeIsOrder()
    ensures TotalPreorder(FieldLe)
  {
    forall f, g ensures FieldLe(f, g) || FieldLe(g, f) {
      TextLeTotal(f.key, g.key);
    }
    forall f, g, h | FieldLe(f, g) && FieldLe(g, h) ensures FieldLe(f, h) {
      TextLeTransitive(f.key, g.key, h.key);
    }
  }

  lemma OrderedElements(fs: seq<Field>)
    ensures forall f :: f in Ordered(fs) <==> f in fs && !f.value.Undefined?
    ensures SortedBy(FieldLe, Ordered(fs))
  {
    FieldLeIsOrder();
    SortOk(FieldLe, Defined(fs));
  }

  /** A written field is one of the object's own, so its value is a part of the object. */
  lemma OrderedPart(v: Json, i: nat)
    requires v.Obj? && i < |Ordered(v.fields)|
    ensures Ordered(v.fields)[i] in v.fields && Ordered(v.fields)[i].value < v
  {
    OrderedElements(v.fields);
    assert Ordered(v.fields)[i] in Ordered(v.fields);
    var j :| 0 <= j < |v.fields| && v.fields[j] == Ordered(v.fields)[i];
  }

  /** Array.join with a comma. */
  function Join(parts: seq<Text>): Text {
    if parts == [] then []
    else if |parts| == 1 then parts[0]
    else parts[0] + [COMMA] + Join(parts[1..])
  }

  /** stableStringify; an undefined array element is what Array.join makes of it, nothing. */
  function StableStringify(v: Json): Text
    decreases v, 1
  {
    match v
    case Null => NULL
    case Undefined => []
    case Bool(b) => if b then TRUE else FALSE
    case Num(n) => Number(n)
    case Str(s) => Quote(s)
    case Arr(_) => [OPEN_BRACKET] + Join(Parts(v)) + [CLOSE_BRACKET]
    case Obj(_) => [OPEN_BRACE] + Join(Parts(v)) + [CLOSE_BRACE]
  }

  /** The texts an array or an object joins. */
  function Parts(v: Json): seq<Text>
    requires v.Arr? || v.Obj?
    decreases v, 0
  {
    if v.Arr? then
      seq(|v.elems|, i requires 0 <= i < |v.elems| => StableStringify(v.elems[i]))
    else
      var fs := Ordered(v.fields);
      seq(|fs|, i requires 0 <= i < |fs| =>
        OrderedPart(v, i);
        Quote(fs[i].key) + [COLON] + StableStringify(fs[i].value))
  }

  // ---- Values up to key order and undefined-valued keys ---------------------------------------

  /** No object has a key twice. */
  predicate Keyed(v: Json) {
    match v
    case Arr(elems) => forall e | e in elems :: Keyed(e)
    case Obj(fields) => DistinctKeys(fields) && forall f | f in fields :: Keyed(f.value)
    case _ => true
  }

  /** Somewhere in what is written there is an array with one element, which is undefined. */
  predicate HasHole(v: Json) {
    match v
    case Arr(elems) => elems == [Undefined] || exists e :: e in elems && HasHole(e)
    case Obj(fields) => exists f :: f in fields && HasHole(f.value)
    case _ => false
  }

  /** Values that are told apart: objects as they are, and undefined anywhere but alone in an array. */
  predicate Valid(v: Json) {
    !v.Undefined? && Keyed(v) && !HasHole(v)
  }

  /** The value an object holds under a key, if that is not undefined. */
  function Get(fs: seq<Field>, k: Text): (r: Option<Json>)
    ensures r.Some? ==> Field(k, r.value) in fs && !r.value.Undefined?
    ensures r.None? ==> forall f | f in fs :: f.key != k || f.value.Undefined?
  {
    if fs == [] then None
    else if fs[0].key == k && !fs[0].value.Undefined? then Some(fs[0].value)
    else Get(fs[1..], k)
  }

  lemma FieldPart(v: Json, f: Field)
    requires v.Obj? && f in v.fields
    ensures f.value < v
  {
    var i :| 0 <= i < |v.fields| && v.fields[i] == f;
  }

  /** Agreement up to the order of keys and to keys whose value is undefined. */
  ghost predicate Same(a: Json, b: Json) {
    if a.Arr? && b.Arr? then
      |a.elems| == |b.elems| && forall i | 0 <= i < |a.elems| :: Same(a.elems[i], b.elems[i])
    else if a.Obj? && b.Obj? then
      forall k: Text ::
        var x, y := Get(a.fields, k), Get(b.fields, k);
        if x.Some? && y.Some? then (FieldPart(a, Field(k, x.value)); Same(x.value, y.value)) else x.None? && y.None?
    else
      a == b
  }

  /** The normal form: every object without its undefined fields and with its keys ascending. */
  function Canon(v: Json): (c: Json)
    ensures c.Undefined? <==> v.Undefined?
    ensures v.Arr? ==> c.Arr? && |c.elems| == |v.elems|
    ensures v.Obj? ==> c.Obj? && |c.fields| == |Ordered(v.fields)|
  {
    match v
    case Arr(elems) => Arr(seq(|elems|, i requires 0 <= i < |elems| => Canon(elems[i])))
    case Obj(fields) =>
      var fs := Ordered(fields);
      Obj(seq(|fs|, i requires 0 <= i < |fs| => OrderedPart(v, i); Field(fs[i].key, Canon(fs[i].value))))
    case _ => v
  }

  /** The text depends on the normal form only. */
  lemma {:induction false} CanonDetermines(a: Json, b: Json)
    requires Canon(a) == Canon(b)
    ensures StableStringify(a) == StableStringify(b)
    decreases a
  {
    match a
    case Arr(xs) =>
      forall i | 0 <= i < |xs| ensures Parts(a)[i] == Parts(b)[i] {
        assert Canon(a).elems[i] == Canon(b).elems[i];
        CanonDetermines(xs[i], b.elems[i]);
      }
      assert Parts(a) == Parts(b);
    case Obj(_) =>
      var fs, gs := Ordered(a.fields), Ordered(b.fields);
      forall i | 0 <= i < |fs| ensures Parts(a)[i] == Parts(b)[i] {
        assert Canon(a).fields[i] == Canon(b).fields[i];
        OrderedPart(a, i);
        CanonDetermines(fs[i].value, gs[i].value);
      }
      assert Parts(a) == Parts(b);
    case _ =>
  }

  // ---- The normal form is unique ---------------------------------------------------------------

  predicate DistinctKeys(fs: seq<Field>) {
    forall i, j | 0 <= i < j < |fs| :: fs[i].key != fs[j].key
  }

  predicate Ascending(fs: seq<Field>) {
    forall i, j | 0 <= i < j < |fs| :: FieldLe(fs[i], fs[j]) && fs[i].key != fs[j].key
  }

  lemma {:induction false} InsertDistinct(x: Field, fs: seq<Field>)
    requires DistinctKeys(fs) && forall f | f in fs :: f.key != x.key
    ensures DistinctKeys(Insert(FieldLe, x, fs))
  {
    if fs != [] && !FieldLe(x, fs[0]) {
      InsertDistinct(x, fs[1..]);
      InsertElements(FieldLe, x, fs[1..]);
      var r := Insert(FieldLe, x, fs[1..]);
      forall f | f in r ensures f.key != fs[0].key {
        assert f in multiset(r);
      }
    }
  }

  lemma {:induction false} SortDistinct(fs: seq<Field>)
    requires DistinctKeys(fs)
    ensures DistinctKeys(Sort(FieldLe, fs))
  {
    if fs != [] {
      SortDistinct(fs[1..]);
      FieldLeIsOrder();
      SortOk(FieldLe, fs[1..]);
      InsertDistinct(fs[0], Sort(FieldLe, fs[1..]));
    }
  }

  lemma {:induction false} DefinedDistinct(fs: seq<Field>)
    requires DistinctKeys(fs)
    ensures DistinctKeys(Defined(fs))
  {
    if fs != [] {
      DefinedDistinct(fs[1..]);
      assert forall f | f in Defined(fs[1..]) :: f.key != fs[0].key;
    }
  }

  lemma OrderedAscending(fs: seq<Field>)
    requires DistinctKeys(fs)
    ensures Ascending(Ordered(fs))
  {
    DefinedDistinct(fs);
    SortDistinct(Defined(fs));
    OrderedElements(fs);
  }

  /** A strictly ascending list is determined by its elements. */
  lemma {:induction false} AscendingUnique(fs: seq<Field>, gs: seq<Field>)
    requires Ascending(fs) && Ascending(gs)
    requires forall f :: f in fs <==> f in gs
    ensures fs == gs
  {
    assert forall i | 0 <= i < |fs| :: fs[i] in gs;
    assert forall i | 0 <= i < |gs| :: gs[i] in fs;
    if fs != [] && gs != [] {
      TextLeTotal(fs[0].key, gs[0].key);
      forall f ensures f in fs[1..] <==> f in gs[1..] {
        assert f in fs <==> f == fs[0] || f in fs[1..];
        assert f in gs <==> f == gs[0] || f in gs[1..];
      }
      AscendingUnique(fs[1..], gs[1..]);
      assert fs == [fs[0]] + fs[1..] && gs == [gs[0]] + gs[1..];
    }
  }

  lemma CanonField(v: Json, f: Field)
    requires v.Obj? && f in v.fields && !f.value.Undefined?
    ensures Field(f.key, Canon(f.value)) in Canon(v).fields
  {
    OrderedElements(v.fields);
    var i :| 0 <= i < |Ordered(v.fields)| && Ordered(v.fields)[i] == f;
    assert Canon(v).fields[i] == Field(f.key, Canon(f.value));
  }

  lemma CanonAscending(v: Json)
    requires v.Obj? && Keyed(v)
    ensures Ascending(Canon(v).fields)
  {
    OrderedAscending(v.fields);
    var fs, cs := Ordered(v.fields), Canon(v).fields;
    assert forall i | 0 <= i < |cs| :: cs[i].key == fs[i].key;
  }

  /** With distinct keys, Get finds every defined field. */
  lemma GetField(v: Json, f: Field)
    requires v.Obj? && Keyed(v) && f in v.fields && !f.value.Undefined?
    ensures Get(v.fields, f.key) == Some(f.value)
  {
    var r := Get(v.fields, f.key);
    var g := Field(f.key, r.value);
    var i :| 0 <= i < |v.fields| && v.fields[i] == f;
    var j :| 0 <= j < |v.fields| && v.fields[j] == g;
  }

  /** The fields of the normal form are the normal forms of what Get finds. */
  lemma CanonGet(v: Json, c: Field)
    requires v.Obj? && Keyed(v)
    ensures c in Canon(v).fields <==> exists x :: Get(v.fields, c.key) == Some(x) && c.value == Canon(x)
  {
    var fs, cs := Ordered(v.fields), Canon(v).fields;
    OrderedElements(v.fields);
    if c in cs {
      var i :| 0 <= i < |cs| && cs[i] == c;
      assert fs[i] in fs;
      GetField(v, fs[i]);
    }
    if x :| Get(v.fields, c.key) == Some(x) && c.value == Canon(x) {
      CanonField(v, Field(c.key, x));
    }
  }

  /** Values that agree have one normal form. */
  lemma {:induction false} SameHasOneCanon(a: Json, b: Json)
    requires Keyed(a) && Keyed(b) && Same(a, b)
    ensures Canon(a) == Canon(b)
    decreases a
  {
    if a.Arr? && b.Arr? {
      forall i | 0 <= i < |a.elems| ensures Canon(a).elems[i] == Canon(b).elems[i] {
        SameHasOneCanon(a.elems[i], b.elems[i]);
      }
      assert Canon(a).elems == Canon(b).elems;
    } else if a.Obj? && b.Obj? {
      forall c: Field ensures c in Canon(a).fields <==> c in Canon(b).fields {
        CanonGet(a, c);
        CanonGet(b, c);
        SameAt(a, b, c.key);
      }
      CanonAscending(a);
      CanonAscending(b);
      AscendingUnique(Canon(a).fields, Canon(b).fields);
    }
  }

  lemma {:induction false} SameAt(a: Json, b: Json, k: Text)
    requires a.Obj? && b.Obj? && Keyed(a) && Keyed(b) && Same(a, b)
    ensures Get(a.fields, k).Some? <==> Get(b.fields, k).Some?
    ensures Get(a.fields, k).Some? ==> Canon(Get(a.fields, k).value) == Canon(Get(b.fields, k).value)
    decreases a, 0
  {
    var x, y := Get(a.fields, k), Get(b.fields, k);
    if x.Some? && y.Some? {
      FieldPart(a, Field(k, x.value));
      SameHasOneCanon(x.value, y.value);
    }
  }

  /** Values with one normal form agree. */
  lemma {:induction false} CanonIsSame(a: Json, b: Json)
    requires Keyed(a) && Keyed(b) && Canon(a) == Canon(b)
    ensures Same(a, b)
    decreases a
  {
    if a.Arr? && b.Arr? {
      forall i | 0 <= i < |a.elems| ensures Same(a.elems[i], b.elems[i]) {
        assert Canon(a).elems[i] == Canon(b).elems[i];
        CanonIsSame(a.elems[i], b.elems[i]);
      }
    } else if a.Obj? && b.Obj? {
      forall k: Text
        ensures Get(a.fields, k).Some? <==> Get(b.fields, k).Some?
        ensures Get(a.fields, k).Some? ==> Same(Get(a.fields, k).value, Get(b.fields, k).value)
      {
        CanonIsSameAt(a, b, k);
      }
    }
  }

  lemma {:induction false} CanonIsSameAt(a: Json, b: Json, k: Text)
    requires a.Obj? && b.Obj? && Keyed(a) && Keyed(b) && Canon(a) == Canon(b)
    ensures Get(a.fields, k).Some? <==> Get(b.fields, k).Some?
    ensures Get(a.fields, k).Some? ==> Same(Get(a.fields, k).value, Get(b.fields, k).value)
    decreases a, 0
  {
    var x, y := Get(a.fields, k), Get(b.fields, k);
    if x.Some? {
      CanonGet(a, Field(k, Canon(x.value)));
      CanonGet(b, Field(k, Canon(x.value)));
      FieldPart(a, Field(k, x.value));
      CanonIsSame(x.value, y.value);
    } else if y.Some? {
      CanonGet(a, Field(k, Canon(y.value)));
      CanonGet(b, Field(k, Canon(y.value)));
    }
  }

  // ---- A parser that undoes the serialization --------------------------------------------------

  /** A parsed part of a text and what follows it. */
  datatype Parsed<+T> = Parsed(value: T, rest: Text)

  predicate IsDigit(u: Unit) {
    48 <= u < 58
  }

  function HexValue(u: Unit): Option<nat> {
    if IsDigit(u) then Some(u - 48) else if 97 <= u < 103 then Some(u - 87) else None
  }

  /** The unit a two-unit escape stands for. */
  function Unescape(u: Unit): Option<Unit> {
    if u == 98 then Some(8)
    else if u == 116 then Some(9)
    else if u == 110 then Some(10)
    else if u == 102 then Some(12)
    else if u == 114 then Some(13)
    else if u == QUOTE || u == BACKSLASH then Some(u)
    else None
  }

  function FromHex(a: Unit, b: Unit, c: Unit, d: Unit): (r: Option<nat>)
    ensures r.Some? ==> r.value < 0x10000
  {
    match (HexValue(a), HexValue(b), HexValue(c), HexValue(d))
    case (Some(w), Some(x), Some(y), Some(z)) => Some(16 * (16 * (16 * w + x) + y) + z)
    case _ => None
  }

  /** One character of a string body. */
  function ParseUnit(t: Text): (r: Option<Parsed<Unit>>)
    ensures r.Some? ==> |r.value.rest| < |t|
  {
    if t == [] || t[0] == QUOTE then None
    else if t[0] != BACKSLASH then Some(Parsed(t[0], t[1..]))
    else if |t| >= 6 && t[1] == LOWER_U then
      var h := FromHex(t[2], t[3], t[4], t[5]);
      if h.Some? then Some(Parsed(h.value, t[6..])) else None
    else if |t| >= 2 && Unescape(t[1]).Some? then Some(Parsed(Unescape(t[1]).value, t[2..]))
    else None
  }

  /** A string body up to and including its closing quote. */
  function ParseString(t: Text): (r: Option<Parsed<Text>>)
    ensures r.Some? ==> |r.value.rest| < |t|
    decreases |t|
  {
    if t != [] && t[0] == QUOTE then Some(Parsed([], t[1..]))
    else match ParseUnit(t)
      case None => None
      case Some(u) =>
        match ParseString(u.rest)
        case None => None
        case Some(s) => Some(Parsed([u.value] + s.value, s.rest))
  }

  function ParseNat(t: Text, acc: nat): (r: Parsed<nat>)
    ensures |r.rest| <= |t| && (t != [] && IsDigit(t[0]) ==> |r.rest| < |t|)
    decreases |t|
  {
    if t != [] && IsDigit(t[0]) then ParseNat(t[1..], 10 * acc + t[0] - 48) else Parsed(acc, t)
  }

  function ParseLiteral(t: Text): (r: Option<Parsed<Json>>)
    ensures r.Some? ==> |r.value.rest| < |t|
  {
    if NULL <= t then Some(Parsed(Null, t[4..]))
    else if TRUE <= t then Some(Parsed(Bool(true), t[4..]))
    else if FALSE <= t then Some(Parsed(Bool(false), t[5..]))
    else None
  }

  function ParseNumber(t: Text): (r: Parsed<Json>)
    requires t != [] && (t[0] == MINUS || IsDigit(t[0]))
    ensures |r.rest| < |t|
  {
    var n := ParseNat(if t[0] == MINUS then t[1..] else t, 0);
    Parsed(Num(if t[0] == MINUS then 0 - n.value else n.value), n.rest)
  }

  function ParseValue(t: Text): (r: Option<Parsed<Json>>)
    ensures r.Some? ==> |r.value.rest| < |t|
    decreases |t|, 0
  {
    if t == [] then None
    else if t[0] == QUOTE then
      match ParseString(t[1..])
      case None => None
      case Some(s) => Some(Parsed(Str(s.value), s.rest))
    else if t[0] == MINUS || IsDigit(t[0]) then Some(ParseNumber(t))
    else if t[0] == OPEN_BRACKET then
      if |t| > 1 && t[1] == CLOSE_BRACKET then Some(Parsed(Arr([]), t[2..]))
      else match ParseElems(t[1..])
        case None => None
        case Some(es) => Some(Parsed(Arr(es.value), es.rest))
    else if t[0] == OPEN_BRACE then
      if |t| > 1 && t[1] == CLOSE_BRACE then Some(Parsed(Obj([]), t[2..]))
      else match ParseFields(t[1..])
        case None => None
        case Some(fs) => Some(Parsed(Obj(fs.value), fs.rest))
    else ParseLiteral(t)
  }

  /** An element, or nothing, which is undefined. */
  function ParseElem(t: Text): (r: Option<Parsed<Json>>)
    ensures r.Some? ==> |r.value.rest| <= |t|
    decreases |t|, 1
  {
    if t != [] && (t[0] == COMMA || t[0] == CLOSE_BRACKET) then Some(Parsed(Undefined, t)) else ParseValue(t)
  }

  /** One or more elements and the closing bracket. */
  function ParseElems(t: Text): (r: Option<Parsed<seq<Json>>>)
    ensures r.Some? ==> |r.value.rest| < |t|
    decreases |t|, 2
  {
    match ParseElem(t)
    case None => None
    case Some(e) =>
      if e.rest == [] then None
      else if e.rest[0] == CLOSE_BRACKET then Some(Parsed([e.value], e.rest[1..]))
      else if e.rest[0] != COMMA then None
      else match ParseElems(e.rest[1..])
        case None => None
        case Some(es) => Some(Parsed([e.value] + es.value, es.rest))
  }

  function ParseField(t: Text): (r: Option<Parsed<Field>>)
    ensures r.Some? ==> |r.value.rest| < |t|
    decreases |t|, 0
  {
    if t == [] || t[0] != QUOTE then None
    else match ParseString(t[1..])
      case None => None
      case Some(k) =>
        if k.rest == [] || k.rest[0] != COLON then None
        else match ParseValue(k.rest[1..])
          case None => None
          case Some(v) => Some(Parsed(Field(k.value, v.value), v.rest))
  }

  /** One or more fields and the closing brace. */
  function ParseFields(t: Text): (r: Option<Parsed<seq<Field>>>)
    ensures r.Some? ==> |r.value.rest| < |t|
    decreases |t|, 1
  {
    match ParseField(t)
    case None => None
    case Some(f) =>
      if f.rest == [] then None
      else if f.rest[0] == CLOSE_BRACE then Some(Parsed([f.value], f.rest[1..]))
      else if f.rest[0] != COMMA then None
      else match ParseFields(f.rest[1..])
        case None => None
        case Some(fs) => Some(Parsed([f.value] + fs.value, fs.rest))
  }

  // ---- The round trip --------------------------------------------------------------------------

  lemma Assoc(a: Text, b: Text, c: Text)
    ensures (a + b) + c == a + (b + c)
  {
  }

  lemma FromIndex<T>(s: seq<T>, k: nat)
    requires k < |s|
    ensures s[k..] == if k + 1 == |s| then [s[k]] else [s[k]] + s[k + 1..]
  {
  }

  /** What follows the opening unit of an enclosed text. */
  lemma Enclose(open: Unit, t: Text, close: Unit, rest: Text)
    ensures [open] + t + [close] + rest == [open] + (t + ([close] + rest))
    ensures ([open] + t + [close] + rest)[1..] == t + ([close] + rest)
  {
    Assoc([open] + t, [close], rest);
    Assoc([open], t, [close] + rest);
    AfterFirst(open, t + ([close] + rest));
  }

  lemma AfterFirst(u: Unit, t: Text)
    ensures ([u] + t)[0] == u && ([u] + t)[1..] == t
  {
  }

  lemma HexRoundTrip(u: Unit)
    ensures FromHex(HexDigit(u / 16 / 16 / 16), HexDigit(u / 16 / 16 % 16), HexDigit(u / 16 % 16), HexDigit(u % 16))
         == Some(u)
  {
  }

  lemma UnitRoundTrip(u: Unit, rest: Text)
    ensures ParseUnit(EscapeUnit(u) + rest) == Some(Parsed(u, rest))
    ensures EscapeUnit(u)[0] != QUOTE
  {
    if EscapeUnit(u) == UnicodeEscape(u) {
      HexRoundTrip(u);
      SixUnits(BACKSLASH, LOWER_U, HexDigit(u / 16 / 16 / 16), HexDigit(u / 16 / 16 % 16), HexDigit(u / 16 % 16),
               HexDigit(u % 16), rest);
    } else if EscapeUnit(u) == [u] {
      AfterFirst(u, rest);
    } else {
      TwoUnits(BACKSLASH, EscapeUnit(u)[1], rest);
    }
  }

  lemma TwoUnits(a: Unit, b: Unit, rest: Text)
    ensures var t := [a, b] + rest; t[0] == a && t[1] == b && t[2..] == rest
  {
  }

  lemma SixUnits(a: Unit, b: Unit, c: Unit, d: Unit, e: Unit, f: Unit, rest: Text)
    ensures var t := [a, b, c, d, e, f] + rest;
            t[0] == a && t[1] == b && t[2] == c && t[3] == d && t[4] == e && t[5] == f && t[6..] == rest
  {
  }

  /** One step of ParseString. */
  lemma StringStep(t: Text, u: Unit, s: Text, rest: Text)
    requires t != [] && t[0] != QUOTE && ParseUnit(t).Some? && ParseUnit(t).value.value == u
    requires ParseString(ParseUnit(t).value.rest) == Some(Parsed(s, rest))
    ensures ParseString(t) == Some(Parsed([u] + s, rest))
  {
  }

  lemma PairStep(s: Text, rest: Text, t: Text)
    requires StartsWithPair(s) && ParseString(t) == Some(Parsed(s[2..], rest))
    ensures ParseString([s[0]] + ([s[1]] + t)) == Some(Parsed(s, rest))
  {
    AfterFirst(s[1], t);
    StringStep([s[1]] + t, s[1], s[2..], rest);
    AfterFirst(s[0], [s[1]] + t);
    StringStep([s[0]] + ([s[1]] + t), s[0], [s[1]] + s[2..], rest);
    assert s == [s[0]] + ([s[1]] + s[2..]);
  }

  lemma UnitStep(s: Text, rest: Text, t: Text)
    requires s != [] && ParseString(t) == Some(Parsed(s[1..], rest))
    ensures ParseString(EscapeUnit(s[0]) + t) == Some(Parsed(s, rest))
  {
    UnitRoundTrip(s[0], t);
    StringStep(EscapeUnit(s[0]) + t, s[0], s[1..], rest);
    assert s == [s[0]] + s[1..];
  }

  lemma EscapeStep(s: Text, end: Text)
    requires s != []
    ensures StartsWithPair(s) ==> Escape(s) + end == [s[0]] + ([s[1]] + (Escape(s[2..]) + end))
    ensures !StartsWithPair(s) ==> Escape(s) + end == EscapeUnit(s[0]) + (Escape(s[1..]) + end)
  {
    if StartsWithPair(s) {
      Assoc([s[0], s[1]], Escape(s[2..]), end);
      Assoc([s[0]], [s[1]], Escape(s[2..]) + end);
    } else {
      Assoc(EscapeUnit(s[0]), Escape(s[1..]), end);
    }
  }

  lemma {:induction false} StringRoundTrip(s: Text, rest: Text)
    ensures ParseString(Escape(s) + ([QUOTE] + rest)) == Some(Parsed(s, rest))
    decreases |s|
  {
    var end := [QUOTE] + rest;
    if s == [] {
      assert Escape(s) + end == end;
      AfterFirst(QUOTE, rest);
    } else if StartsWithPair(s) {
      StringRoundTrip(s[2..], rest);
      PairStep(s, rest, Escape(s[2..]) + end);
      EscapeStep(s, end);
    } else {
      StringRoundTrip(s[1..], rest);
      UnitStep(s, rest, Escape(s[1..]) + end);
      EscapeStep(s, end);
    }
  }

  lemma {:induction false} NatRoundTrip(n: nat, rest: Text)
    ensures ParseNat(Digits(n) + rest, 0) == ParseNat(rest, n)
    ensures IsDigit(Digits(n)[0])
  {
    if n < 10 {
      assert (Digits(n) + rest)[1..] == rest;
    } else {
      var last: Text := [ZERO + n % 10];
      Assoc(Digits(n / 10), last, rest);
      NatRoundTrip(n / 10, last + rest);
      AfterFirst(ZERO + n % 10, rest);
    }
  }

  /** A value's text starts with none of the separators. */
  lemma FirstUnit(v: Json)
    requires !v.Undefined?
    ensures StableStringify(v) != [] && StableStringify(v)[0] != CLOSE_BRACKET && StableStringify(v)[0] != COMMA
  {
    if v.Num? {
      NatRoundTrip(if v.n < 0 then -v.n else v.n, []);
    }
  }

  ghost predicate NoDigit(t: Text) {
    t != [] ==> !IsDigit(t[0])
  }

  lemma NumberRoundTrip(n: int, rest: Text)
    requires NoDigit(rest)
    ensures Number(n)[0] == MINUS || IsDigit(Number(n)[0])
    ensures ParseNumber(Number(n) + rest) == Parsed(Num(n), rest)
  {
    var m := if n < 0 then -n else n;
    NatRoundTrip(m, rest);
    if n < 0 {
      Assoc([MINUS], Digits(m), rest);
      AfterFirst(MINUS, Digits(m) + rest);
    }
  }

  lemma QuoteRoundTrip(s: Text, rest: Text)
    ensures (Quote(s) + rest)[0] == QUOTE
    ensures ParseString((Quote(s) + rest)[1..]) == Some(Parsed(s, rest))
  {
    StringRoundTrip(s, rest);
    Enclose(QUOTE, Escape(s), QUOTE, rest);
  }

  /** The parser undoes the serialization and yields the normal form, whatever follows a value. */
  lemma {:induction false} ValueRoundTrip(v: Json, rest: Text)
    requires !v.Undefined? && !HasHole(v) && NoDigit(rest)
    ensures ParseValue(StableStringify(v) + rest) == Some(Parsed(Canon(v), rest))
    decreases v, 2
  {
    match v
    case Null => LiteralRoundTrip(v, rest);
    case Bool(_) => LiteralRoundTrip(v, rest);
    case Num(n) => NumberRoundTrip(n, rest);
    case Str(s) => QuoteRoundTrip(s, rest);
    case Arr(_) => ArrayRoundTrip(v, rest);
    case Obj(_) => ObjectRoundTrip(v, rest);
  }

  lemma LiteralRoundTrip(v: Json, rest: Text)
    requires v.Null? || v.Bool?
    ensures ParseValue(StableStringify(v) + rest) == Some(Parsed(v, rest))
  {
    var t := StableStringify(v) + rest;
    assert NULL[0] == 110 && TRUE[0] == 116 && FALSE[0] == 102;
    assert t[|StableStringify(v)|..] == rest;
    assert t[0] == StableStringify(v)[0];
  }

  lemma {:induction false} ArrayRoundTrip(v: Json, rest: Text)
    requires v.Arr? && !HasHole(v)
    ensures ParseValue(StableStringify(v) + rest) == Some(Parsed(Canon(v), rest))
    decreases v, 1, |v.elems| + 1
  {
    var t := StableStringify(v) + rest;
    if v.elems == [] {
      assert Parts(v) == [] && Canon(v).elems == [];
      assert t[2..] == rest;
    } else {
      ElemsRoundTrip(v, 0, rest);
      FirstOfArray(v);
      assert Parts(v)[0..] == Parts(v) && Canon(v).elems[0..] == Canon(v).elems;
      Enclose(OPEN_BRACKET, Join(Parts(v)), CLOSE_BRACKET, rest);
    }
  }

  /** Unless it is empty, an array does not close right after its opening. */
  lemma FirstOfArray(v: Json)
    requires v.Arr? && !HasHole(v) && v.elems != []
    ensures Join(Parts(v)) != [] && Join(Parts(v))[0] != CLOSE_BRACKET
  {
    assert Parts(v)[0] == StableStringify(v.elems[0]);
    if !v.elems[0].Undefined? {
      FirstUnit(v.elems[0]);
    } else {
      assert |v.elems| != 1;
      assert Join(Parts(v))[0] == COMMA;
    }
  }

  lemma {:induction false} ElemRoundTrip(e: Json, after: Text)
    requires !HasHole(e) && after != [] && (after[0] == COMMA || after[0] == CLOSE_BRACKET)
    ensures ParseElem(StableStringify(e) + after) == Some(Parsed(Canon(e), after))
    decreases e, 3
  {
    if e.Undefined? {
      assert StableStringify(e) + after == after;
    } else {
      FirstUnit(e);
      ValueRoundTrip(e, after);
    }
  }

  /** One step of ParseElems. */
  lemma ElemsStep(t: Text, e: Json, after: Text)
    requires ParseElem(t) == Some(Parsed(e, after)) && after != []
    ensures after[0] == CLOSE_BRACKET ==> ParseElems(t) == Some(Parsed([e], after[1..]))
    ensures after[0] == COMMA && ParseElems(after[1..]).Some? ==>
              var es := ParseElems(after[1..]).value;
              ParseElems(t) == Some(Parsed([e] + es.value, es.rest))
  {
  }

  /** A joined list from its k-th part on, up to the closing unit. */
  lemma JoinStep(parts: seq<Text>, k: nat, after: Text)
    requires k < |parts|
    ensures Join(parts[k..]) + after
         == parts[k] + (if k + 1 == |parts| then after else [COMMA] + (Join(parts[k + 1..]) + after))
  {
    if k + 1 < |parts| {
      assert parts[k..][1..] == parts[k + 1..];
      Assoc(parts[k], [COMMA], Join(parts[k + 1..]));
      Assoc(parts[k], [COMMA] + Join(parts[k + 1..]), after);
      Assoc([COMMA], Join(parts[k + 1..]), after);
    }
  }

  lemma {:induction false} ElemsRoundTrip(v: Json, k: nat, rest: Text)
    requires v.Arr? && !HasHole(v) && k < |v.elems|
    ensures ParseElems(Join(Parts(v)[k..]) + ([CLOSE_BRACKET] + rest)) == Some(Parsed(Canon(v).elems[k..], rest))
    decreases v, 1, |v.elems| - k
  {
    var parts, elems, close := Parts(v), Canon(v).elems, [CLOSE_BRACKET] + rest;
    var after := if k + 1 == |parts| then close else [COMMA] + (Join(parts[k + 1..]) + close);
    JoinStep(parts, k, close);
    ElemRoundTrip(v.elems[k], after);
    ElemsStep(parts[k] + after, elems[k], after);
    FromIndex(elems, k);
    if k + 1 == |parts| {
      AfterFirst(CLOSE_BRACKET, rest);
    } else {
      AfterFirst(COMMA, Join(parts[k + 1..]) + close);
      ElemsRoundTrip(v, k + 1, rest);
    }
  }

  lemma {:induction false} ObjectRoundTrip(v: Json, rest: Text)
    requires v.Obj? && !HasHole(v)
    ensures ParseValue(StableStringify(v) + rest) == Some(Parsed(Canon(v), rest))
    decreases v, 1, |Ordered(v.fields)| + 1
  {
    var t := StableStringify(v) + rest;
    if Ordered(v.fields) == [] {
      assert Parts(v) == [] && Canon(v).fields == [];
      assert t[2..] == rest;
    } else {
      FieldsRoundTrip(v, 0, rest);
      assert Parts(v)[0..] == Parts(v) && Canon(v).fields[0..] == Canon(v).fields;
      Enclose(OPEN_BRACE, Join(Parts(v)), CLOSE_BRACE, rest);
      assert Join(Parts(v))[0] == Parts(v)[0][0] == QUOTE;
    }
  }

  lemma {:induction false} FieldRoundTrip(v: Json, k: nat, rest: Text)
    requires v.Obj? && !HasHole(v) && k < |Ordered(v.fields)| && NoDigit(rest)
    ensures ParseField(Parts(v)[k] + rest) == Some(Parsed(Canon(v).fields[k], rest))
    decreases v, 0
  {
    var f := Ordered(v.fields)[k];
    OrderedPart(v, k);
    OrderedElements(v.fields);
    assert f in Ordered(v.fields);
    var value := StableStringify(f.value) + rest;
    Assoc(Quote(f.key) + [COLON], StableStringify(f.value), rest);
    Assoc(Quote(f.key), [COLON], value);
    QuoteRoundTrip(f.key, [COLON] + value);
    AfterFirst(COLON, value);
    ValueRoundTrip(f.value, rest);
  }

  /** One step of ParseFields. */
  lemma FieldsStep(t: Text, f: Field, after: Text)
    requires ParseField(t) == Some(Parsed(f, after)) && after != []
    ensures after[0] == CLOSE_BRACE ==> ParseFields(t) == Some(Parsed([f], after[1..]))
    ensures after[0] == COMMA && ParseFields(after[1..]).Some? ==>
              var fs := ParseFields(after[1..]).value;
              ParseFields(t) == Some(Parsed([f] + fs.value, fs.rest))
  {
  }

  lemma {:induction false} FieldsRoundTrip(v: Json, k: nat, rest: Text)
    requires v.Obj? && !HasHole(v) && k < |Ordered(v.fields)|
    ensures ParseFields(Join(Parts(v)[k..]) + ([CLOSE_BRACE] + rest)) == Some(Parsed(Canon(v).fields[k..], rest))
    decreases v, 1, |Ordered(v.fields)| - k
  {
    var parts, fields, close := Parts(v), Canon(v).fields, [CLOSE_BRACE] + rest;
    var after := if k + 1 == |parts| then close else [COMMA] + (Join(parts[k + 1..]) + close);
    JoinStep(parts, k, close);
    FieldRoundTrip(v, k, after);
    FieldsStep(parts[k] + after, fields[k], after);
    FromIndex(fields, k);
    if k + 1 == |parts| {
      AfterFirst(CLOSE_BRACE, rest);
    } else {
      AfterFirst(COMMA, Join(parts[k + 1..]) + close);
      FieldsRoundTrip(v, k + 1, rest);
    }
  }

  /** The preimage is canonical and injective. */
  lemma PreimageIsCanonical(a: Json, b: Json)
    requires Valid(a) && Valid(b)
    ensures StableStringify(a) == StableStringify(b) <==> Same(a, b)
  {
    if StableStringify(a) == StableStringify(b) {
      ValueRoundTrip(a, []);
      ValueRoundTrip(b, []);
      CanonIsSame(a, b);
    }
    if Same(a, b) {
      SameHasOneCanon(a, b);
      CanonDetermines(a, b);
    }
  }

  const INNER: Json := Arr([Bool(true), Null])
  const INNER_TEXT: Text := [91, 116, 114, 117, 101, 44, 110, 117, 108, 108, 93]

  lemma InnerText()
    ensures StableStringify(INNER) == INNER_TEXT
  {
    assert Parts(INNER) == [TRUE, NULL];
    assert [TRUE, NULL][1..] == [NULL];
    assert Join([TRUE, NULL]) == TRUE + [COMMA] + NULL;
  }

  lemma FieldText(f: Field, unit: Unit, text: Text)
    requires f.key == [unit] && 97 <= unit < 123 && StableStringify(f.value) == text
    ensures Quote(f.key) + [COLON] + StableStringify(f.value) == [34, unit, 34, 58] + text
  {
    assert Escape(f.key) == [unit] + Escape([]);
  }

  lemma TwoInOrder(a: Field, b: Field, c: Field)
    requires TextLe(a.key, b.key) && a.key != b.key && !a.value.Undefined? && !b.value.Undefined? && c.value.Undefined?
    ensures Ordered([b, a, c]) == [a, b]
  {
    TextLeTotal(a.key, b.key);
    assert [b, a, c][1..] == [a, c] && [a, c][1..] == [c] && [c][1..] == [];
    assert Defined([c]) == Defined([]) == [];
    assert Defined([a, c]) == [a] + Defined([c]) == [a];
    assert Defined([b, a, c]) == [b] + Defined([a, c]) == [b, a];
    assert [b, a][1..] == [a] && [a][1..] == [];
    assert Sort(FieldLe, [a]) == [a];
    assert Insert(FieldLe, b, []) == [b];
  }

  /** An example of the syntax: `{"a":[true,null],"b":-1}` for an object that was written b first. */
  lemma ExampleText()
    ensures StableStringify(Obj([Field([98], Num(-1)), Field([97], INNER), Field([99], Undefined)]))
         == [123] + ([34, 97, 34, 58] + INNER_TEXT) + [44] + [34, 98, 34, 58, 45, 49] + [125]
  {
    var a, b, c := Field([97], INNER), Field([98], Num(-1)), Field([99], Undefined);
    var v := Obj([b, a, c]);
    TwoInOrder(a, b, c);
    InnerText();
    assert Number(-1) == [45, 49];
    FieldText(a, 97, INNER_TEXT);
    FieldText(b, 98, [45, 49]);
    var x, y := [34, 97, 34, 58] + INNER_TEXT, [34, 98, 34, 58] + [45, 49];
    assert Parts(v) == [x, y];
    assert [x, y][1..] == [y];
    assert Join([x, y]) == x + [COMMA] + y;
  }

  // ---- Undefined alone in an array ---------------------------------------------------------------

  /** Every `[undefined]` replaced by `[]`. */
  function Fill(v: Json): (r: Json)
    ensures r.Undefined? <==> v.Undefined?
    ensures v.Obj? ==> r.Obj? && |r.fields| == |v.fields|
  {
    match v
    case Arr(elems) =>
      if elems == [Undefined] then Arr([])
      else Arr(seq(|elems|, i requires 0 <= i < |elems| => Fill(elems[i])))
    case Obj(fields) =>
      Obj(seq(|fields|, i requires 0 <= i < |fields| => Field(fields[i].key, Fill(fields[i].value))))
    case _ => v
  }

  ghost predicate Filled(fs: seq<Field>, gs: seq<Field>) {
    |fs| == |gs| && forall i | 0 <= i < |fs| :: gs[i] == Field(fs[i].key, Fill(fs[i].value))
  }

  lemma {:induction false} DefinedFilled(fs: seq<Field>, gs: seq<Field>)
    requires Filled(fs, gs)
    ensures Filled(Defined(fs), Defined(gs))
  {
    if fs != [] {
      DefinedFilled(fs[1..], gs[1..]);
    }
  }

  lemma {:induction false} InsertFilled(f: Field, g: Field, fs: seq<Field>, gs: seq<Field>)
    requires Filled(fs, gs) && g == Field(f.key, Fill(f.value))
    ensures Filled(Insert(FieldLe, f, fs), Insert(FieldLe, g, gs))
  {
    if fs != [] && !FieldLe(f, fs[0]) {
      InsertFilled(f, g, fs[1..], gs[1..]);
    }
  }

  lemma {:induction false} SortFilled(fs: seq<Field>, gs: seq<Field>)
    requires Filled(fs, gs)
    ensures Filled(Sort(FieldLe, fs), Sort(FieldLe, gs))
  {
    if fs != [] {
      SortFilled(fs[1..], gs[1..]);
      InsertFilled(fs[0], gs[0], Sort(FieldLe, fs[1..]), Sort(FieldLe, gs[1..]));
    }
  }

  /** Filling does not change the text. */
  lemma {:induction false} FillKeepsText(v: Json)
    ensures StableStringify(Fill(v)) == StableStringify(v)
    decreases v
  {
    match v
    case Arr(elems) =>
      if elems == [Undefined] {
        assert Parts(v) == [[]] && Parts(Fill(v)) == [];
      } else {
        forall i | 0 <= i < |elems| ensures Parts(Fill(v))[i] == Parts(v)[i] {
          FillKeepsText(elems[i]);
        }
        assert Parts(Fill(v)) == Parts(v);
      }
    case Obj(fields) =>
      var w := Fill(v);
      assert Filled(fields, w.fields);
      DefinedFilled(fields, w.fields);
      SortFilled(Defined(fields), Defined(w.fields));
      forall i | 0 <= i < |Ordered(fields)| ensures Parts(w)[i] == Parts(v)[i] {
        OrderedPart(v, i);
        FillKeepsText(Ordered(fields)[i].value);
      }
      assert Parts(w) == Parts(v);
    case _ =>
  }

  lemma {:induction false} FillIsWhole(v: Json)
    ensures !HasHole(Fill(v))
    ensures Keyed(v) ==> Keyed(Fill(v))
    decreases v
  {
    match v
    case Arr(elems) =>
      forall i | 0 <= i < |elems| ensures !HasHole(Fill(elems[i])) && (Keyed(v) ==> Keyed(Fill(elems[i]))) {
        FillIsWhole(elems[i]);
      }
    case Obj(fields) =>
      forall i | 0 <= i < |fields|
        ensures !HasHole(Fill(fields[i].value)) && (Keyed(v) ==> Keyed(Fill(fields[i].value)))
      {
        FillIsWhole(fields[i].value);
      }
    case _ =>
  }

  /** On all values: equal texts exactly if the values agree once every `[undefined]` is an `[]`. */
  lemma PreimageUpToHoles(a: Json, b: Json)
    requires Keyed(a) && Keyed(b) && !a.Undefined? && !b.Undefined?
    ensures StableStringify(a) == StableStringify(b) <==> Same(Fill(a), Fill(b))
  {
    FillKeepsText(a);
    FillKeepsText(b);
    FillIsWhole(a);
    FillIsWhole(b);
    PreimageIsCanonical(Fill(a), Fill(b));
  }

  lemma {:induction false} FillChanges(v: Json)
    requires Keyed(v) && HasHole(v)
    ensures !Same(v, Fill(v))
    decreases v
  {
    if v.Arr? {
      if v.elems != [Undefined] {
        var e :| e in v.elems && HasHole(e);
        var i :| 0 <= i < |v.elems| && v.elems[i] == e;
        FillChanges(e);
        assert Fill(v).elems[i] == Fill(e);
      }
    } else {
      var f :| f in v.fields && HasHole(f.value);
      var i :| 0 <= i < |v.fields| && v.fields[i] == f;
      FillChanges(f.value);
      var g := Fill(v).fields[i];
      assert g == Field(f.key, Fill(f.value)) && g in Fill(v).fields;
      FillIsWhole(v);
      GetField(v, f);
      GetField(Fill(v), g);
    }
  }

  /** The restriction is exact: every value with an `[undefined]` shares its text with one that differs. */
  lemma UndefinedElementCollides(v: Json)
    requires Keyed(v)
    ensures HasHole(v) ==> StableStringify(v) == StableStringify(Fill(v)) && !Same(v, Fill(v)) && Keyed(Fill(v))
  {
    FillKeepsText(v);
    FillIsWhole(v);
    if HasHole(v) {
      FillChanges(v);
    }
  }

  // ---- The text is well formed -----------------------------------------------------------------

  /** UTF-16 without lone surrogates, as the UTF-8 conversion before hashing requires. */
  predicate WellFormed(t: Text) {
    if t == [] then true
    else if IsLead(t[0]) then |t| > 1 && IsTrail(t[1]) && WellFormed(t[2..])
    else !IsTrail(t[0]) && WellFormed(t[1..])
  }

  lemma {:induction false} WellFormedConcat(s: Text, t: Text)
    requires WellFormed(s) && WellFormed(t)
    ensures WellFormed(s + t)
  {
    if s == [] {
      assert s + t == t;
    } else if IsLead(s[0]) {
      WellFormedConcat(s[2..], t);
      assert (s + t)[2..] == s[2..] + t;
    } else {
      WellFormedConcat(s[1..], t);
      assert (s + t)[1..] == s[1..] + t;
    }
  }

  lemma {:induction false} PlainIsWellFormed(t: Text)
    requires forall i | 0 <= i < |t| :: t[i] < 0xD800
    ensures WellFormed(t)
  {
    if t != [] {
      PlainIsWellFormed(t[1..]);
    }
  }

  lemma {:induction false} EscapeUnitWellFormed(u: Unit)
    ensures WellFormed(EscapeUnit(u))
  {
    if !(u >= 0xE000) {
      PlainIsWellFormed(EscapeUnit(u));
    }
  }

  lemma {:induction false} EscapeWellFormed(s: Text)
    ensures WellFormed(Escape(s))
  {
    if s == [] {
    } else if |s| > 1 && IsLead(s[0]) && IsTrail(s[1]) {
      EscapeWellFormed(s[2..]);
      assert Escape(s)[2..] == Escape(s[2..]);
    } else {
      EscapeWellFormed(s[1..]);
      EscapeUnitWellFormed(s[0]);
      WellFormedConcat(EscapeUnit(s[0]), Escape(s[1..]));
    }
  }

  lemma Enclosed(first: Unit, t: Text, last: Unit)
    requires first < 128 && last < 128 && WellFormed(t)
    ensures WellFormed([first] + t + [last])
  {
    PlainIsWellFormed([last]);
    WellFormedConcat(t, [last]);
    assert ([first] + t + [last])[1..] == t + [last];
  }

  lemma QuoteWellFormed(s: Text)
    ensures WellFormed(Quote(s))
  {
    EscapeWellFormed(s);
    Enclosed(QUOTE, Escape(s), QUOTE);
  }

  lemma {:induction false} DigitsPlain(n: nat)
    ensures forall i | 0 <= i < |Digits(n)| :: Digits(n)[i] < 0xD800
  {
    if n >= 10 {
      DigitsPlain(n / 10);
    }
  }

  lemma {:induction false} JoinWellFormed(parts: seq<Text>)
    requires forall p | p in parts :: WellFormed(p)
    ensures WellFormed(Join(parts))
  {
    if |parts| > 1 {
      JoinWellFormed(parts[1..]);
      var tail := [COMMA] + Join(parts[1..]);
      assert tail[1..] == Join(parts[1..]);
      WellFormedConcat(parts[0], tail);
      assert Join(parts) == parts[0] + tail;
    }
  }

  lemma {:induction false} PreimageWellFormed(v: Json)
    ensures WellFormed(StableStringify(v))
    decreases v
  {
    match v
    case Str(s) => QuoteWellFormed(s);
    case Num(n) =>
      DigitsPlain(if n < 0 then -n else n);
      PlainIsWellFormed(Number(n));
    case Arr(elems) =>
      forall i | 0 <= i < |elems| ensures WellFormed(Parts(v)[i]) {
        PreimageWellFormed(elems[i]);
      }
      JoinWellFormed(Parts(v));
      Enclosed(OPEN_BRACKET, Join(Parts(v)), CLOSE_BRACKET);
    case Obj(_) =>
      var fs := Ordered(v.fields);
      forall i | 0 <= i < |fs| ensures WellFormed(Parts(v)[i]) {
        OrderedPart(v, i);
        PreimageWellFormed(fs[i].value);
        QuoteWellFormed(fs[i].key);
        PlainIsWellFormed([COLON]);
        WellFormedConcat(Quote(fs[i].key), [COLON]);
        WellFormedConcat(Quote(fs[i].key) + [COLON], StableStringify(fs[i].value));
      }
      JoinWellFormed(Parts(v));
      Enclosed(OPEN_BRACE, Join(Parts(v)), CLOSE_BRACE);
    case _ =>
      PlainIsWellFormed(StableStringify(v));
  }
}
