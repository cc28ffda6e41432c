/**
 The canonical request serializer behind idempotent routes
 (apps/api-gateway/src/lib/v2-idempotency.ts). Its output is compared as the
 identity of a request, so two requests must print alike exactly when they are
 the same request up to the order of object keys.
 */
module Canonical {
  import opened Common
  import opened Text

  /** A parsed body. An object keeps its entries in insertion order. */
  datatype Json =
    | Null
    | Undefined
    | Bool(b: bool)
    | Number(n: int)
    | String(s: Str)
    | Array(items: seq<Json>)
    | Object(fields: seq<Field>)

  datatype Field = Field(key: Str, value: Json)

  // ----- objects as lists of entries

  function KeysOf(fs: seq<Field>): (r: seq<Str>)
    ensures |r| == |fs| && forall i :: 0 <= i < |fs| ==> r[i] == fs[i].key
  {
    seq(|fs|, i requires 0 <= i < |fs| => fs[i].key)
  }

  function Lookup(fs: seq<Field>, k: Str): (v: Json)
    requires k in KeysOf(fs)
    ensures exists i :: 0 <= i < |fs| && fs[i].key == k && fs[i].value == v
  {
    if fs[0].key == k then fs[0].value
    else
      assert k in KeysOf(fs[1..]);
      Lookup(fs[1..], k)
  }

  /** What every JavaScript object satisfies: an own key occurs once, at every depth. */
  ghost predicate WellFormed(v: Json) {
    match v
    case Array(vs) => forall x | x in vs :: WellFormed(x)
    case Object(fs) => Distinct(KeysOf(fs)) && forall f | f in fs :: WellFormed(f.value)
    case _ => true
  }

  /**
   No array in the value is exactly `[undefined]`. Every JSON body satisfies it:
   JSON has no `undefined`, which reaches the serializer only as an absent body.
   */
  ghost predicate NoLoneUndefined(v: Json) {
    match v
    case Array(vs) => vs != [Undefined] && forall x | x in vs :: NoLoneUndefined(x)
    case Object(fs) => forall f | f in fs :: NoLoneUndefined(f.value)
    case _ => true
  }

  /** No array in the value is empty or exactly `[undefined]`; these two print alike. */
  ghost predicate NoBlankArray(v: Json) {
    match v
    case Array(vs) => vs != [] && vs != [Undefined] && forall x | x in vs :: NoBlankArray(x)
    case Object(fs) => forall f | f in fs :: NoBlankArray(f.value)
    case _ => true
  }

  /** Equality up to the order of object keys, at every depth. */
  ghost predicate Same(v: Json, w: Json)
    decreases v
  {
    match (v, w)
    case (Array(vs), Array(ws)) =>
      |vs| == |ws| && forall i | 0 <= i < |vs| :: Same(vs[i], ws[i])
    case (Object(fs), Object(gs)) =>
      && Elements(KeysOf(fs)) == Elements(KeysOf(gs))
      && forall k | k in KeysOf(fs) && k in KeysOf(gs) :: Same(Lookup(fs, k), Lookup(gs, k))
    case _ => v == w
  }

  // ----- JSON.stringify on a string

  predicate HighSurrogate(u: Unit) { 0xD800 <= u < 0xDC00 }

  predicate LowSurrogate(u: Unit) { 0xDC00 <= u < 0xE000 }

  function HexDigit(d: nat): Unit
    requires d < 16
  {
    if d < 10 then 48 + d else 87 + d
  }

  function Hex4(u: Unit): Str {
    [HexDigit(u / 16 / 16 / 16), HexDigit(u / 16 / 16 % 16), HexDigit(u / 16 % 16), HexDigit(u % 16)]
  }

  /** One code unit that is not half of a surrogate pair. */
  function EscapeUnit(u: Unit): (r: Str)
    ensures |r| > 0 && r[0] != QUOTE
  {
    if u == QUOTE || u == BACKSLASH then [BACKSLASH, u]
    else if u == 8 then [BACKSLASH, 98]
    else if u == 9 then [BACKSLASH, 116]
    else if u == 10 then [BACKSLASH, 110]
    else if u == 12 then [BACKSLASH, 102]
    else if u == 13 then [BACKSLASH, 114]
    else if u < 32 || HighSurrogate(u) || LowSurrogate(u) then [BACKSLASH, 117] + Hex4(u)
    else [u]
  }

  predicate StartsPair(s: Str) { |s| > 1 && HighSurrogate(s[0]) && LowSurrogate(s[1]) }

  function Escape(s: Str): Str {
    if s == [] then []
    else if StartsPair(s) then [s[0], s[1]] + Escape(s[2..])
    else EscapeUnit(s[0]) + Escape(s[1..])
  }

  // ----- what the escapes stand for (section 7 of RFC 8259)

  /** The value of a lower-case hexadecimal digit. */
  function HexValue(u: Unit): int {
    if '0' as int <= u <= '9' as int then u - '0' as int else if 'a' as int <= u <= 'f' as int then u - 'a' as int + 10 else -1
  }

  /** What a short escape stands for, by the letter after the backslash. */
  function ShortEscape(letter: Unit): int {
    if letter == '"' as int || letter == '\\' as int then letter
    else if letter == 'b' as int then 0x08
    else if letter == 't' as int then 0x09
    else if letter == 'n' as int then 0x0A
    else if letter == 'f' as int then 0x0C
    else if letter == 'r' as int then 0x0D
    else -1
  }

  predicate Surrogate(u: Unit) { 0xD800 <= u <= 0xDFFF }

  lemma HexDigitValue(n: nat)
    requires n < 16
    ensures HexValue(HexDigit(n)) == n
  {}

  /**
   A unit prints as itself exactly if it is no quotation mark, backslash, control or surrogate; of the
   others each prints as its short escape if it has one, and else as its four hexadecimal digits.
   */
  lemma EscapeUnitIff(u: Unit)
    ensures var r := EscapeUnit(u);
      && (r == [u] <==> u >= 0x20 && u != '"' as int && u != '\\' as int && !Surrogate(u))
      && (r != [u] ==> |r| in {2, 6} && r[0] == '\\' as int)
      && (|r| == 2 <==> u in {'"' as int, '\\' as int, 0x08, 0x09, 0x0A, 0x0C, 0x0D})
      && (|r| == 2 ==> ShortEscape(r[1]) == u)
      && (|r| == 6 ==> r[1] == 'u' as int)
      && (|r| == 6 ==> HexValue(r[2]) * 0x1000 + HexValue(r[3]) * 0x100 + HexValue(r[4]) * 0x10 + HexValue(r[5]) == u)
  {
    HexDigitValue(u / 16 / 16 / 16);
    HexDigitValue(u / 16 / 16 % 16);
    HexDigitValue(u / 16 % 16);
    HexDigitValue(u % 16);
  }

  /** A surrogate prints as itself exactly if it is one half of a pair; any other unit is escaped by itself. */
  lemma PairsStayWhole(a: Unit, b: Unit, s: Str)
    ensures 0xD800 <= a < 0xDC00 <= b < 0xE000 ==> Escape([a, b] + s) == [a, b] + Escape(s)
    ensures !(0xD800 <= a < 0xDC00 <= b < 0xE000) ==> Escape([a, b] + s) == EscapeUnit(a) + Escape([b] + s)
    ensures Escape([a]) == EscapeUnit(a) && Escape([]) == []
  {
    assert ([a, b] + s)[2..] == s && ([a, b] + s)[1..] == [b] + s;
    assert [a][1..] == [] && EscapeUnit(a) + [] == EscapeUnit(a);
  }

  function Quoted(s: Str): Str { [QUOTE] + Escape(s) + [QUOTE] }

  // ----- the serializer

  const NULL: Str := Codes("null")
  const TRUE: Str := Codes("true")
  const FALSE: Str := Codes("false")
  const UNDEFINED: Str := Codes("undefined")

  function StableStringify(v: Json): Str
    decreases v, 0
  {
    match v
    case Null => NULL
    case Undefined => UNDEFINED
    case Bool(b) => if b then TRUE else FALSE
    case Number(n) => Decimal(n)
    case String(s) => Quoted(s)
    case Array(vs) => [LBRACKET] + Items(vs) + [RBRACKET]
    case Object(fs) => [LBRACE] + Members(fs, SortKeys(KeysOf(fs))) + [RBRACE]
  }

  /** `join` prints an undefined element as the empty text. */
  function Item(v: Json): Str
    decreases v, 1
  {
    if v == Undefined then [] else StableStringify(v)
  }

  function Items(vs: seq<Json>): Str
    decreases vs, 0
  {
    if vs == [] then []
    else if |vs| == 1 then Item(vs[0])
    else Item(vs[0]) + [COMMA] + Items(vs[1..])
  }

  function Member(fs: seq<Field>, k: Str): Str
    requires k in KeysOf(fs)
    decreases fs, 0, 0
  {
    Quoted(k) + [COLON] + StableStringify(Lookup(fs, k))
  }

  function Members(fs: seq<Field>, ks: seq<Str>): Str
    requires forall k :: k in ks ==> k in KeysOf(fs)
    decreases fs, 1, |ks|
  {
    if ks == [] then []
    else if |ks| == 1 then Member(fs, ks[0])
    else Member(fs, ks[0]) + [COMMA] + Members(fs, ks[1..])
  }

  // ----- the serializer can be read back without a parser: equal texts cancel

  lemma Cat(s: Str, t: Str, u: Str)
    ensures s + t + u == s + (t + u)
  {}

  lemma Hex4Injective(x: Unit, y: Unit)
    requires Hex4(x) == Hex4(y)
    ensures x == y
  {
    var s, t := Hex4(x), Hex4(y);
    assert s[0] == t[0] && s[1] == t[1] && s[2] == t[2] && s[3] == t[3];
    assert x / 16 / 16 / 16 == y / 16 / 16 / 16;
    assert x / 16 / 16 == y / 16 / 16;
    assert x / 16 == y / 16;
  }

  /** Reads the length of an escape off its second unit. */
  function EscapeLength(t: Str): nat {
    if |t| < 2 || t[0] != BACKSLASH then 1 else if t[1] == 117 then 6 else 2
  }

  lemma EscapeUnitLength(x: Unit, a: Str)
    ensures EscapeLength(EscapeUnit(x) + a) == |EscapeUnit(x)|
  {}

  lemma EscapeUnitCancel(x: Unit, y: Unit, a: Str, b: Str)
    requires EscapeUnit(x) + a == EscapeUnit(y) + b
    ensures x == y && a == b
  {
    var s, t := EscapeUnit(x), EscapeUnit(y);
    EscapeUnitLength(x, a);
    EscapeUnitLength(y, b);
    assert s == (s + a)[..|s|] == t;
    assert a == (s + a)[|s|..] == b;
    if |s| == 6 {
      assert Hex4(x) == s[2..] == Hex4(y);
      Hex4Injective(x, y);
    } else {
      assert s[|s| - 1] == t[|s| - 1];
    }
  }

  lemma EscapeHead(s: Str)
    requires s != []
    ensures Escape(s) != [] && Escape(s)[0] != QUOTE
    ensures Escape(s)[0] != BACKSLASH ==> Escape(s)[0] == s[0]
    ensures Escape(s)[0] != BACKSLASH && HighSurrogate(s[0]) <==> StartsPair(s)
  {}

  lemma {:induction false} EscapeCancel(s: Str, t: Str, a: Str, b: Str)
    requires Escape(s) + a == Escape(t) + b
    requires a != [] && a[0] == QUOTE && b != [] && b[0] == QUOTE
    ensures s == t && a == b
  {
    if s != [] { EscapeHead(s); }
    if t != [] { EscapeHead(t); }
    if s != [] { assert (Escape(s) + a)[0] == Escape(s)[0]; }
    if t != [] { assert (Escape(t) + b)[0] == Escape(t)[0]; }
    if s == [] {
      assert Escape(s) + a == a;
      assert t == [] && Escape(t) + b == b;
    } else if StartsPair(s) {
      assert StartsPair(t);
      Cat([s[0], s[1]], Escape(s[2..]), a);
      Cat([t[0], t[1]], Escape(t[2..]), b);
      var w := Escape(s) + a;
      assert s[1] == w[1] == t[1];
      assert Escape(s[2..]) + a == w[2..] == Escape(t[2..]) + b;
      EscapeCancel(s[2..], t[2..], a, b);
      assert s == [s[0], s[1]] + s[2..] && t == [t[0], t[1]] + t[2..];
    } else {
      Cat(EscapeUnit(s[0]), Escape(s[1..]), a);
      Cat(EscapeUnit(t[0]), Escape(t[1..]), b);
      EscapeUnitCancel(s[0], t[0], Escape(s[1..]) + a, Escape(t[1..]) + b);
      EscapeCancel(s[1..], t[1..], a, b);
      assert s == [s[0]] + s[1..] && t == [t[0]] + t[1..];
    }
  }

  lemma QuotedCancel(s: Str, t: Str, a: Str, b: Str)
    requires Quoted(s) + a == Quoted(t) + b
    ensures s == t && a == b
  {
    assert Quoted(s) + a == [QUOTE] + (Escape(s) + ([QUOTE] + a));
    assert Quoted(t) + b == [QUOTE] + (Escape(t) + ([QUOTE] + b));
    DropHead(QUOTE, Escape(s) + ([QUOTE] + a), Escape(t) + ([QUOTE] + b));
    EscapeCancel(s, t, [QUOTE] + a, [QUOTE] + b);
    DropHead(QUOTE, a, b);
  }

  lemma HeadOf(v: Json)
    ensures StableStringify(v) != []
    ensures var u := StableStringify(v)[0];
            match v
            case Null => u == 110
            case Undefined => u == 117
            case Bool(b) => u == if b then 116 else 102
            case Number(_) => IsDigit(u) || u == MINUS
            case String(_) => u == QUOTE
            case Array(_) => u == LBRACKET
            case Object(_) => u == LBRACE
  {}

  predicate Starts(t: Str, u: Unit) { t != [] && t[0] == u }

  lemma LookupWellFormed(fs: seq<Field>, k: Str)
    requires WellFormed(Object(fs)) && NoLoneUndefined(Object(fs)) && k in KeysOf(fs)
    ensures WellFormed(Lookup(fs, k)) && NoLoneUndefined(Lookup(fs, k))
  {}

  lemma {:induction false} PrintCancel(v: Json, w: Json, a: Str, b: Str)
    requires WellFormed(v) && WellFormed(w) && NoLoneUndefined(v) && NoLoneUndefined(w)
    requires StableStringify(v) + a == StableStringify(w) + b
    requires EndsNumber(a) && EndsNumber(b)
    ensures Same(v, w) && a == b
    decreases v, 0
  {
    HeadOf(v);
    HeadOf(w);
    SameHead(StableStringify(v), StableStringify(w), a, b);
    match v {
      case Number(m) => DecimalCancel(m, w.n, a, b);
      case String(s) => QuotedCancel(s, w.s, a, b);
      case Array(vs) =>
        var ws := w.items;
        BracketsCancel(LBRACKET, RBRACKET, Items(vs), Items(ws), a, b);
        ArrayCancel(vs, ws, [RBRACKET] + a, [RBRACKET] + b);
        DropHead(RBRACKET, a, b);
      case Object(fs) =>
        var gs := w.fields;
        var ks, ls := SortKeys(KeysOf(fs)), SortKeys(KeysOf(gs));
        BracketsCancel(LBRACE, RBRACE, Members(fs, ks), Members(gs, ls), a, b);
        MembersCancel(fs, gs, ks, ls, [RBRACE] + a, [RBRACE] + b);
        DropHead(RBRACE, a, b);
        SortKeysAscending(KeysOf(fs));
        SortKeysAscending(KeysOf(gs));
      case _ => TailCancel(StableStringify(v), a, b);
    }
  }

  lemma BracketsCancel(l: Unit, r: Unit, s: Str, t: Str, a: Str, b: Str)
    requires [l] + s + [r] + a == [l] + t + [r] + b
    ensures s + ([r] + a) == t + ([r] + b)
  {
    assert [l] + s + [r] + a == [l] + (s + ([r] + a));
    assert [l] + t + [r] + b == [l] + (t + ([r] + b));
    DropHead(l, s + ([r] + a), t + ([r] + b));
  }

  lemma TailCancel(s: Str, a: Str, b: Str)
    requires s + a == s + b
    ensures a == b
  {
    assert a == (s + a)[|s|..] == (s + b)[|s|..] == b;
  }

  ghost predicate AllGood(vs: seq<Json>) {
    forall x | x in vs :: WellFormed(x) && NoLoneUndefined(x)
  }

  lemma {:induction false} ItemCancel(x: Json, y: Json, a: Str, b: Str)
    requires WellFormed(x) && WellFormed(y) && NoLoneUndefined(x) && NoLoneUndefined(y)
    requires Item(x) + a == Item(y) + b
    requires (Starts(a, COMMA) || Starts(a, RBRACKET)) && (Starts(b, COMMA) || Starts(b, RBRACKET))
    ensures Same(x, y) && a == b
    decreases x, 1
  {
    HeadOf(x);
    HeadOf(y);
    assert ([] + a) == a && ([] + b) == b;
    if x != Undefined { assert (Item(x) + a)[0] == StableStringify(x)[0]; }
    if y != Undefined { assert (Item(y) + b)[0] == StableStringify(y)[0]; }
    if x != Undefined { PrintCancel(x, y, a, b); }
  }

  /** What follows the first element of a printed array. */
  function AfterItem(vs: seq<Json>, a: Str): Str
    requires vs != []
  {
    if |vs| == 1 then a else [COMMA] + (Items(vs[1..]) + a)
  }

  lemma ItemsUnfold(vs: seq<Json>, a: Str)
    requires vs != []
    ensures Items(vs) + a == Item(vs[0]) + AfterItem(vs, a)
  {
    if |vs| > 1 {
      Cat(Item(vs[0]) + [COMMA], Items(vs[1..]), a);
      Cat(Item(vs[0]), [COMMA], Items(vs[1..]) + a);
    }
  }

  lemma {:induction false} ItemsCancel(vs: seq<Json>, ws: seq<Json>, a: Str, b: Str)
    requires vs != [] && ws != [] && AllGood(vs) && AllGood(ws)
    requires Starts(a, RBRACKET) && Starts(b, RBRACKET)
    requires Items(vs) + a == Items(ws) + b
    ensures |vs| == |ws| && (forall i :: 0 <= i < |vs| ==> Same(vs[i], ws[i])) && a == b
    decreases vs, 0
  {
    ItemsUnfold(vs, a);
    ItemsUnfold(ws, b);
    ItemCancel(vs[0], ws[0], AfterItem(vs, a), AfterItem(ws, b));
    if |vs| > 1 {
      DropHead(COMMA, Items(vs[1..]) + a, Items(ws[1..]) + b);
      ItemsCancel(vs[1..], ws[1..], a, b);
      forall i | 0 <= i < |vs| ensures Same(vs[i], ws[i]) {
        if i > 0 { assert vs[i] == vs[1..][i - 1] && ws[i] == ws[1..][i - 1]; }
      }
    }
  }

  /** A printed array body is empty only for the empty array, given no `[undefined]`. */
  lemma ItemsHead(vs: seq<Json>, a: Str)
    requires vs != [] && vs != [Undefined] && Starts(a, RBRACKET)
    ensures Items(vs) + a != [] && (Items(vs) + a)[0] != RBRACKET
  {
    ItemsUnfold(vs, a);
    HeadOf(vs[0]);
  }

  lemma {:induction false} ArrayCancel(vs: seq<Json>, ws: seq<Json>, a: Str, b: Str)
    requires AllGood(vs) && AllGood(ws) && vs != [Undefined] && ws != [Undefined]
    requires Starts(a, RBRACKET) && Starts(b, RBRACKET)
    requires Items(vs) + a == Items(ws) + b
    ensures |vs| == |ws| && (forall i :: 0 <= i < |vs| ==> Same(vs[i], ws[i])) && a == b
    decreases vs, 1
  {
    assert [] + a == a && [] + b == b;
    if vs != [] { ItemsHead(vs, a); }
    if ws != [] { ItemsHead(ws, b); }
    if vs != [] { ItemsCancel(vs, ws, a, b); }
  }

  function AfterMember(fs: seq<Field>, ks: seq<Str>, a: Str): Str
    requires ks != [] && forall k :: k in ks ==> k in KeysOf(fs)
  {
    if |ks| == 1 then a else [COMMA] + (Members(fs, ks[1..]) + a)
  }

  lemma MembersUnfold(fs: seq<Field>, ks: seq<Str>, a: Str)
    requires ks != [] && forall k :: k in ks ==> k in KeysOf(fs)
    ensures Members(fs, ks) + a
         == Quoted(ks[0]) + ([COLON] + (StableStringify(Lookup(fs, ks[0])) + AfterMember(fs, ks, a)))
    ensures (Members(fs, ks) + a)[0] == QUOTE
  {
    var p := StableStringify(Lookup(fs, ks[0]));
    assert Member(fs, ks[0]) == Quoted(ks[0]) + ([COLON] + p);
    if |ks| > 1 {
      Cat(Member(fs, ks[0]) + [COMMA], Members(fs, ks[1..]), a);
      Cat(Member(fs, ks[0]), [COMMA], Members(fs, ks[1..]) + a);
    }
    Cat(Quoted(ks[0]), [COLON] + p, AfterMember(fs, ks, a));
    Cat([COLON], p, AfterMember(fs, ks, a));
  }

  ghost predicate Printable(fs: seq<Field>, ks: seq<Str>) {
    && WellFormed(Object(fs)) && NoLoneUndefined(Object(fs))
    && forall k :: k in ks ==> k in KeysOf(fs)
  }

  /** The first member of a printed object is determined, and so is what follows it. */
  lemma {:induction false} MemberCancel(fs: seq<Field>, gs: seq<Field>, ks: seq<Str>, ls: seq<Str>, a: Str, b: Str)
    requires ks != [] && ls != [] && Printable(fs, ks) && Printable(gs, ls)
    requires Starts(a, RBRACE) && Starts(b, RBRACE)
    requires Members(fs, ks) + a == Members(gs, ls) + b
    ensures ks[0] == ls[0] && Same(Lookup(fs, ks[0]), Lookup(gs, ls[0]))
    ensures AfterMember(fs, ks, a) == AfterMember(gs, ls, b)
    decreases fs, 1, |ks|, 0
  {
    MembersUnfold(fs, ks, a);
    MembersUnfold(gs, ls, b);
    var v, w := Lookup(fs, ks[0]), Lookup(gs, ls[0]);
    var va := StableStringify(v) + AfterMember(fs, ks, a);
    var wb := StableStringify(w) + AfterMember(gs, ls, b);
    QuotedCancel(ks[0], ls[0], [COLON] + va, [COLON] + wb);
    DropHead(COLON, va, wb);
    LookupWellFormed(fs, ks[0]);
    LookupWellFormed(gs, ls[0]);
    PrintCancel(v, w, AfterMember(fs, ks, a), AfterMember(gs, ls, b));
  }

  lemma {:induction false} MembersCancel(fs: seq<Field>, gs: seq<Field>, ks: seq<Str>, ls: seq<Str>, a: Str, b: Str)
    requires Printable(fs, ks) && Printable(gs, ls)
    requires Starts(a, RBRACE) && Starts(b, RBRACE)
    requires Members(fs, ks) + a == Members(gs, ls) + b
    ensures ks == ls && a == b
    ensures forall k :: k in ks ==> Same(Lookup(fs, k), Lookup(gs, k))
    decreases fs, 1, |ks|, 1
  {
    EmptyMembers(fs, ks, a);
    EmptyMembers(gs, ls, b);
    if ks != [] {
      MemberCancel(fs, gs, ks, ls, a, b);
      if |ks| > 1 {
        DropHead(COMMA, Members(fs, ks[1..]) + a, Members(gs, ls[1..]) + b);
        MembersCancel(fs, gs, ks[1..], ls[1..], a, b);
      }
      assert ks == [ks[0]] + ks[1..] && ls == [ls[0]] + ls[1..];
    }
  }

  lemma EmptyMembers(fs: seq<Field>, ks: seq<Str>, a: Str)
    requires Printable(fs, ks) && Starts(a, RBRACE)
    ensures Starts(Members(fs, ks) + a, RBRACE) <==> ks == []
    ensures ks == [] ==> Members(fs, ks) + a == a
  {
    if ks == [] { assert [] + a == a; } else { MembersUnfold(fs, ks, a); }
  }

  // ----- reordering keys does not change the text

  lemma {:induction false} SamePrints(v: Json, w: Json)
    requires WellFormed(v) && WellFormed(w) && Same(v, w)
    ensures StableStringify(v) == StableStringify(w)
    decreases v, 0
  {
    match v {
      case Array(vs) =>
        assert w.Array?;
        SameItems(vs, w.items);
      case Object(fs) =>
        assert w.Object?;
        var gs := w.fields;
        SortKeysAscending(KeysOf(fs));
        SortKeysAscending(KeysOf(gs));
        AscendingUnique(SortKeys(KeysOf(fs)), SortKeys(KeysOf(gs)));
        forall k | k in KeysOf(fs) ensures k in KeysOf(gs) && Same(Lookup(fs, k), Lookup(gs, k)) {
          assert k in Elements(KeysOf(gs));
        }
        SameMembers(fs, gs, SortKeys(KeysOf(fs)));
      case _ =>
    }
  }

  lemma {:induction false} SameItems(vs: seq<Json>, ws: seq<Json>)
    requires |vs| == |ws| && forall i :: 0 <= i < |vs| ==> WellFormed(vs[i]) && WellFormed(ws[i]) && Same(vs[i], ws[i])
    ensures Items(vs) == Items(ws)
    decreases vs, 1
  {
    if vs != [] {
      SamePrints(vs[0], ws[0]);
      SameItems(vs[1..], ws[1..]);
    }
  }

  lemma {:induction false} SameMembers(fs: seq<Field>, gs: seq<Field>, ks: seq<Str>)
    requires WellFormed(Object(fs)) && WellFormed(Object(gs))
    requires forall k :: k in ks ==> k in KeysOf(fs) && k in KeysOf(gs) && Same(Lookup(fs, k), Lookup(gs, k))
    ensures Members(fs, ks) == Members(gs, ks)
    decreases fs, 1, |ks|
  {
    if ks != [] {
      SamePrints(Lookup(fs, ks[0]), Lookup(gs, ks[0]));
      SameMembers(fs, gs, ks[1..]);
    }
  }

  /** The serializer is canonical and injective up to key order. */
  lemma PrintsAlikeIffSame(v: Json, w: Json)
    requires WellFormed(v) && WellFormed(w) && NoLoneUndefined(v) && NoLoneUndefined(w)
    ensures StableStringify(v) == StableStringify(w) <==> Same(v, w)
  {
    if Same(v, w) { SamePrints(v, w); }
    if StableStringify(v) == StableStringify(w) { PrintCancel(v, w, [], []); }
  }

  // ----- exactly where injectivity stops

  /** Replaces every array that is exactly `[undefined]` by the empty array. */
  function Squash(v: Json): (r: Json)
    ensures r == Undefined <==> v == Undefined
    decreases v, 0
  {
    match v
    case Array(vs) => if vs == [Undefined] then Array([]) else Array(SquashItems(vs))
    case Object(fs) => Object(SquashFields(fs))
    case _ => v
  }

  function SquashItems(vs: seq<Json>): (r: seq<Json>)
    ensures |r| == |vs| && forall i :: 0 <= i < |vs| ==> r[i] == Squash(vs[i])
    decreases vs, 1
  {
    if vs == [] then [] else [Squash(vs[0])] + SquashItems(vs[1..])
  }

  function SquashFields(fs: seq<Field>): (r: seq<Field>)
    ensures |r| == |fs| && forall i :: 0 <= i < |fs| ==> r[i] == Field(fs[i].key, Squash(fs[i].value))
    decreases fs, 1
  {
    if fs == [] then [] else [Field(fs[0].key, Squash(fs[0].value))] + SquashFields(fs[1..])
  }

  lemma {:induction false} SquashLookup(fs: seq<Field>, k: Str)
    requires k in KeysOf(fs)
    ensures KeysOf(SquashFields(fs)) == KeysOf(fs)
    ensures Lookup(SquashFields(fs), k) == Squash(Lookup(fs, k))
  {
    var gs := SquashFields(fs);
    assert KeysOf(gs) == KeysOf(fs);
    if fs[0].key != k {
      assert k in KeysOf(fs[1..]);
      SquashLookup(fs[1..], k);
      assert gs[1..] == SquashFields(fs[1..]);
    }
  }

  lemma {:induction false} SquashGood(v: Json)
    requires WellFormed(v)
    ensures WellFormed(Squash(v)) && NoLoneUndefined(Squash(v))
    decreases v
  {
    match v {
      case Array(vs) =>
        if vs != [Undefined] {
          var ws := SquashItems(vs);
          forall x | x in ws ensures WellFormed(x) && NoLoneUndefined(x) {
            var i :| 0 <= i < |vs| && ws[i] == x;
            SquashGood(vs[i]);
          }
          assert |vs| == 1 ==> vs == [vs[0]] && ws[0] == Squash(vs[0]);
        }
      case Object(fs) =>
        var gs := SquashFields(fs);
        assert KeysOf(gs) == KeysOf(fs);
        forall f | f in gs ensures WellFormed(f.value) && NoLoneUndefined(f.value) {
          var i :| 0 <= i < |fs| && gs[i] == f;
          SquashGood(fs[i].value);
        }
      case _ =>
    }
  }

  lemma {:induction false} SquashPrints(v: Json)
    ensures StableStringify(Squash(v)) == StableStringify(v)
    decreases v, 0
  {
    match v {
      case Array(vs) =>
        if vs == [Undefined] { assert Items(vs) == Item(vs[0]) == []; } else { SquashItemsPrint(vs); }
      case Object(fs) =>
        assert KeysOf(SquashFields(fs)) == KeysOf(fs);
        SquashMembersPrint(fs, SortKeys(KeysOf(fs)));
      case _ =>
    }
  }

  lemma {:induction false} SquashItemsPrint(vs: seq<Json>)
    ensures Items(SquashItems(vs)) == Items(vs)
    decreases vs, 1
  {
    if vs != [] {
      SquashPrints(vs[0]);
      SquashItemsPrint(vs[1..]);
      assert SquashItems(vs)[1..] == SquashItems(vs[1..]);
    }
  }

  lemma {:induction false} SquashMembersPrint(fs: seq<Field>, ks: seq<Str>)
    requires forall k :: k in ks ==> k in KeysOf(fs)
    ensures KeysOf(SquashFields(fs)) == KeysOf(fs)
    ensures Members(SquashFields(fs), ks) == Members(fs, ks)
    decreases fs, 1, |ks|
  {
    assert KeysOf(SquashFields(fs)) == KeysOf(fs);
    if ks != [] {
      SquashLookup(fs, ks[0]);
      SquashPrints(Lookup(fs, ks[0]));
      SquashMembersPrint(fs, ks[1..]);
    }
  }

  lemma {:induction false} LookupAt(fs: seq<Field>, i: nat)
    requires i < |fs| && Distinct(KeysOf(fs))
    ensures fs[i].key in KeysOf(fs) && Lookup(fs, fs[i].key) == fs[i].value
  {
    assert KeysOf(fs)[i] == fs[i].key;
    if i > 0 {
      assert KeysOf(fs)[0] == fs[0].key;
      assert KeysOf(fs[1..]) == KeysOf(fs)[1..];
      LookupAt(fs[1..], i - 1);
    }
  }

  lemma FieldDiffers(fs: seq<Field>, gs: seq<Field>, k: Str)
    requires k in KeysOf(fs) && k in KeysOf(gs) && !Same(Lookup(fs, k), Lookup(gs, k))
    ensures !Same(Object(fs), Object(gs))
  {}

  /** Exchanges `[]` and `[undefined]` everywhere in a value. */
  function Flip(v: Json): (r: Json)
    ensures r == Undefined <==> v == Undefined
    decreases v, 0
  {
    match v
    case Array(vs) => if vs == [] then Array([Undefined]) else if vs == [Undefined] then Array([]) else Array(FlipItems(vs))
    case Object(fs) => Object(FlipFields(fs))
    case _ => v
  }

  function FlipItems(vs: seq<Json>): (r: seq<Json>)
    ensures |r| == |vs| && forall i :: 0 <= i < |vs| ==> r[i] == Flip(vs[i])
    decreases vs, 1
  {
    if vs == [] then [] else [Flip(vs[0])] + FlipItems(vs[1..])
  }

  function FlipFields(fs: seq<Field>): (r: seq<Field>)
    ensures |r| == |fs| && forall i :: 0 <= i < |fs| ==> r[i] == Field(fs[i].key, Flip(fs[i].value))
    decreases fs, 1
  {
    if fs == [] then [] else [Field(fs[0].key, Flip(fs[0].value))] + FlipFields(fs[1..])
  }

  lemma {:induction false} FlipWellFormed(v: Json)
    requires WellFormed(v)
    ensures WellFormed(Flip(v))
    decreases v
  {
    match v {
      case Array(vs) =>
        forall x | x in FlipItems(vs) ensures WellFormed(x) {
          var i :| 0 <= i < |vs| && FlipItems(vs)[i] == x;
          FlipWellFormed(vs[i]);
        }
      case Object(fs) =>
        assert KeysOf(FlipFields(fs)) == KeysOf(fs);
        forall f | f in FlipFields(fs) ensures WellFormed(f.value) {
          var i :| 0 <= i < |fs| && FlipFields(fs)[i] == f;
          FlipWellFormed(fs[i].value);
        }
      case _ =>
    }
  }

  lemma {:induction false} FlipSquashesAlike(v: Json)
    ensures Squash(Flip(v)) == Squash(v)
    decreases v
  {
    match v {
      case Array(vs) =>
        if vs != [] && vs != [Undefined] {
          var ws := FlipItems(vs);
          assert |vs| == 1 ==> vs == [vs[0]] && ws[0] == Flip(vs[0]) != Undefined;
          assert ws != [Undefined];
          forall i | 0 <= i < |vs| ensures SquashItems(ws)[i] == SquashItems(vs)[i] { FlipSquashesAlike(vs[i]); }
          assert SquashItems(ws) == SquashItems(vs);
        }
      case Object(fs) =>
        var gs := FlipFields(fs);
        forall i | 0 <= i < |fs| ensures SquashFields(gs)[i] == SquashFields(fs)[i] { FlipSquashesAlike(fs[i].value); }
        assert SquashFields(gs) == SquashFields(fs);
      case _ =>
    }
  }

  lemma {:induction false} FlipDiffers(v: Json)
    requires WellFormed(v) && !NoBlankArray(v)
    ensures !Same(v, Flip(v))
    decreases v
  {
    match v {
      case Array(vs) =>
        if vs != [] && vs != [Undefined] {
          var i :| 0 <= i < |vs| && !NoBlankArray(vs[i]);
          FlipDiffers(vs[i]);
        }
      case Object(fs) =>
        var i :| 0 <= i < |fs| && !NoBlankArray(fs[i].value);
        LookupAt(fs, i);
        FlipLookup(fs, i);
        FlipDiffers(fs[i].value);
        FieldDiffers(fs, FlipFields(fs), fs[i].key);
      case _ =>
    }
  }

  lemma FlipLookup(fs: seq<Field>, i: nat)
    requires i < |fs| && Distinct(KeysOf(fs))
    ensures KeysOf(FlipFields(fs)) == KeysOf(fs)
    ensures fs[i].key in KeysOf(fs) && Lookup(FlipFields(fs), fs[i].key) == Flip(fs[i].value)
  {
    hide Lookup, Flip, FlipFields;
    assert KeysOf(FlipFields(fs)) == KeysOf(fs);
    assert KeysOf(fs)[i] == fs[i].key;
    LookupAt(FlipFields(fs), i);
  }

  /** What the text determines, for every value: the value up to key order and `[undefined]`. */
  lemma TextDetermines(v: Json, w: Json)
    requires WellFormed(v) && WellFormed(w)
    ensures StableStringify(v) == StableStringify(w) <==> Same(Squash(v), Squash(w))
  {
    SquashPrints(v);
    SquashPrints(w);
    SquashGood(v);
    SquashGood(w);
    PrintsAlikeIffSame(Squash(v), Squash(w));
  }

  /** A value that has no blank array differs from nothing that squashes to the same. */
  lemma {:induction false} SquashedSame(v: Json, w: Json)
    requires NoBlankArray(v) && Same(v, Squash(w))
    ensures Same(v, w)
    decreases v
  {
    match v {
      case Array(vs) =>
        forall i | 0 <= i < |vs| ensures Same(vs[i], w.items[i]) { SquashedSame(vs[i], w.items[i]); }
      case Object(fs) =>
        var gs := w.fields;
        assert KeysOf(SquashFields(gs)) == KeysOf(gs);
        forall k | k in KeysOf(fs) && k in KeysOf(gs) ensures Same(Lookup(fs, k), Lookup(gs, k)) {
          SquashLookup(gs, k);
          var i :| 0 <= i < |fs| && fs[i].key == k && fs[i].value == Lookup(fs, k);
          assert fs[i] in fs;
          SquashedSame(Lookup(fs, k), Lookup(gs, k));
        }
      case _ =>
    }
  }

  lemma {:induction false} SquashesToItself(v: Json)
    requires NoLoneUndefined(v)
    ensures Squash(v) == v
    decreases v
  {
    match v {
      case Array(vs) =>
        forall i | 0 <= i < |vs| ensures SquashItems(vs)[i] == vs[i] { SquashesToItself(vs[i]); }
        assert SquashItems(vs) == vs;
      case Object(fs) =>
        forall i | 0 <= i < |fs| ensures SquashFields(fs)[i] == fs[i] {
          assert fs[i] in fs;
          SquashesToItself(fs[i].value);
        }
        assert SquashFields(fs) == fs;
      case _ =>
    }
  }

  lemma {:induction false} NoBlankIsNoLone(v: Json)
    requires NoBlankArray(v)
    ensures NoLoneUndefined(v)
    decreases v
  {
    match v {
      case Array(vs) => forall x | x in vs ensures NoLoneUndefined(x) { NoBlankIsNoLone(x); }
      case Object(fs) => forall f | f in fs ensures NoLoneUndefined(f.value) { NoBlankIsNoLone(f.value); }
      case _ =>
    }
  }

  /** A value is told apart from every other value exactly when no array in it is empty or `[undefined]`. */
  lemma InjectiveAtIff(v: Json)
    requires WellFormed(v)
    ensures NoBlankArray(v) <==> forall w :: WellFormed(w) && StableStringify(w) == StableStringify(v) ==> Same(v, w)
  {
    if NoBlankArray(v) {
      NoBlankIsNoLone(v);
      SquashesToItself(v);
      forall w | WellFormed(w) && StableStringify(w) == StableStringify(v) ensures Same(v, w) {
        TextDetermines(v, w);
        SquashedSame(v, w);
      }
    } else {
      FlipWellFormed(v);
      FlipSquashesAlike(v);
      FlipDiffers(v);
      SquashPrints(v);
      SquashPrints(Flip(v));
    }
  }

  // ----- what the route relies on

  lemma {:induction false} SameReflexive(v: Json)
    ensures Same(v, v)
    decreases v
  {
    match v {
      case Array(vs) =>
        forall i | 0 <= i < |vs| ensures Same(vs[i], vs[i]) { SameReflexive(vs[i]); }
      case Object(fs) =>
        forall k | k in KeysOf(fs) ensures Same(Lookup(fs, k), Lookup(fs, k)) { SameReflexive(Lookup(fs, k)); }
      case _ =>
    }
  }

  /** A client that sends the same fields in another order sends the same request. */
  lemma ReorderedFieldsPrintAlike(fs: seq<Field>, gs: seq<Field>)
    requires WellFormed(Object(fs)) && multiset(fs) == multiset(gs) && Distinct(KeysOf(gs))
    ensures StableStringify(Object(fs)) == StableStringify(Object(gs))
  {
    forall f ensures f in fs <==> f in gs { assert f in multiset(fs) <==> f in multiset(gs); }
    forall k ensures k in KeysOf(fs) <==> k in KeysOf(gs) {
      if k in KeysOf(fs) { var i :| 0 <= i < |fs| && fs[i].key == k; assert fs[i] in gs; }
      if k in KeysOf(gs) { var i :| 0 <= i < |gs| && gs[i].key == k; assert gs[i] in fs; }
    }
    forall k | k in KeysOf(fs) ensures Same(Lookup(fs, k), Lookup(gs, k)) {
      var i :| 0 <= i < |fs| && fs[i].key == k;
      assert fs[i] in gs;
      var j :| 0 <= j < |gs| && gs[j] == fs[i];
      LookupAt(fs, i);
      LookupAt(gs, j);
      SameReflexive(fs[i].value);
    }
    SamePrints(Object(fs), Object(gs));
  }

  const METHOD: Str := Codes("method")
  const URL: Str := Codes("url")
  const PATH: Str := Codes("path")
  const BODY: Str := Codes("body")

  /** `url.split('?')[0]` */
  function BeforeQuery(url: Str): Str {
    if url == [] || url[0] == QUESTION_MARK then [] else [url[0]] + BeforeQuery(url[1..])
  }

  function RequestValue(verb: Str, url: Str, path: Json, body: Json): Json {
    Object([Field(METHOD, String(verb)), Field(URL, String(BeforeQuery(url))), Field(PATH, path), Field(BODY, body)])
  }

  function CanonicalRequestHash(verb: Str, url: Str, path: Json, body: Json): Str {
    StableStringify(RequestValue(verb, url, path, body))
  }

  lemma NamesDiffer()
    ensures METHOD != URL && METHOD != PATH && METHOD != BODY && URL != PATH && URL != BODY && PATH != BODY
  {
    assert METHOD[0] == 109 && URL[0] == 117 && PATH[0] == 112 && BODY[0] == 98;
  }

  lemma FourFields(fs: seq<Field>, k: Str, l: Str, m: Str, n: Str)
    requires |fs| == 4 && fs[0].key == k && fs[1].key == l && fs[2].key == m && fs[3].key == n
    requires k != l && k != m && k != n && l != m && l != n && m != n
    ensures KeysOf(fs) == [k, l, m, n] && Distinct(KeysOf(fs))
    ensures Lookup(fs, k) == fs[0].value && Lookup(fs, l) == fs[1].value
    ensures Lookup(fs, m) == fs[2].value && Lookup(fs, n) == fs[3].value
  {
    hide Lookup;
    assert KeysOf(fs) == [k, l, m, n];
    LookupAt(fs, 0);
    LookupAt(fs, 1);
    LookupAt(fs, 2);
    LookupAt(fs, 3);
  }

  lemma RequestFields(verb: Str, url: Str, path: Json, body: Json)
    ensures var fs := RequestValue(verb, url, path, body).fields;
            && KeysOf(fs) == [METHOD, URL, PATH, BODY] && Distinct(KeysOf(fs))
            && Lookup(fs, METHOD) == String(verb) && Lookup(fs, URL) == String(BeforeQuery(url))
            && Lookup(fs, PATH) == path && Lookup(fs, BODY) == body
  {
    hide Lookup, KeysOf, Distinct;
    NamesDiffer();
    FourFields(RequestValue(verb, url, path, body).fields, METHOD, URL, PATH, BODY);
  }

  const QUESTION_MARK: Unit := '?' as int

  /** A url is its path, or its path and a query after the first question mark. */
  predicate HasPath(url: Str, p: Str) {
    QUESTION_MARK !in p && (url == p || (|p| < |url| && url[..|p|] == p && url[|p|] == QUESTION_MARK))
  }

  /** Every url has exactly one path, and that is what is kept of it. */
  lemma {:induction false} BeforeQueryIsPath(url: Str, p: Str)
    ensures HasPath(url, p) <==> BeforeQuery(url) == p
  {
    if url != [] && url[0] != QUESTION_MARK {
      BeforeQueryIsPath(url[1..], BeforeQuery(url[1..]));
      if HasPath(url, p) {
        assert p != [] && p[0] == url[0];
        assert HasPath(url[1..], p[1..]);
        BeforeQueryIsPath(url[1..], p[1..]);
      }
      if BeforeQuery(url) == p {
        assert p[1..] == BeforeQuery(url[1..]) && p == [url[0]] + p[1..];
        assert HasPath(url[1..], p[1..]);
      }
    }
  }

  /** A url without a query is its own path; a query, whatever it holds, is not part of it. */
  lemma PathAndQuery(p: Str, query: Str)
    requires QUESTION_MARK !in p
    ensures BeforeQuery(p) == p && BeforeQuery(p + [QUESTION_MARK] + query) == p
  {
    BeforeQueryIsPath(p, p);
    BeforeQueryIsPath(p + [QUESTION_MARK] + query, p);
  }

  /** Two requests share a hash exactly when verb, path, parameters and body agree, whatever queries follow the paths. */
  lemma HashesAgreeIff(verb: Str, url: Str, p: Str, path: Json, body: Json, verb': Str, url': Str, p': Str, path': Json, body': Json)
    requires HasPath(url, p) && HasPath(url', p')
    requires WellFormed(path) && WellFormed(body) && WellFormed(path') && WellFormed(body')
    requires NoLoneUndefined(path) && NoLoneUndefined(body) && NoLoneUndefined(path') && NoLoneUndefined(body')
    ensures CanonicalRequestHash(verb, url, path, body) == CanonicalRequestHash(verb', url', path', body')
       <==> verb == verb' && p == p' && Same(path, path') && Same(body, body')
  {
    BeforeQueryIsPath(url, p);
    BeforeQueryIsPath(url', p');
    RequestFields(verb, url, path, body);
    RequestFields(verb', url', path', body');
    RequestGood(verb, url, path, body);
    RequestGood(verb', url', path', body');
    PrintsAlikeIffSame(RequestValue(verb, url, path, body), RequestValue(verb', url', path', body'));
    SameRequests(RequestValue(verb, url, path, body).fields, RequestValue(verb', url', path', body').fields,
                  verb, p, path, body, verb', p', path', body');
  }

  lemma SameRequests(fs: seq<Field>, gs: seq<Field>, verb: Str, url: Str, path: Json, body: Json,
                     verb': Str, url': Str, path': Json, body': Json)
    requires KeysOf(fs) == KeysOf(gs) == [METHOD, URL, PATH, BODY]
    requires Lookup(fs, METHOD) == String(verb) && Lookup(gs, METHOD) == String(verb')
    requires Lookup(fs, URL) == String(url) && Lookup(gs, URL) == String(url')
    requires Lookup(fs, PATH) == path && Lookup(gs, PATH) == path'
    requires Lookup(fs, BODY) == body && Lookup(gs, BODY) == body'
    ensures Same(Object(fs), Object(gs)) <==> verb == verb' && url == url' && Same(path, path') && Same(body, body')
  {
    SameFourFields(fs, gs, METHOD, URL, PATH, BODY);
  }

  lemma SameFourFields(fs: seq<Field>, gs: seq<Field>, k: Str, l: Str, m: Str, n: Str)
    requires KeysOf(fs) == KeysOf(gs) == [k, l, m, n]
    ensures k in KeysOf(fs) && l in KeysOf(fs) && m in KeysOf(fs) && n in KeysOf(fs)
    ensures Same(Object(fs), Object(gs))
       <==> SameFieldAt(fs, gs, k) && SameFieldAt(fs, gs, l) && SameFieldAt(fs, gs, m) && SameFieldAt(fs, gs, n)
  {
    SameObjects(fs, gs);
    FourMembers(KeysOf(fs), k, l, m, n);
    hide Same, SameFieldAt, Lookup, KeysOf;
  }

  ghost predicate SameFieldAt(fs: seq<Field>, gs: seq<Field>, k: Str)
    requires k in KeysOf(fs) && k in KeysOf(gs)
  {
    Same(Lookup(fs, k), Lookup(gs, k))
  }

  lemma FourMembers<T>(keys: seq<T>, k: T, l: T, m: T, n: T)
    requires keys == [k, l, m, n]
    ensures forall x :: x in keys <==> x == k || x == l || x == m || x == n
  {}

  lemma SameObjects(fs: seq<Field>, gs: seq<Field>)
    requires KeysOf(fs) == KeysOf(gs)
    ensures Same(Object(fs), Object(gs)) <==> forall k | k in KeysOf(fs) :: SameFieldAt(fs, gs, k)
  {}

  lemma RequestGood(verb: Str, url: Str, path: Json, body: Json)
    requires WellFormed(path) && WellFormed(body) && NoLoneUndefined(path) && NoLoneUndefined(body)
    ensures WellFormed(RequestValue(verb, url, path, body)) && NoLoneUndefined(RequestValue(verb, url, path, body))
  {
    var v := RequestValue(verb, url, path, body);
    RequestFields(verb, url, path, body);
    assert forall f | f in v.fields :: f.value in {String(verb), String(BeforeQuery(url)), path, body};
  }
}
