/**
 Text as the program sees it: sequences of UTF-16 code units, with the decimal
 rendering of integers and the code-unit order that key sorting uses.
 */
module Text {
  import opened Common

  type Unit = u: int | 0 <= u < 0x1_0000

  type Str = seq<Unit>

  const QUOTE: Unit := '\"' as int
  const HASH: Unit := '#' as int
  const COMMA: Unit := ',' as int
  const MINUS: Unit := '-' as int
  const COLON: Unit := ':' as int
  const LBRACKET: Unit := '[' as int
  const BACKSLASH: Unit := '\\' as int
  const RBRACKET: Unit := ']' as int
  const LBRACE: Unit := '{' as int
  const PIPE: Unit := '|' as int
  const RBRACE: Unit := '}' as int

  /** A text as code units. */
  function Codes(s: string): (r: Str)
    requires forall i :: 0 <= i < |s| ==> s[i] < 128 as char
    ensures |r| == |s| && forall i :: 0 <= i < |s| ==> r[i] == s[i] as int
  {
    seq(|s|, i requires 0 <= i < |s| => s[i] as int)
  }

  predicate IsDigit(u: Unit) { 48 <= u <= 57 }

  /** The decimal digits of a natural number, without leading zeros. */
  function Digits(n: nat): (r: Str)
    ensures forall i :: 0 <= i < |r| ==> IsDigit(r[i])
    ensures |r| > 0 && (|r| == 1 <==> n < 10)
  {
    if n < 10 then [48 + n] else Digits(n / 10) + [48 + n % 10]
  }

  /** `String(n)` for an integer. */
  function Decimal(n: int): (r: Str)
    ensures |r| > 0 && (IsDigit(r[0]) || r[0] == MINUS)
  {
    if n < 0 then [MINUS] + Digits(-n) else Digits(n)
  }

  /** The text cannot extend a run of digits that stands before it. */
  predicate EndsNumber(t: Str) { t == [] || !IsDigit(t[0]) }

  lemma {:induction false} DigitsInjective(m: nat, n: nat)
    requires Digits(m) == Digits(n)
    ensures m == n
  {
    var s, t := Digits(m), Digits(n);
    if m >= 10 {
      assert s[|s| - 1] == t[|t| - 1];
      assert s[..|s| - 1] == Digits(m / 10) && t[..|t| - 1] == Digits(n / 10);
      DigitsInjective(m / 10, n / 10);
    }
  }

  /** The length of the run of digits at the front of a text. */
  function DigitRun(t: Str): (r: nat)
    ensures r <= |t|
  {
    if EndsNumber(t) then 0 else 1 + DigitRun(t[1..])
  }

  lemma {:induction false} DigitRunConcat(s: Str, a: Str)
    requires forall i :: 0 <= i < |s| ==> IsDigit(s[i])
    requires EndsNumber(a)
    ensures DigitRun(s + a) == |s|
  {
    if s == [] {
      assert s + a == a;
    } else {
      assert (s + a)[1..] == s[1..] + a;
      DigitRunConcat(s[1..], a);
    }
  }

  /** Two renderings followed by text that ends a number can only agree on the same integer. */
  lemma DigitsCancel(m: nat, n: nat, a: Str, b: Str)
    requires Digits(m) + a == Digits(n) + b && EndsNumber(a) && EndsNumber(b)
    ensures m == n && a == b
  {
    var s, t := Digits(m), Digits(n);
    DigitRunConcat(s, a);
    DigitRunConcat(t, b);
    assert s == (s + a)[..|s|] == t;
    assert a == (s + a)[|s|..] == b;
    DigitsInjective(m, n);
  }

  lemma DecimalCancel(m: int, n: int, a: Str, b: Str)
    requires Decimal(m) + a == Decimal(n) + b && EndsNumber(a) && EndsNumber(b)
    ensures m == n && a == b
  {
    SameHead(Decimal(m), Decimal(n), a, b);
    if m < 0 {
      assert Decimal(m) + a == [MINUS] + (Digits(-m) + a);
      assert Decimal(n) + b == [MINUS] + (Digits(-n) + b);
      DropHead(MINUS, Digits(-m) + a, Digits(-n) + b);
      DigitsCancel(-m, -n, a, b);
    } else {
      DigitsCancel(m, n, a, b);
    }
  }

  lemma SameHead(s: Str, t: Str, a: Str, b: Str)
    requires |s| > 0 && |t| > 0 && s + a == t + b
    ensures s[0] == t[0]
  {
    assert (s + a)[0] == s[0] && (t + b)[0] == t[0];
  }

  lemma DropHead(u: Unit, s: Str, t: Str)
    requires [u] + s == [u] + t
    ensures s == t
  {
    assert s == ([u] + s)[1..] == ([u] + t)[1..] == t;
  }

  lemma FirstMark(a: Str, u: Unit, x: Str)
    requires u !in a
    ensures var s := a + [u] + x; s[|a|] == u && forall i :: 0 <= i < |a| ==> s[i] != u
  {
    var s := a + [u] + x;
    forall i | 0 <= i < |a| ensures s[i] != u { assert s[i] == a[i]; }
  }

  /** A field that cannot contain the separator can be read back off the front. */
  lemma SplitAtFirst(a: Str, x: Str, b: Str, y: Str, u: Unit)
    requires a + [u] + x == b + [u] + y && u !in a && u !in b
    ensures a == b && x == y
  {
    FirstMark(a, u, x);
    FirstMark(b, u, y);
    var s := a + [u] + x;
    assert a == s[..|a|] && b == s[..|b|] && x == s[|a| + 1..] && y == s[|b| + 1..];
  }

  /** The order of `Array.prototype.sort` on strings: code unit by code unit, prefix first. */
  predicate Less(s: Str, t: Str) {
    if t == [] then false
    else if s == [] then true
    else s[0] < t[0] || (s[0] == t[0] && Less(s[1..], t[1..]))
  }

  lemma {:induction false} LessTotal(s: Str, t: Str)
    ensures Less(s, t) || s == t || Less(t, s)
  {
    if s != [] && t != [] && s[0] == t[0] {
      LessTotal(s[1..], t[1..]);
      assert s == [s[0]] + s[1..] && t == [t[0]] + t[1..];
    }
  }

  lemma {:induction false} LessIrreflexive(s: Str)
    ensures !Less(s, s)
  {
    if s != [] { LessIrreflexive(s[1..]); }
  }

  lemma {:induction false} LessTransitive(s: Str, t: Str, u: Str)
    requires Less(s, t) && Less(t, u)
    ensures Less(s, u)
  {
    if s != [] && s[0] == t[0] == u[0] { LessTransitive(s[1..], t[1..], u[1..]); }
  }

  ghost predicate Ascending(ks: seq<Str>) {
    forall i, j :: 0 <= i < j < |ks| ==> Less(ks[i], ks[j])
  }

  ghost function Elements(ks: seq<Str>): set<Str> { set k | k in ks }

  /** A strictly ascending sequence is determined by its elements. */
  lemma {:induction false} AscendingUnique(s: seq<Str>, t: seq<Str>)
    requires Ascending(s) && Ascending(t) && Elements(s) == Elements(t)
    ensures s == t
  {
    assert s != [] ==> s[0] in Elements(s);
    assert t != [] ==> t[0] in Elements(t);
    if s != [] && t != [] {
      if s[0] != t[0] {
        assert s[0] in Elements(t) && t[0] in Elements(s);
        var i :| 0 <= i < |t| && t[i] == s[0];
        var j :| 0 <= j < |s| && s[j] == t[0];
        LessTransitive(s[0], t[0], s[0]);
        LessIrreflexive(s[0]);
      }
      forall k ensures k in Elements(s[1..]) <==> k in Elements(t[1..]) {
        LessIrreflexive(s[0]);
        assert k in Elements(s) <==> k == s[0] || k in Elements(s[1..]);
        assert k in Elements(t) <==> k == t[0] || k in Elements(t[1..]);
        assert k == s[0] ==> k !in Elements(s[1..]) && k !in Elements(t[1..]);
      }
      AscendingUnique(s[1..], t[1..]);
      assert s == [s[0]] + s[1..] && t == [t[0]] + t[1..];
    }
  }

  function Insert(k: Str, ks: seq<Str>): (r: seq<Str>)
    ensures forall x :: x in r <==> x == k || x in ks
  {
    if ks == [] || Less(k, ks[0]) then [k] + ks else [ks[0]] + Insert(k, ks[1..])
  }

  /** `keys.sort()` on the own keys of one object. */
  function SortKeys(ks: seq<Str>): (r: seq<Str>)
    ensures forall x :: x in r <==> x in ks
  {
    if ks == [] then [] else Insert(ks[0], SortKeys(ks[1..]))
  }

  lemma {:induction false} InsertAscending(k: Str, ks: seq<Str>)
    requires Ascending(ks) && k !in ks
    ensures Ascending(Insert(k, ks))
  {
    if ks == [] {
    } else if Less(k, ks[0]) {
      forall j | 0 <= j < |ks| ensures Less(k, ks[j]) {
        if j > 0 { LessTransitive(k, ks[0], ks[j]); }
      }
    } else {
      LessTotal(k, ks[0]);
      InsertAscending(k, ks[1..]);
      var r := Insert(k, ks[1..]);
      forall j | 0 <= j < |r| ensures Less(ks[0], r[j]) {
        assert r[j] in r;
      }
    }
  }

  lemma {:induction false} SortKeysAscending(ks: seq<Str>)
    requires Distinct(ks)
    ensures Ascending(SortKeys(ks)) && Elements(SortKeys(ks)) == Elements(ks)
  {
    if ks != [] {
      SortKeysAscending(ks[1..]);
      InsertAscending(ks[0], SortKeys(ks[1..]));
    }
  }
}
