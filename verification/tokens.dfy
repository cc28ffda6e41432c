/**
 Signed door payloads: the rotating ticket QR, the wallet QR's message, and the couple
 confirmation token. The keyed hash is a parameter, idealised as injective.
 */
module Tokens {
  import opened Text
  import opened Common

  const DOT: Unit := '.' as int
  const PLUS: Unit := '+' as int
  const WINDOW_SEC: int := 30

  /** A keyed hash in hexadecimal, and a text encoding with its decoder. */
  type Mac = Str -> Str

  datatype Codec = Codec(encode: Str -> Str, decode: Str -> Str)

  ghost predicate Ideal(mac: Mac) {
    && (forall x, y :: mac(x) == mac(y) ==> x == y)
    && forall x :: mac(x) != [] && COLON !in mac(x) && DOT !in mac(x)
  }

  ghost predicate Faithful(c: Codec) {
    forall x :: c.decode(c.encode(x)) == x && DOT !in c.encode(x) && (x != [] ==> c.encode(x) != [])
  }

  // ----- splitting and joining

  function Split(s: Str, u: Unit): (r: seq<Str>)
    ensures |r| >= 1
  {
    if s == [] then [[]]
    else
      var rest := Split(s[1..], u);
      if s[0] == u then [[]] + rest else [[s[0]] + rest[0]] + rest[1..]
  }

  function Join(parts: seq<Str>, u: Unit): Str
    requires |parts| >= 1
  {
    if |parts| == 1 then parts[0] else parts[0] + [u] + Join(parts[1..], u)
  }

  lemma {:induction false} SplitPlain(a: Str, u: Unit)
    requires u !in a
    ensures Split(a, u) == [a]
  {
    if a != [] {
      assert a == [a[0]] + a[1..];
      SplitPlain(a[1..], u);
    }
  }

  lemma {:induction false} SplitFirst(a: Str, rest: Str, u: Unit)
    requires u !in a
    ensures Split(a + [u] + rest, u) == [a] + Split(rest, u)
  {
    var s := a + [u] + rest;
    if a == [] {
      assert s[1..] == rest;
    } else {
      assert s[1..] == a[1..] + [u] + rest && a == [a[0]] + a[1..];
      SplitFirst(a[1..], rest, u);
    }
  }

  /** Splitting undoes joining parts that do not contain the separator. */
  lemma {:induction false} SplitJoin(parts: seq<Str>, u: Unit)
    requires |parts| >= 1 && forall i :: 0 <= i < |parts| ==> u !in parts[i]
    ensures Split(Join(parts, u), u) == parts
  {
    if |parts| == 1 {
      SplitPlain(parts[0], u);
    } else {
      SplitJoin(parts[1..], u);
      SplitFirst(parts[0], Join(parts[1..], u), u);
    }
  }

  /** Joining always undoes splitting. */
  lemma {:induction false} JoinSplit(s: Str, u: Unit)
    ensures Join(Split(s, u), u) == s
  {
    if s != [] {
      var rest := Split(s[1..], u);
      JoinSplit(s[1..], u);
      if s[0] == u {
        assert ([[]] + rest)[1..] == rest;
        assert Join(Split(s, u), u) == [] + [u] + Join(rest, u);
      } else {
        assert ([[s[0]] + rest[0]] + rest[1..])[1..] == rest[1..];
      }
    }
  }

  function Count(s: Str, u: Unit): nat { if s == [] then 0 else Count(s[1..], u) + if s[0] == u then 1 else 0 }

  lemma {:induction false} SplitLength(s: Str, u: Unit)
    ensures |Split(s, u)| == 1 + Count(s, u)
  {
    if s != [] { SplitLength(s[1..], u); }
  }

  lemma {:induction false} CountConcat(s: Str, t: Str, u: Unit)
    ensures Count(s + t, u) == Count(s, u) + Count(t, u)
  {
    if s == [] {
      assert s + t == t;
    } else {
      assert (s + t)[1..] == s[1..] + t;
      CountConcat(s[1..], t, u);
    }
  }

  lemma {:induction false} CountZero(s: Str, u: Unit)
    ensures Count(s, u) == 0 <==> u !in s
  {
    if s != [] { CountZero(s[1..], u); }
  }

  // ----- `parseInt` in base ten

  function DigitsValue(s: Str): nat
    requires forall i :: 0 <= i < |s| ==> IsDigit(s[i])
  {
    if s == [] then 0
    else
      var last := s[|s| - 1];
      assert IsDigit(last);
      10 * DigitsValue(s[..|s| - 1]) + (last as int - 48)
  }

  lemma {:induction false} DigitRunIsDigits(t: Str)
    ensures forall i :: 0 <= i < DigitRun(t) ==> IsDigit(t[i])
  {
    if !EndsNumber(t) { DigitRunIsDigits(t[1..]); }
  }

  /** The digits at the front of a text, whatever follows them. */
  function LeadingDigits(t: Str): Option<int> {
    DigitRunIsDigits(t);
    if DigitRun(t) == 0 then None else Some(DigitsValue(t[..DigitRun(t)]))
  }

  predicate IsSpace(u: Unit) { u == 32 || 9 <= u <= 13 }

  function SkipSpaces(s: Str): Str {
    if s != [] && IsSpace(s[0]) then SkipSpaces(s[1..]) else s
  }

  function ParseInt(s: Str): Option<int> {
    var t := SkipSpaces(s);
    if t != [] && t[0] == MINUS then
      var n := LeadingDigits(t[1..]);
      if n.Some? then Some(-n.value) else None
    else if t != [] && t[0] == PLUS then LeadingDigits(t[1..])
    else LeadingDigits(t)
  }

  lemma {:induction false} ValueOfDigits(n: nat)
    ensures DigitsValue(Digits(n)) == n
  {
    if n < 10 {
      assert Digits(n)[..0] == [];
    } else {
      assert Digits(n)[..|Digits(n)| - 1] == Digits(n / 10);
      ValueOfDigits(n / 10);
    }
  }

  lemma LeadingDigitsOf(n: nat)
    ensures LeadingDigits(Digits(n)) == Some(n)
  {
    DigitRunConcat(Digits(n), []);
    assert Digits(n) + [] == Digits(n);
    assert Digits(n)[..|Digits(n)|] == Digits(n);
    ValueOfDigits(n);
  }

  /** Reading back what was printed. */
  lemma ParseIntOfDecimal(n: int)
    ensures ParseInt(Decimal(n)) == Some(n)
  {
    LeadingDigitsOf(if n < 0 then -n else n);
    hide LeadingDigits, Digits;
    if n < 0 { assert Decimal(n)[1..] == Digits(-n); }
  }

  lemma {:induction false} SkipsSpaces(spaces: Str, t: Str)
    requires forall i :: 0 <= i < |spaces| ==> spaces[i] == ' ' as int || '\t' as int <= spaces[i] <= '\r' as int
    requires t == [] || !(t[0] == ' ' as int || '\t' as int <= t[0] <= '\r' as int)
    ensures SkipSpaces(spaces + t) == t
  {
    if spaces == [] {
      assert spaces + t == t;
    } else {
      assert (spaces + t)[1..] == spaces[1..] + t;
      SkipsSpaces(spaces[1..], t);
    }
  }

  lemma LeadingDigitsAre(ds: Str, rest: Str)
    requires (forall i :: 0 <= i < |ds| ==> IsDigit(ds[i])) && EndsNumber(rest)
    ensures LeadingDigits(ds + rest) == if ds == [] then None else Some(DigitsValue(ds))
  {
    DigitRunConcat(ds, rest);
    assert (ds + rest)[..|ds|] == ds;
  }

  lemma SignThenDigits(s: Str, sign: Str, number: Str)
    requires SkipSpaces(s) == sign + number && sign in {[], ['-' as int], ['+' as int]}
    requires sign == [] && number != [] ==> number[0] !in {'-' as int, '+' as int}
    ensures var n := LeadingDigits(number);
      ParseInt(s) == if n.None? then None else Some((if sign == ['-' as int] then -1 else 1) * n.value)
  {
    hide SkipSpaces, LeadingDigits;
    var t := sign + number;
    assert sign == [] ==> t == number;
    assert sign != [] ==> t[0] == sign[0] && t[1..] == number;
  }

  /**
   White space, at most one sign and some digits are read as the number the digits write, whatever
   follows them; with no digit in that place nothing is read.
   */
  lemma ParseIntReads(spaces: Str, sign: Str, ds: Str, rest: Str)
    requires forall i :: 0 <= i < |spaces| ==> spaces[i] == ' ' as int || '\t' as int <= spaces[i] <= '\r' as int
    requires sign in {[], ['-' as int], ['+' as int]} && forall i :: 0 <= i < |ds| ==> IsDigit(ds[i])
    requires EndsNumber(rest)
    requires sign == [] && ds == [] && rest != [] ==> rest[0] !in {'-' as int, '+' as int, ' ' as int} && !('\t' as int <= rest[0] <= '\r' as int)
    ensures ParseInt(spaces + (sign + (ds + rest)))
         == if ds == [] then None else Some((if sign == ['-' as int] then -1 else 1) * DigitsValue(ds))
  {
    var number := ds + rest;
    assert ds != [] ==> number[0] == ds[0];
    assert ds == [] ==> number == rest;
    assert sign == [] ==> sign + number == number;
    hide LeadingDigits, SkipSpaces, DigitsValue, ParseInt;
    SkipsSpaces(spaces, sign + number);
    LeadingDigitsAre(ds, rest);
    SignThenDigits(spaces + (sign + number), sign, number);
  }

  lemma DecimalPlain(n: int, u: Unit)
    requires !IsDigit(u) && u != MINUS
    ensures u !in Decimal(n)
  {}

  // ----- the rotating ticket QR

  function TicketMessage(id: Str, window: int): Str { id + [COLON] + Decimal(window) }

  /** The window a moment falls into, named by its first second. */
  function WindowOf(nowMs: int): int { nowMs / (1000 * WINDOW_SEC) * WINDOW_SEC }

  function MintQr(mac: Mac, id: Str, window: int): Str {
    Join([id, Decimal(window), mac(TicketMessage(id, window))], COLON)
  }

  datatype Decoded = Verified(id: Str) | Bare(id: Str) | Rejected

  function DecodeQr(mac: Mac, payload: Str, nowWindow: int): Decoded {
    var parts := Split(payload, COLON);
    if |parts| != 3 || parts[0] == [] || parts[1] == [] || parts[2] == [] then Bare(payload)
    else
      var window := ParseInt(parts[1]);
      if window.None? then Rejected
      else if parts[2] != mac(TicketMessage(parts[0], window.value))
           && parts[2] != mac(TicketMessage(parts[0], window.value - WINDOW_SEC)) then Rejected
      else if Abs(nowWindow - window.value) > 2 * WINDOW_SEC then Rejected
      else Verified(parts[0])
  }

  /** A payload is taken for a bare ticket id, and then for the whole of it, unless it has three parts and none is empty. */
  lemma BareIff(mac: Mac, payload: Str, nowWindow: int)
    ensures var parts := Split(payload, COLON);
      DecodeQr(mac, payload, nowWindow).Bare? <==> !(|parts| == 3 && forall i :: 0 <= i < 3 ==> parts[i] != [])
    ensures DecodeQr(mac, payload, nowWindow).Bare? ==> DecodeQr(mac, payload, nowWindow).id == payload
  {}

  /** A ticket id without a colon is read as itself, whatever the hash. */
  lemma OpaqueIdIsItself(mac: Mac, id: Str, nowWindow: int)
    requires COLON !in id
    ensures DecodeQr(mac, id, nowWindow) == Bare(id)
  {
    SplitPlain(id, COLON);
  }

  lemma MintedParts(mac: Mac, id: Str, window: int, signature: Str)
    requires COLON !in id && COLON !in signature
    ensures Split(Join([id, Decimal(window), signature], COLON), COLON) == [id, Decimal(window), signature]
  {
    DecimalPlain(window, COLON);
    SplitJoin([id, Decimal(window), signature], COLON);
  }

  /** A minted QR decodes to its own ticket exactly while the current window is within two of the minting. */
  lemma MintedQrDecodesIff(mac: Mac, id: Str, window: int, nowWindow: int)
    requires Ideal(mac) && id != [] && COLON !in id
    ensures DecodeQr(mac, MintQr(mac, id, window), nowWindow)
         == if Abs(nowWindow - window) <= 2 * WINDOW_SEC then Verified(id) else Rejected
  {
    MintedParts(mac, id, window, mac(TicketMessage(id, window)));
    ParseIntOfDecimal(window);
  }

  /**
   In milliseconds, whatever the phase of the windows: a QR decodes for a minute after it was minted
   (and on a clock up to a minute behind), and from a minute and a half on never.
   */
  lemma MintedQrLasts(mac: Mac, id: Str, mintedMs: int, nowMs: int)
    requires Ideal(mac) && id != [] && COLON !in id
    ensures var decoded := DecodeQr(mac, MintQr(mac, id, WindowOf(mintedMs)), WindowOf(nowMs));
      && (Abs(nowMs - mintedMs) <= 2000 * WINDOW_SEC ==> decoded == Verified(id))
      && (Abs(nowMs - mintedMs) >= 3000 * WINDOW_SEC ==> decoded == Rejected)
  {
    hide DecodeQr, MintQr, WindowOf, Ideal;
    MintedQrDecodesIff(mac, id, WindowOf(mintedMs), WindowOf(nowMs));
    WindowsApart(mintedMs, nowMs);
  }

  lemma WindowsApart(aMs: int, bMs: int)
    ensures Abs(bMs - aMs) <= 2000 * WINDOW_SEC ==> Abs(WindowOf(bMs) - WindowOf(aMs)) <= 2 * WINDOW_SEC
    ensures Abs(bMs - aMs) >= 3000 * WINDOW_SEC ==> Abs(WindowOf(bMs) - WindowOf(aMs)) > 2 * WINDOW_SEC
  {}

  /** In between it depends on the phase alone: at every such age some QR still decodes and some no longer does. */
  lemma MintedQrBetween(distance: int)
    requires 2000 * WINDOW_SEC < distance < 3000 * WINDOW_SEC
    ensures WindowOf(distance) - WindowOf(0) == 2 * WINDOW_SEC
    ensures exists mintedMs :: WindowOf(mintedMs + distance) - WindowOf(mintedMs) == 3 * WINDOW_SEC
  {
    var late := 1000 * WINDOW_SEC - 1;
    assert WindowOf(late + distance) - WindowOf(late) == 3 * WINDOW_SEC;
  }

  /** Whether some payload carrying the signature of a minted QR is accepted for its ticket. */
  ghost predicate Usable(mac: Mac, id: Str, window: int, nowWindow: int) {
    exists payload :: |Split(payload, COLON)| == 3 && Split(payload, COLON)[2] == mac(TicketMessage(id, window))
      && DecodeQr(mac, payload, nowWindow) == Verified(id)
  }

  lemma TicketMessageInjective(id: Str, window: int, id': Str, window': int)
    requires TicketMessage(id, window) == TicketMessage(id', window') && COLON !in id && COLON !in id'
    ensures id == id' && window == window'
  {
    SplitAtFirst(id, Decimal(window), id', Decimal(window'), COLON);
    assert Decimal(window) + [] == Decimal(window) && Decimal(window') + [] == Decimal(window');
    DecimalCancel(window, window', [], []);
  }

  lemma {:induction false} PartsArePlain(s: Str, u: Unit)
    ensures forall i :: 0 <= i < |Split(s, u)| ==> u !in Split(s, u)[i]
  {
    if s != [] { PartsArePlain(s[1..], u); }
  }

  lemma SignedWindow(mac: Mac, payload: Str, nowWindow: int, id: Str) returns (m: int)
    requires DecodeQr(mac, payload, nowWindow) == Verified(id)
    ensures var parts := Split(payload, COLON);
            |parts| == 3 && parts[0] == id && parts[2] == mac(TicketMessage(id, m)) && -60 <= nowWindow - m <= 90
  {
    var parts := Split(payload, COLON);
    var w := ParseInt(parts[1]).value;
    m := if parts[2] == mac(TicketMessage(id, w)) then w else w - WINDOW_SEC;
  }

  /**
   An accepted payload carries the signature of a QR for the very ticket it names, minted between
   two windows after the current one and three before.
   */
  lemma AcceptedQrWasMinted(mac: Mac, payload: Str, nowWindow: int, id: Str)
    requires Ideal(mac) && DecodeQr(mac, payload, nowWindow) == Verified(id)
    ensures |Split(payload, COLON)| == 3
    ensures exists minted :: Split(payload, COLON)[2] == mac(TicketMessage(id, minted)) && -60 <= nowWindow - minted <= 90
    ensures forall other, minted :: COLON !in other && Split(payload, COLON)[2] == mac(TicketMessage(other, minted)) ==>
              other == id && -60 <= nowWindow - minted <= 90
  {
    var parts := Split(payload, COLON);
    PartsArePlain(payload, COLON);
    var m := SignedWindow(mac, payload, nowWindow, id);
    forall other, minted | COLON !in other && parts[2] == mac(TicketMessage(other, minted))
      ensures other == id && -60 <= nowWindow - minted <= 90
    {
      TicketMessageInjective(id, m, other, minted);
    }
  }

  /** A minted signature can be presented, with one window or the next written beside it, exactly in that span. */
  lemma SignatureUsableIff(mac: Mac, id: Str, window: int, nowWindow: int)
    requires Ideal(mac) && id != [] && COLON !in id
    ensures Usable(mac, id, window, nowWindow) <==> -60 <= nowWindow - window <= 90
  {
    var signature := mac(TicketMessage(id, window));
    if -60 <= nowWindow - window <= 90 {
      var written := if nowWindow - window <= 60 then window else window + WINDOW_SEC;
      var payload := Join([id, Decimal(written), signature], COLON);
      MintedParts(mac, id, written, signature);
      ParseIntOfDecimal(written);
      assert DecodeQr(mac, payload, nowWindow) == Verified(id);
    }
    if Usable(mac, id, window, nowWindow) {
      var payload :| |Split(payload, COLON)| == 3 && Split(payload, COLON)[2] == signature
        && DecodeQr(mac, payload, nowWindow) == Verified(id);
      AcceptedQrWasMinted(mac, payload, nowWindow, id);
    }
  }

  // ----- purposes never meet

  const WALLET_PREFIX: Str := Codes("wallet:")
  const CONFIRM_PREFIX: Str := Codes("confirm:")

  function WalletMessage(id: Str, window: int): Str { WALLET_PREFIX + id + [COLON] + Decimal(window) }

  /** A wallet's signature is never a ticket's, nor a couple confirmation's either of them. */
  lemma PurposesAreDisjoint(mac: Mac, ticket: Str, wallet: Str, body: Str, w1: int, w2: int)
    requires Ideal(mac) && COLON !in ticket && PIPE in body
    ensures mac(TicketMessage(ticket, w1)) != mac(WalletMessage(wallet, w2))
    ensures mac(TicketMessage(ticket, w1)) != mac(CONFIRM_PREFIX + body)
    ensures mac(WalletMessage(wallet, w2)) != mac(CONFIRM_PREFIX + body)
  {
    DecimalPlain(w1, COLON);
    DecimalPlain(w1, PIPE);
    if TicketMessage(ticket, w1) == WalletMessage(wallet, w2) {
      WalletHasTwoColons(wallet, w2);
      TicketHasOneColon(ticket, w1);
    }
    if TicketMessage(ticket, w1) == CONFIRM_PREFIX + body {
      var word := CONFIRM_PREFIX[..7];
      assert CONFIRM_PREFIX + body == word + [COLON] + body;
      SplitAtFirst(ticket, Decimal(w1), word, body, COLON);
    }
    assert WalletMessage(wallet, w2)[0] == 119 && (CONFIRM_PREFIX + body)[0] == 99;
  }

  lemma TicketHasOneColon(id: Str, window: int)
    requires COLON !in id
    ensures Count(TicketMessage(id, window), COLON) == 1
  {
    DecimalPlain(window, COLON);
    CountZero(id, COLON);
    CountZero(Decimal(window), COLON);
    CountConcat(id + [COLON], Decimal(window), COLON);
    CountConcat(id, [COLON], COLON);
    assert Count([COLON], COLON) == 1;
  }

  lemma WalletHasTwoColons(id: Str, window: int)
    ensures Count(WalletMessage(id, window), COLON) >= 2
  {
    var word := WALLET_PREFIX[..6];
    assert WALLET_PREFIX == word + [COLON];
    CountConcat(WALLET_PREFIX + id + [COLON], Decimal(window), COLON);
    CountConcat(WALLET_PREFIX + id, [COLON], COLON);
    CountConcat(WALLET_PREFIX, id, COLON);
    CountConcat(word, [COLON], COLON);
    assert Count([COLON], COLON) == 1;
  }

  // ----- the couple confirmation token

  datatype Claims = Claims(entitlement: Str, event: Str, session: Str, device: Str, scansUsed: int, seats: int, expiresAt: int)

  function Fields(c: Claims): (r: seq<Str>)
    ensures |r| == 7
  {
    [c.entitlement, c.event, c.session, c.device, Decimal(c.scansUsed), Decimal(c.seats), Decimal(c.expiresAt)]
  }

  function Body(c: Claims): Str { Join(Fields(c), PIPE) }

  function MintToken(mac: Mac, codec: Codec, c: Claims): Str {
    codec.encode(Body(c)) + [DOT] + mac(CONFIRM_PREFIX + Body(c))
  }

  function VerifyToken(mac: Mac, codec: Codec, token: Str, now: int): Option<Claims> {
    var halves := Split(token, DOT);
    if |halves| < 2 || halves[0] == [] || halves[1] == [] then None
    else
      var body := codec.decode(halves[0]);
      if halves[1] != mac(CONFIRM_PREFIX + body) then None
      else
        var parts := Split(body, PIPE);
        if |parts| != 7 then None
        else
          var expiresAt, used, seats := ParseInt(parts[6]), ParseInt(parts[4]), ParseInt(parts[5]);
          if expiresAt.None? || expiresAt.value < now then None
          else Some(Claims(parts[0], parts[1], parts[2], parts[3], NumberOr(used), NumberOr(seats), expiresAt.value))
  }

  /** Stands for the value of a field that is not a number; no minted token has one. */
  function NumberOr(n: Option<int>): int { if n.Some? then n.value else -1 }

  /** No field can be mistaken for two. */
  predicate BarFree(c: Claims) { PIPE !in c.entitlement && PIPE !in c.event && PIPE !in c.session && PIPE !in c.device }

  lemma MintedHalves(mac: Mac, codec: Codec, c: Claims)
    requires Ideal(mac) && Faithful(codec)
    ensures Split(MintToken(mac, codec, c), DOT) == [codec.encode(Body(c)), mac(CONFIRM_PREFIX + Body(c))]
    ensures codec.encode(Body(c)) != []
  {
    SplitFirst(codec.encode(Body(c)), mac(CONFIRM_PREFIX + Body(c)), DOT);
    SplitPlain(mac(CONFIRM_PREFIX + Body(c)), DOT);
    assert Body(c) != [] by { assert |Body(c)| > 0; }
  }

  lemma {:induction false} JoinBars(parts: seq<Str>, u: Unit)
    requires |parts| >= 1
    ensures Count(Join(parts, u), u) == |parts| - 1 + BarsIn(parts, u)
  {
    if |parts| > 1 {
      JoinBars(parts[1..], u);
      CountConcat(parts[0] + [u], Join(parts[1..], u), u);
      CountConcat(parts[0], [u], u);
      assert Count([u], u) == 1;
    } else {
      assert parts[1..] == [];
    }
  }

  function BarsIn(parts: seq<Str>, u: Unit): nat { if parts == [] then 0 else Count(parts[0], u) + BarsIn(parts[1..], u) }

  lemma {:induction false} NoBarsIff(parts: seq<Str>, u: Unit)
    ensures BarsIn(parts, u) == 0 <==> forall i :: 0 <= i < |parts| ==> u !in parts[i]
  {
    if parts != [] {
      NoBarsIff(parts[1..], u);
      CountZero(parts[0], u);
      assert forall i :: 1 <= i < |parts| ==> parts[i] == parts[1..][i - 1];
    }
  }

  lemma BarFreeIff(c: Claims)
    ensures BarFree(c) <==> |Split(Body(c), PIPE)| == 7
    ensures BarFree(c) ==> Split(Body(c), PIPE) == Fields(c)
  {
    DecimalPlain(c.scansUsed, PIPE);
    DecimalPlain(c.seats, PIPE);
    DecimalPlain(c.expiresAt, PIPE);
    var fields := Fields(c);
    assert BarFree(c) <==> forall i :: 0 <= i < 7 ==> PIPE !in fields[i] by {
      assert fields[0] == c.entitlement && fields[1] == c.event && fields[2] == c.session && fields[3] == c.device;
    }
    SplitLength(Body(c), PIPE);
    JoinBars(fields, PIPE);
    NoBarsIff(fields, PIPE);
    if BarFree(c) { SplitJoin(fields, PIPE); }
  }

  /** A minted token yields exactly its claims until it expires, if and only if no field contains a bar; else nothing. */
  lemma MintedTokenVerifiesIff(mac: Mac, codec: Codec, c: Claims, now: int)
    requires Ideal(mac) && Faithful(codec)
    ensures VerifyToken(mac, codec, MintToken(mac, codec, c), now) == if BarFree(c) && now <= c.expiresAt then Some(c) else None
  {
    MintedHalves(mac, codec, c);
    BarFreeIff(c);
    ParseIntOfDecimal(c.scansUsed);
    ParseIntOfDecimal(c.seats);
    ParseIntOfDecimal(c.expiresAt);
  }

  /** Any accepted token with the signature of a minted one yields the minted claims, whatever else it says. */
  lemma AcceptedTokenWasMinted(mac: Mac, codec: Codec, token: Str, now: int, c: Claims)
    requires Ideal(mac) && VerifyToken(mac, codec, token, now).Some?
    requires |Split(token, DOT)| >= 2 && Split(token, DOT)[1] == mac(CONFIRM_PREFIX + Body(c))
    ensures VerifyToken(mac, codec, token, now) == Some(c) && BarFree(c) && now <= c.expiresAt
  {
    var body := codec.decode(Split(token, DOT)[0]);
    assert CONFIRM_PREFIX + body == CONFIRM_PREFIX + Body(c);
    assert body == (CONFIRM_PREFIX + body)[|CONFIRM_PREFIX|..] == Body(c);
    BarFreeIff(c);
    ParseIntOfDecimal(c.scansUsed);
    ParseIntOfDecimal(c.seats);
    ParseIntOfDecimal(c.expiresAt);
  }
}
