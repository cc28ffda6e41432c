/**
 Dashboard trends: the bucket keys of a date range, and the orders and scans counted into them.
 */
module Trends {
  import opened Common
  import opened Text
  import opened Calendar

  const MAX_TREND_BUCKETS: nat := 400
  const DAY_MS: nat := 86_400_000
  const HOUR_MS: nat := 3_600_000

  datatype Granularity = Hour | Day | Month

  /** ISO 8601 writes an instant with four digits for the year until the year 10000. */
  predicate Dated(ms: nat) { Civil(ms / DAY_MS).year < 10_000 }

  /**
   The key an instant is counted under; at month granularity it is still that of its day. From the
   year 10000 on it has another form, for which the empty text stands.
   */
  function KeyOf(g: Granularity, ms: nat): (key: Str)
    ensures |key| == if !Dated(ms) then 0 else if g == Hour then 16 else 10
  {
    if !Dated(ms) then []
    else if g == Hour then HourText(Civil(ms / DAY_MS), ms % DAY_MS / HOUR_MS) else DayText(Civil(ms / DAY_MS))
  }

  /** A range far enough from the year 10000 for every key it can have. */
  predicate InReach(start: nat) { Civil(start + MAX_TREND_BUCKETS).year < 10_000 && Civil(start).year + 34 < 10_000 }

  function AddMonths(d: Date, index: nat): (ym: (nat, nat))
    requires IsDate(d)
    ensures 1 <= ym.1 <= 12
  {
    var months := d.year * 12 + d.month - 1 + index;
    (months / 12, months % 12 + 1)
  }

  lemma ReachesAll(start: nat, index: nat)
    requires InReach(start) && index <= MAX_TREND_BUCKETS
    ensures Civil(start + index).year < 10_000 && Civil((24 * start + index) / 24).year < 10_000
    ensures AddMonths(Civil(start), index).0 < 10_000
  {
    YearsAscend(start + index, start + MAX_TREND_BUCKETS);
    YearsAscend((24 * start + index) / 24, start + MAX_TREND_BUCKETS);
  }

  /** The key of the bucket that starts `index` units after midnight of day `start`. */
  function BucketKey(g: Granularity, start: nat, index: nat): Str
    requires InReach(start) && index <= MAX_TREND_BUCKETS
  {
    ReachesAll(start, index);
    match g
    case Hour => HourText(Civil((24 * start + index) / 24), (24 * start + index) % 24)
    case Day => DayText(Civil(start + index))
    case Month => var (year, month) := AddMonths(Civil(start), index); MonthText(year, month)
  }

  /** How many buckets the days `start` to `end` span, both included. */
  function BucketCount(g: Granularity, start: nat, end: nat): int
    requires start <= end
  {
    match g
    case Hour => (end - start + 1) * 24
    case Day => end - start + 1
    case Month => (Civil(end).year - Civil(start).year) * 12 + (Civil(end).month - Civil(start).month) + 1
  }

  function Clamped(count: int): (n: nat)
    ensures 1 <= n <= MAX_TREND_BUCKETS
  {
    if count < 1 then 1 else if count > MAX_TREND_BUCKETS then MAX_TREND_BUCKETS else count
  }

  function Keys(g: Granularity, start: nat, count: nat): (r: seq<Str>)
    requires InReach(start) && count <= MAX_TREND_BUCKETS
    ensures |r| == count && forall i :: 0 <= i < count ==> r[i] == BucketKey(g, start, i)
  {
    if count == 0 then [] else Keys(g, start, count - 1) + [BucketKey(g, start, count - 1)]
  }

  /** Reversed bounds are swapped by comparing their texts; the list of keys is cut at its maximum. */
  method BuildRange(from: nat, to: nat, g: Granularity) returns (keys: seq<Str>)
    requires InReach(from) && InReach(to)
    ensures keys == Keys(g, Min(from, to), Clamped(BucketCount(g, Min(from, to), Max(from, to))))
  {
    var earlier, later := from, to;
    YearsAscend(from, from + MAX_TREND_BUCKETS);
    YearsAscend(to, to + MAX_TREND_BUCKETS);
    DayTextDecides(from, to);
    if Less(DayText(Civil(to)), DayText(Civil(from))) { earlier, later := to, from; }
    var count := Clamped(BucketCount(g, earlier, later));
    keys := [];
    for index := 0 to count
      invariant keys == Keys(g, earlier, index)
    {
      keys := keys + [BucketKey(g, earlier, index)];
    }
  }

  /** Dates compare as texts the way they compare as days. */
  lemma DayTextDecides(m: nat, n: nat)
    requires Civil(m).year < 10_000 && Civil(n).year < 10_000
    ensures Less(DayText(Civil(n)), DayText(Civil(m))) <==> n < m
  {
    var s, t := DayText(Civil(m)), DayText(Civil(n));
    assert s + [] == s && t + [] == t;
    if n < m {
      CivilAscends(n, m);
      DayTextOrder(Civil(n), Civil(m), [], []);
    } else if m < n {
      CivilAscends(m, n);
      DayTextOrder(Civil(m), Civil(n), [], []);
      if Less(t, s) { LessTransitive(s, t, s); }
      LessIrreflexive(s);
    } else {
      LessIrreflexive(s);
    }
  }

  // ----- keys are distinct, increasing, and cover the range

  lemma AddMonthsAscends(d: Date, i: nat, j: nat)
    requires IsDate(d) && i < j
    ensures var (y, m) := AddMonths(d, i); var (y', m') := AddMonths(d, j); y < y' || (y == y' && m < m')
  {}

  function UnitMs(g: Granularity): nat { if g == Hour then HOUR_MS else DAY_MS }

  predicate NumberDated(g: Granularity, n: nat) { Civil(if g == Hour then n / 24 else n).year < 10_000 }

  /** The key by number of hours or days since the first day counted. */
  function NumberedKey(g: Granularity, n: nat): Str
    requires g != Month && NumberDated(g, n)
  {
    if g == Hour then HourText(Civil(n / 24), n % 24) else DayText(Civil(n))
  }

  lemma NumberedKeysAscend(g: Granularity, m: nat, n: nat)
    requires g != Month && m < n && NumberDated(g, m) && NumberDated(g, n)
    ensures Less(NumberedKey(g, m), NumberedKey(g, n))
  {
    if g == Hour {
      if m / 24 < n / 24 { CivilAscends(m / 24, n / 24); }
      HourTextOrder(Civil(m / 24), m % 24, Civil(n / 24), n % 24);
    } else {
      CivilAscends(m, n);
      DayTextOrder(Civil(m), Civil(n), [], []);
      assert DayText(Civil(m)) + [] == DayText(Civil(m)) && DayText(Civil(n)) + [] == DayText(Civil(n));
    }
  }

  lemma NumberedKeysDiffer(g: Granularity, m: nat, n: nat)
    requires g != Month && m != n && NumberDated(g, m) && NumberDated(g, n)
    ensures NumberedKey(g, m) != NumberedKey(g, n)
  {
    NumberedKeysAscend(g, Min(m, n), Max(m, n));
    LessIrreflexive(NumberedKey(g, m));
  }

  /** The hour or day an instant belongs to, and the one a range begins with. */
  function NumberOf(g: Granularity, ms: nat): nat { ms / UnitMs(g) }

  function FirstNumber(g: Granularity, start: nat): nat { if g == Hour then 24 * start else start }

  lemma KeyIsNumbered(g: Granularity, ms: nat)
    requires g != Month && Dated(ms)
    ensures NumberDated(g, NumberOf(g, ms)) && KeyOf(g, ms) == NumberedKey(g, NumberOf(g, ms))
  {
    assert ms / HOUR_MS / 24 == ms / DAY_MS && ms / HOUR_MS % 24 == ms % DAY_MS / HOUR_MS;
  }

  lemma BucketIsNumbered(g: Granularity, start: nat, index: nat)
    requires g != Month && InReach(start) && index <= MAX_TREND_BUCKETS
    ensures NumberDated(g, FirstNumber(g, start) + index)
    ensures BucketKey(g, start, index) == NumberedKey(g, FirstNumber(g, start) + index)
  {
    ReachesAll(start, index);
  }

  lemma MonthKeysAscend(start: nat, i: nat, j: nat)
    requires InReach(start) && i < j <= MAX_TREND_BUCKETS
    ensures Less(BucketKey(Month, start, i), BucketKey(Month, start, j))
  {
    ReachesAll(start, i);
    ReachesAll(start, j);
    AddMonthsAscends(Civil(start), i, j);
    var (y, m) := AddMonths(Civil(start), i);
    var (y', m') := AddMonths(Civil(start), j);
    MonthTextOrder(y, m, y', m', [], []);
    assert MonthText(y, m) + [] == MonthText(y, m) && MonthText(y', m') + [] == MonthText(y', m');
  }

  lemma BucketKeysAscend(g: Granularity, start: nat, i: nat, j: nat)
    requires InReach(start) && i < j <= MAX_TREND_BUCKETS
    ensures Less(BucketKey(g, start, i), BucketKey(g, start, j))
  {
    if g == Month {
      MonthKeysAscend(start, i, j);
    } else {
      BucketIsNumbered(g, start, i);
      BucketIsNumbered(g, start, j);
      NumberedKeysAscend(g, FirstNumber(g, start) + i, FirstNumber(g, start) + j);
    }
  }

  /** At every granularity the keys are strictly increasing, so no two buckets share one. */
  lemma KeysAscend(g: Granularity, start: nat, count: nat)
    requires InReach(start) && count <= MAX_TREND_BUCKETS
    ensures Ascending(Keys(g, start, count)) && Distinct(Keys(g, start, count))
  {
    var keys := Keys(g, start, count);
    forall i, j | 0 <= i < j < |keys| ensures Less(keys[i], keys[j]) { BucketKeysAscend(g, start, i, j); }
    forall i, j | 0 <= i < j < |keys| ensures keys[i] != keys[j] { LessIrreflexive(keys[i]); }
  }

  /** A bucket's key is an instant's exactly if the bucket is the instant's hour or day. */
  lemma BucketMatchesIff(g: Granularity, start: nat, index: nat, ms: nat)
    requires g != Month && InReach(start) && index <= MAX_TREND_BUCKETS && Dated(ms)
    ensures BucketKey(g, start, index) == KeyOf(g, ms) <==> FirstNumber(g, start) + index == NumberOf(g, ms)
  {
    hide NumberedKey, KeyOf, BucketKey, NumberDated, FirstNumber, NumberOf, Civil, InReach, Dated;
    KeyIsNumbered(g, ms);
    BucketIsNumbered(g, start, index);
    if FirstNumber(g, start) + index != NumberOf(g, ms) { NumberedKeysDiffer(g, FirstNumber(g, start) + index, NumberOf(g, ms)); }
  }

  lemma KeyAtIff(g: Granularity, start: nat, count: nat, ms: nat)
    requires g != Month && InReach(start) && count <= MAX_TREND_BUCKETS && Dated(ms)
    ensures KeyOf(g, ms) in Keys(g, start, count) <==> FirstNumber(g, start) <= NumberOf(g, ms) < FirstNumber(g, start) + count
  {
    var n, base, keys := NumberOf(g, ms), FirstNumber(g, start), Keys(g, start, count);
    hide KeyOf, BucketKey, FirstNumber, NumberOf, Keys, InReach, Dated;
    forall i | 0 <= i < count ensures keys[i] == KeyOf(g, ms) <==> base + i == n { BucketMatchesIff(g, start, i, ms); }
    if base <= n < base + count { assert keys[n - base] == KeyOf(g, ms); }
  }

  /** A range of buckets from midnight of day `start` on, in milliseconds. */
  function RangeStart(start: nat): nat { start * DAY_MS }

  function RangeEnd(g: Granularity, start: nat, count: nat): nat { RangeStart(start) + count * UnitMs(g) }

  /** For hours and days, an instant falls into a bucket exactly if it lies between the first and the last. */
  lemma KeyInRangeIff(g: Granularity, start: nat, count: nat, ms: nat)
    requires g != Month && InReach(start) && count <= MAX_TREND_BUCKETS
    ensures KeyOf(g, ms) in Keys(g, start, count) <==> RangeStart(start) <= ms < RangeEnd(g, start, count)
  {
    if Dated(ms) {
      KeyAtIff(g, start, count, ms);
      hide KeyOf, Keys, InReach, Dated, Civil;
      InRangeArithmetic(g, start, count, ms);
    } else {
      UndatedIsFar(start, ms);
      KeysHaveText(g, start, count);
    }
  }

  lemma UndatedIsFar(start: nat, ms: nat)
    requires InReach(start) && !Dated(ms)
    ensures forall g, count: nat :: count <= MAX_TREND_BUCKETS ==> ms >= RangeEnd(g, start, count)
  {
    if ms / DAY_MS <= start + MAX_TREND_BUCKETS { YearsAscend(ms / DAY_MS, start + MAX_TREND_BUCKETS); }
  }

  lemma KeysHaveText(g: Granularity, start: nat, count: nat)
    requires InReach(start) && count <= MAX_TREND_BUCKETS
    ensures [] !in Keys(g, start, count)
  {}

  lemma InRangeArithmetic(g: Granularity, start: nat, count: nat, ms: nat)
    requires g != Month
    ensures RangeStart(start) <= ms < RangeEnd(g, start, count)
       <==> FirstNumber(g, start) <= NumberOf(g, ms) < FirstNumber(g, start) + count
  {}

  /** The key of the last hour of day `end`, of the day itself, or of its month. */
  function LastKey(g: Granularity, end: nat): Str
    requires Civil(end).year < 10_000
  {
    match g
    case Hour => HourText(Civil(end), 23)
    case Day => DayText(Civil(end))
    case Month => MonthText(Civil(end).year, Civil(end).month)
  }

  function MonthsApart(a: Date, b: Date): int { (b.year - a.year) * 12 + (b.month - a.month) }

  lemma TwelveMonths(year: nat, month: nat)
    requires month < 12
    ensures (year * 12 + month) / 12 == year && (year * 12 + month) % 12 == month
  {}

  lemma AddMonthsReaches(a: Date, b: Date)
    requires IsDate(a) && IsDate(b) && MonthsApart(a, b) >= 0
    ensures AddMonths(a, MonthsApart(a, b)) == (b.year, b.month)
  {
    TwelveMonths(b.year, b.month - 1);
    assert a.year * 12 + a.month - 1 + MonthsApart(a, b) == b.year * 12 + (b.month - 1);
  }

  lemma CountIsPositive(g: Granularity, start: nat, end: nat)
    requires start <= end
    ensures BucketCount(g, start, end) >= 1
  {
    if start < end { CivilAscends(start, end); }
  }

  lemma MonthTextsDiffer(y: nat, m: nat, y': nat, m': nat)
    requires y < 10_000 && y' < 10_000 && m < 100 && m' < 100 && (y < y' || (y == y' && m < m'))
    ensures MonthText(y, m) != MonthText(y', m')
  {
    MonthTextOrder(y, m, y', m', [], []);
    assert MonthText(y, m) + [] == MonthText(y, m) && MonthText(y', m') + [] == MonthText(y', m');
    LessIrreflexive(MonthText(y, m));
  }

  /** `last` months on, not past the month of `b`, is that month exactly if no month is missing. */
  lemma MonthReachedIff(a: Date, b: Date, last: nat)
    requires IsDate(a) && IsDate(b) && last <= MonthsApart(a, b)
    requires AddMonths(a, last).0 < 10_000 && b.year < 10_000
    ensures last == MonthsApart(a, b) <==> MonthText(AddMonths(a, last).0, AddMonths(a, last).1) == MonthText(b.year, b.month)
  {
    AddMonthsReaches(a, b);
    if last < MonthsApart(a, b) {
      AddMonthsAscends(a, last, MonthsApart(a, b));
      MonthTextsDiffer(AddMonths(a, last).0, AddMonths(a, last).1, b.year, b.month);
    }
    hide MonthText, AddMonths, MonthsApart;
  }

  lemma MonthsCoverIff(start: nat, end: nat)
    requires start <= end && InReach(start) && Civil(end).year < 10_000
    ensures var count := BucketCount(Month, start, end);
      count <= MAX_TREND_BUCKETS <==> BucketKey(Month, start, Clamped(count) - 1) == LastKey(Month, end)
  {
    var last := Clamped(BucketCount(Month, start, end)) - 1;
    CountIsPositive(Month, start, end);
    ReachesAll(start, last);
    hide Civil, AddMonths, MonthText, InReach;
    MonthReachedIff(Civil(start), Civil(end), last);
  }

  /** The last hour of day `end`, or the day itself. */
  function LastNumber(g: Granularity, end: nat): nat { if g == Hour then 24 * end + 23 else end }

  lemma LastKeyIsNumbered(g: Granularity, end: nat)
    requires g != Month && Civil(end).year < 10_000
    ensures NumberDated(g, LastNumber(g, end)) && LastKey(g, end) == NumberedKey(g, LastNumber(g, end))
  {
    assert g == Hour ==> LastNumber(g, end) / 24 == end && LastNumber(g, end) % 24 == 23;
  }

  lemma LastNumberReachedIff(g: Granularity, start: nat, end: nat)
    requires g != Month && start <= end
    ensures var count := BucketCount(g, start, end);
      count <= MAX_TREND_BUCKETS <==> FirstNumber(g, start) + Clamped(count) - 1 == LastNumber(g, end)
  {}

  lemma NumberedCoverIff(g: Granularity, start: nat, end: nat)
    requires g != Month && start <= end && InReach(start) && Civil(end).year < 10_000
    ensures var count := BucketCount(g, start, end);
      count <= MAX_TREND_BUCKETS <==> BucketKey(g, start, Clamped(count) - 1) == LastKey(g, end)
  {
    hide NumberedKey, BucketKey, LastKey, NumberDated, Civil, InReach, FirstNumber, LastNumber, BucketCount;
    var index := Clamped(BucketCount(g, start, end)) - 1;
    BucketIsNumbered(g, start, index);
    LastKeyIsNumbered(g, end);
    LastNumberReachedIff(g, start, end);
    if FirstNumber(g, start) + index != LastNumber(g, end) { NumberedKeysDiffer(g, FirstNumber(g, start) + index, LastNumber(g, end)); }
  }

  lemma RangeCoversIff(g: Granularity, start: nat, end: nat)
    requires g != Month && start <= end
    ensures var count := BucketCount(g, start, end);
      count <= MAX_TREND_BUCKETS <==> RangeEnd(g, start, Clamped(count)) == RangeStart(end + 1)
  {}

  /**
   At every granularity the last key is that of the later bound, its last hour for hours and its
   month for months, exactly when the range was not cut.
   */
  lemma {:induction false} CoversUnlessClamped(g: Granularity, start: nat, end: nat)
    requires start <= end && InReach(start) && Civil(end).year < 10_000
    ensures var count := BucketCount(g, start, end);
      && (count <= 400 <==> BucketKey(g, start, Clamped(count) - 1) == LastKey(g, end))
      && (g != Month ==> (count <= 400 <==> RangeEnd(g, start, Clamped(count)) == RangeStart(end + 1)))
  {
    hide BucketKey, LastKey, Civil, InReach, BucketCount, Clamped, RangeEnd, RangeStart;
    if g == Month {
      MonthsCoverIff(start, end);
    } else {
      NumberedCoverIff(g, start, end);
      RangeCoversIff(g, start, end);
    }
  }

  // ----- counting into the buckets

  datatype OrderStatus = Pending | Paid | RefundRequested | Refunded | Failed | Cancelled

  datatype Order = Order(createdAt: nat, status: OrderStatus, grandTotal: int, refunded: int, quantities: seq<nat>)

  predicate IsCaptured(s: OrderStatus) { s == Paid || s == RefundRequested || s == Refunded }

  function NetPaise(o: Order): int { o.grandTotal - o.refunded }

  function SumOf(ns: seq<nat>): nat { if ns == [] then 0 else SumOf(ns[..|ns| - 1]) + ns[|ns| - 1] }

  function TicketsIn(o: Order): nat { SumOf(o.quantities) }

  /** Something counted at an instant. */
  datatype Item = Item(at: nat, amount: int)

  function RevenueItems(orders: seq<Order>): (r: seq<Item>)
  {
    if orders == [] then []
    else
      var o := orders[|orders| - 1];
      RevenueItems(orders[..|orders| - 1]) + if IsCaptured(o.status) then [Item(o.createdAt, NetPaise(o))] else []
  }

  function TicketItems(orders: seq<Order>): (r: seq<Item>)
  {
    if orders == [] then []
    else
      var o := orders[|orders| - 1];
      TicketItems(orders[..|orders| - 1]) + if IsCaptured(o.status) then [Item(o.createdAt, TicketsIn(o))] else []
  }

  /** One check-in for every scan of a ticket. */
  function ScansOf(scannedAt: seq<nat>): (r: seq<Item>)
    ensures |r| == |scannedAt| && forall i :: 0 <= i < |r| ==> r[i] == Item(scannedAt[i], 1)
  {
    if scannedAt == [] then [] else ScansOf(scannedAt[..|scannedAt| - 1]) + [Item(scannedAt[|scannedAt| - 1], 1)]
  }

  function ScanItems(tickets: seq<seq<nat>>): seq<Item> {
    if tickets == [] then [] else ScanItems(tickets[..|tickets| - 1]) + ScansOf(tickets[|tickets| - 1])
  }

  /** What one more order adds: nothing unless its payment was captured, and then its total less what went back, and its tickets. */
  lemma OneOrderMore(orders: seq<Order>, o: Order)
    ensures var counts := o.status in {Paid, RefundRequested, Refunded};
      && RevenueItems(orders + [o]) == RevenueItems(orders) + (if counts then [Item(o.createdAt, o.grandTotal - o.refunded)] else [])
      && TicketItems(orders + [o]) == TicketItems(orders) + (if counts then [Item(o.createdAt, TicketsIn(o))] else [])
  {
    assert (orders + [o])[..|orders|] == orders;
  }

  /** An order of one more line holds that many more tickets. */
  lemma OneLineMore(o: Order, quantity: nat)
    ensures TicketsIn(o.(quantities := [])) == 0
    ensures TicketsIn(o.(quantities := o.quantities + [quantity])) == TicketsIn(o) + quantity
  {
    assert (o.quantities + [quantity])[..|o.quantities|] == o.quantities;
  }

  /** One more ticket adds a check-in at each of its scans. */
  lemma OneTicketMore(tickets: seq<seq<nat>>, scannedAt: seq<nat>)
    ensures ScanItems(tickets + [scannedAt]) == ScanItems(tickets) + seq(|scannedAt|, i requires 0 <= i < |scannedAt| => Item(scannedAt[i], 1))
  {
    assert (tickets + [scannedAt])[..|tickets|] == tickets;
  }

  function Total(items: seq<Item>): int {
    if items == [] then 0 else Total(items[..|items| - 1]) + items[|items| - 1].amount
  }

  /** What falls on one key. */
  function At(g: Granularity, items: seq<Item>, key: Str): int
  {
    if items == [] then 0
    else
      var last := items[|items| - 1];
      At(g, items[..|items| - 1], key) + if KeyOf(g, last.at) == key then last.amount else 0
  }

  /** What falls on none of the keys. */
  function Outside(g: Granularity, items: seq<Item>, keys: seq<Str>): int
  {
    if items == [] then 0
    else
      var last := items[|items| - 1];
      Outside(g, items[..|items| - 1], keys) + if KeyOf(g, last.at) in keys then 0 else last.amount
  }

  /** The sum over all buckets. */
  function Inside(g: Granularity, items: seq<Item>, keys: seq<Str>): int
  {
    if keys == [] then 0 else Inside(g, items, keys[..|keys| - 1]) + At(g, items, keys[|keys| - 1])
  }

  lemma {:induction false} InsideSnoc(g: Granularity, items: seq<Item>, last: Item, keys: seq<Str>)
    requires Distinct(keys)
    ensures Inside(g, items + [last], keys) == Inside(g, items, keys) + if KeyOf(g, last.at) in keys then last.amount else 0
  {
    assert (items + [last])[..|items|] == items;
    if keys != [] {
      var n := |keys| - 1;
      InsideSnoc(g, items, last, keys[..n]);
      assert keys == keys[..n] + [keys[n]];
      assert keys[n] !in keys[..n];
    }
  }

  /** With distinct keys, the buckets and what is outside them add up to everything there is. */
  lemma {:induction false} BucketsConserve(g: Granularity, items: seq<Item>, keys: seq<Str>)
    requires Distinct(keys)
    ensures Inside(g, items, keys) + Outside(g, items, keys) == Total(items)
  {
    if items == [] {
      NothingInside(g, keys);
    } else {
      var n := |items| - 1;
      BucketsConserve(g, items[..n], keys);
      assert items == items[..n] + [items[n]];
      InsideSnoc(g, items[..n], items[n], keys);
    }
  }

  lemma {:induction false} NothingInside(g: Granularity, keys: seq<Str>)
    ensures Inside(g, [], keys) == 0
  {
    if keys != [] { NothingInside(g, keys[..|keys| - 1]); }
  }

  datatype Bucket = Bucket(revenuePaise: int, tickets: int, checkIns: int)

  datatype OrganizationTrends = OrganizationTrends(keys: seq<Str>, buckets: map<Str, Bucket>, totals: Bucket)

  type Buckets = map<Str, Bucket>

  /** What the first two measures of every bucket should be. */
  ghost predicate CountsOrders(g: Granularity, orders: seq<Order>, keys: seq<Str>, b: Buckets)
  {
    b.Keys == Elements(keys) && forall k | k in b ::
      b[k].revenuePaise == At(g, RevenueItems(orders), k) && b[k].tickets == At(g, TicketItems(orders), k)
  }

  ghost predicate CountsScans(g: Granularity, items: seq<Item>, b: Buckets)
  {
    forall k | k in b :: b[k].checkIns == At(g, items, k)
  }

  lemma AtSnoc(g: Granularity, items: seq<Item>, last: Item, key: Str)
    ensures At(g, items + [last], key) == At(g, items, key) + if KeyOf(g, last.at) == key then last.amount else 0
  {
    assert (items + [last])[..|items|] == items;
  }

  lemma OneMoreOrder(orders: seq<Order>, i: nat)
    requires i < |orders|
    ensures RevenueItems(orders[..i + 1])
         == RevenueItems(orders[..i]) + if IsCaptured(orders[i].status) then [Item(orders[i].createdAt, NetPaise(orders[i]))] else []
    ensures TicketItems(orders[..i + 1])
         == TicketItems(orders[..i]) + if IsCaptured(orders[i].status) then [Item(orders[i].createdAt, TicketsIn(orders[i]))] else []
  {
    assert orders[..i + 1][..i] == orders[..i];
  }

  /** The buckets after one more order. */
  function WithOrder(g: Granularity, b: Buckets, o: Order): Buckets
  {
    var key := KeyOf(g, o.createdAt);
    if IsCaptured(o.status) && key in b then
      b[key := Bucket(b[key].revenuePaise + NetPaise(o), b[key].tickets + TicketsIn(o), b[key].checkIns)]
    else b
  }

  lemma AtOneMoreOrder(g: Granularity, orders: seq<Order>, i: nat, key: Str)
    requires i < |orders|
    ensures var more := IsCaptured(orders[i].status) && KeyOf(g, orders[i].createdAt) == key;
      && At(g, RevenueItems(orders[..i + 1]), key) == At(g, RevenueItems(orders[..i]), key) + (if more then NetPaise(orders[i]) else 0)
      && At(g, TicketItems(orders[..i + 1]), key) == At(g, TicketItems(orders[..i]), key) + (if more then TicketsIn(orders[i]) else 0)
  {
    OneMoreOrder(orders, i);
    var revenue, count := RevenueItems(orders[..i]), TicketItems(orders[..i]);
    assert revenue + [] == revenue && count + [] == count;
    if IsCaptured(orders[i].status) {
      AtSnoc(g, RevenueItems(orders[..i]), Item(orders[i].createdAt, NetPaise(orders[i])), key);
      AtSnoc(g, TicketItems(orders[..i]), Item(orders[i].createdAt, TicketsIn(orders[i])), key);
    }
  }

  lemma OrderCounted(g: Granularity, orders: seq<Order>, i: nat, keys: seq<Str>, b: Buckets)
    requires i < |orders| && CountsOrders(g, orders[..i], keys, b)
    ensures CountsOrders(g, orders[..i + 1], keys, WithOrder(g, b, orders[i]))
  {
    var b' := WithOrder(g, b, orders[i]);
    hide RevenueItems, TicketItems, At, KeyOf, TicketsIn, NetPaise, Elements;
    forall k | k in b'
      ensures b'[k].revenuePaise == At(g, RevenueItems(orders[..i + 1]), k) && b'[k].tickets == At(g, TicketItems(orders[..i + 1]), k)
    {
      AtOneMoreOrder(g, orders, i, k);
    }
  }

  /** Adds every captured order to the bucket of its instant; one outside the range is skipped. */
  method CountOrders(g: Granularity, orders: seq<Order>, keys: seq<Str>, empty: Buckets) returns (b: Buckets)
    requires CountsOrders(g, [], keys, empty)
    ensures CountsOrders(g, orders, keys, b)
    ensures b.Keys == empty.Keys && forall k | k in b :: b[k].checkIns == empty[k].checkIns
  {
    b := empty;
    assert orders[..0] == [] && orders[..|orders|] == orders;
    hide CountsOrders, KeyOf, TicketsIn, NetPaise, IsCaptured;
    for i := 0 to |orders|
      invariant CountsOrders(g, orders[..i], keys, b)
      invariant b.Keys == empty.Keys && forall k | k in b :: b[k].checkIns == empty[k].checkIns
    {
      OrderCounted(g, orders, i, keys, b);
      b := WithOrder(g, b, orders[i]);
    }
  }

  /** Adds one check-in for every scan of every ticket. */
  method CountCheckIns(g: Granularity, tickets: seq<seq<nat>>, counted: Buckets) returns (b: Buckets)
    requires CountsScans(g, [], counted)
    ensures CountsScans(g, ScanItems(tickets), b)
    ensures b.Keys == counted.Keys && forall k | k in b :: b[k].(checkIns := 0) == counted[k].(checkIns := 0)
  {
    b := counted;
    for i := 0 to |tickets|
      invariant CountsScans(g, ScanItems(tickets[..i]), b)
      invariant b.Keys == counted.Keys && forall k | k in b :: b[k].(checkIns := 0) == counted[k].(checkIns := 0)
    {
      var instants := tickets[i];
      ghost var before := ScanItems(tickets[..i]);
      assert tickets[..i + 1][..i] == tickets[..i];
      b := CountInstants(g, instants, before, b);
      assert ScanItems(tickets[..i + 1]) == before + ScansOf(instants);
    }
    assert tickets[..|tickets|] == tickets;
  }

  function WithCheckIn(b: Buckets, key: Str): Buckets {
    if key in b then b[key := Bucket(b[key].revenuePaise, b[key].tickets, b[key].checkIns + 1)] else b
  }

  lemma CheckInCounted(g: Granularity, before: seq<Item>, instants: seq<nat>, j: nat, b: Buckets)
    requires j < |instants|
    requires CountsScans(g, before + ScansOf(instants[..j]), b)
    ensures CountsScans(g, before + ScansOf(instants[..j + 1]), WithCheckIn(b, KeyOf(g, instants[j])))
  {
    var items, last := before + ScansOf(instants[..j]), Item(instants[j], 1);
    assert instants[..j + 1][..j] == instants[..j];
    assert before + ScansOf(instants[..j + 1]) == items + [last];
    var b' := WithCheckIn(b, KeyOf(g, instants[j]));
    hide ScansOf, KeyOf, At;
    forall k | k in b' ensures b'[k].checkIns == At(g, items + [last], k) { AtSnoc(g, items, last, k); }
  }

  method CountInstants(g: Granularity, instants: seq<nat>, ghost before: seq<Item>, counted: Buckets) returns (b: Buckets)
    requires CountsScans(g, before, counted)
    ensures CountsScans(g, before + ScansOf(instants), b)
    ensures b.Keys == counted.Keys && forall k | k in b :: b[k].(checkIns := 0) == counted[k].(checkIns := 0)
  {
    b := counted;
    assert before + ScansOf(instants[..0]) == before;
    assert instants[..|instants|] == instants;
    hide CountsScans, KeyOf, ScansOf;
    for j := 0 to |instants|
      invariant CountsScans(g, before + ScansOf(instants[..j]), b)
      invariant b.Keys == counted.Keys && forall k | k in b :: b[k].(checkIns := 0) == counted[k].(checkIns := 0)
    {
      CheckInCounted(g, before, instants, j, b);
      b := WithCheckIn(b, KeyOf(g, instants[j]));
    }
  }

  /** The totals, which count every captured order and every scan, in range or not. */
  method SumTotals(orders: seq<Order>, tickets: seq<seq<nat>>) returns (t: Bucket)
    ensures t == Bucket(Total(RevenueItems(orders)), Total(TicketItems(orders)), Total(ScanItems(tickets)))
  {
    var revenue, count, checkIns := 0, 0, 0;
    assert orders[..|orders|] == orders;
    for i := 0 to |orders|
      invariant revenue == Total(RevenueItems(orders[..i])) && count == Total(TicketItems(orders[..i]))
    {
      TotalOneMoreOrder(orders, i);
      if IsCaptured(orders[i].status) {
        revenue, count := revenue + NetPaise(orders[i]), count + TicketsIn(orders[i]);
      }
    }
    for i := 0 to |tickets|
      invariant checkIns == Total(ScanItems(tickets[..i]))
    {
      assert tickets[..i + 1][..i] == tickets[..i];
      TotalConcat(ScanItems(tickets[..i]), ScansOf(tickets[i]));
      OneEach(tickets[i]);
      checkIns := checkIns + |tickets[i]|;
    }
    assert tickets[..|tickets|] == tickets;
    t := Bucket(revenue, count, checkIns);
  }

  lemma TotalOneMoreOrder(orders: seq<Order>, i: nat)
    requires i < |orders|
    ensures Total(RevenueItems(orders[..i + 1])) == Total(RevenueItems(orders[..i])) + if IsCaptured(orders[i].status) then NetPaise(orders[i]) else 0
    ensures Total(TicketItems(orders[..i + 1])) == Total(TicketItems(orders[..i])) + if IsCaptured(orders[i].status) then TicketsIn(orders[i]) else 0
  {
    OneMoreOrder(orders, i);
    hide RevenueItems, TicketItems, Total, NetPaise, TicketsIn, IsCaptured;
    TotalPerhapsOneMore(RevenueItems(orders[..i]), IsCaptured(orders[i].status), Item(orders[i].createdAt, NetPaise(orders[i])));
    TotalPerhapsOneMore(TicketItems(orders[..i]), IsCaptured(orders[i].status), Item(orders[i].createdAt, TicketsIn(orders[i])));
  }

  lemma TotalPerhapsOneMore(items: seq<Item>, more: bool, item: Item)
    ensures Total(items + if more then [item] else []) == Total(items) + if more then item.amount else 0
  {
    TotalConcat(items, if more then [item] else []);
    TotalOfOne(item);
  }

  lemma TotalOfOne(item: Item)
    ensures Total([item]) == item.amount
  {
    assert [item][..0] == [];
  }

  lemma {:induction false} TotalConcat(items: seq<Item>, more: seq<Item>)
    ensures Total(items + more) == Total(items) + Total(more)
  {
    if more == [] {
      assert items + more == items;
    } else {
      assert (items + more)[..|items + more| - 1] == items + more[..|more| - 1];
      TotalConcat(items, more[..|more| - 1]);
    }
  }

  lemma {:induction false} OneEach(scannedAt: seq<nat>)
    ensures Total(ScansOf(scannedAt)) == |scannedAt|
  {
    if scannedAt != [] {
      OneEach(scannedAt[..|scannedAt| - 1]);
      assert ScansOf(scannedAt)[..|scannedAt| - 1] == ScansOf(scannedAt[..|scannedAt| - 1]);
    }
  }

  method EmptyBuckets(g: Granularity, keys: seq<Str>) returns (buckets: Buckets)
    ensures CountsOrders(g, [], keys, buckets) && CountsScans(g, [], buckets)
  {
    buckets := map[];
    for i := 0 to |keys|
      invariant buckets.Keys == Elements(keys[..i]) && forall k | k in buckets :: buckets[k] == Bucket(0, 0, 0)
    {
      assert keys[..i + 1] == keys[..i] + [keys[i]];
      buckets := buckets[keys[i] := Bucket(0, 0, 0)];
    }
    assert keys[..|keys|] == keys;
  }

  method GetTrends(from: nat, to: nat, g: Granularity, orders: seq<Order>, tickets: seq<seq<nat>>) returns (t: OrganizationTrends)
    requires InReach(from) && InReach(to)
    ensures t.keys == Keys(g, Min(from, to), Clamped(BucketCount(g, Min(from, to), Max(from, to))))
    ensures t.buckets.Keys == Elements(t.keys)
    ensures forall k | k in t.buckets ::
      t.buckets[k] == Bucket(At(g, RevenueItems(orders), k), At(g, TicketItems(orders), k), At(g, ScanItems(tickets), k))
    ensures t.totals == Bucket(Total(RevenueItems(orders)), Total(TicketItems(orders)), Total(ScanItems(tickets)))
  {
    var keys := BuildRange(from, to, g);
    hide RevenueItems, TicketItems, ScanItems, At, Keys, KeyOf, Total, InReach;
    var buckets := EmptyBuckets(g, keys);
    buckets := CountOrders(g, orders, keys, buckets);
    buckets := CountCheckIns(g, tickets, buckets);
    var totals := SumTotals(orders, tickets);
    t := OrganizationTrends(keys, buckets, totals);
  }

  // ----- what a dashboard can rely on

  /**
   For hours and days: the buckets hold exactly what lies in the range, so together with what lies
   outside it they make up the reported total. This is one measure; the three obey it alike.
   */
  lemma TrendsConserve(g: Granularity, start: nat, count: nat, items: seq<Item>)
    requires g != Month && InReach(start) && count <= MAX_TREND_BUCKETS
    ensures Inside(g, items, Keys(g, start, count)) == Total(Within(items, RangeStart(start), RangeEnd(g, start, count)))
    ensures Inside(g, items, Keys(g, start, count)) + Outside(g, items, Keys(g, start, count)) == Total(items)
  {
    KeysAscend(g, start, count);
    BucketsConserve(g, items, Keys(g, start, count));
    InsideIsWithin(g, start, count, items);
  }

  /** The items from `first` up to, but not at, `end`. */
  function Within(items: seq<Item>, first: int, end: int): seq<Item> {
    if items == [] then []
    else
      var last := items[|items| - 1];
      Within(items[..|items| - 1], first, end) + if first <= last.at < end then [last] else []
  }

  lemma WithinSnoc(items: seq<Item>, last: Item, first: int, end: int)
    ensures Total(Within(items + [last], first, end)) == Total(Within(items, first, end)) + if first <= last.at < end then last.amount else 0
  {
    var before := Within(items, first, end);
    assert (items + [last])[..|items|] == items && before + [] == before;
    TotalConcat(before, [last]);
    TotalOfOne(last);
  }

  lemma NothingWithin(first: int, end: int)
    ensures Total(Within([], first, end)) == 0
  {}

  lemma OneMoreInside(g: Granularity, start: nat, count: nat, items: seq<Item>, last: Item)
    requires g != Month && InReach(start) && count <= MAX_TREND_BUCKETS
    ensures var keys, from, end := Keys(g, start, count), RangeStart(start), RangeEnd(g, start, count);
      Inside(g, items + [last], keys) - Inside(g, items, keys) == Total(Within(items + [last], from, end)) - Total(Within(items, from, end))
  {
    hide Inside, Keys, KeyOf, Within, InReach, Total, RangeStart, RangeEnd, Distinct, Ascending;
    KeysAscend(g, start, count);
    KeyInRangeIff(g, start, count, last.at);
    InsideSnoc(g, items, last, Keys(g, start, count));
    WithinSnoc(items, last, RangeStart(start), RangeEnd(g, start, count));
  }

  lemma {:induction false} InsideIsWithin(g: Granularity, start: nat, count: nat, items: seq<Item>)
    requires g != Month && InReach(start) && count <= MAX_TREND_BUCKETS
    ensures Inside(g, items, Keys(g, start, count)) == Total(Within(items, RangeStart(start), RangeEnd(g, start, count)))
  {
    hide Inside, Keys, Within, InReach, Total, RangeStart, RangeEnd;
    if items == [] {
      NothingInside(g, Keys(g, start, count));
      NothingWithin(RangeStart(start), RangeEnd(g, start, count));
    } else {
      var init, last := items[..|items| - 1], items[|items| - 1];
      InsideIsWithin(g, start, count, init);
      OneMoreInside(g, start, count, init, last);
      assert items == init + [last];
    }
  }

  /** At month granularity no instant has the key of a bucket, so every bucket of every chart is zero. */
  lemma {:induction false} MonthBucketsStayEmpty(start: nat, count: nat, items: seq<Item>)
    requires InReach(start) && count <= MAX_TREND_BUCKETS
    ensures forall k | k in Keys(Month, start, count) :: At(Month, items, k) == 0
    ensures Outside(Month, items, Keys(Month, start, count)) == Total(items)
  {
    var keys := Keys(Month, start, count);
    if items != [] {
      var n := |items| - 1;
      MonthBucketsStayEmpty(start, count, items[..n]);
      assert |KeyOf(Month, items[n].at)| != 7;
      assert forall i :: 0 <= i < |keys| ==> |keys[i]| == 7;
    }
  }

  /** So a monthly chart accounts for what lies in its range if and only if that comes to nothing. */
  lemma {:induction false} MonthConservesIff(start: nat, count: nat, items: seq<Item>, first: int, end: int)
    requires InReach(start) && count <= MAX_TREND_BUCKETS
    ensures Inside(Month, items, Keys(Month, start, count)) == Total(Within(items, first, end)) <==> Total(Within(items, first, end)) == 0
  {
    KeysAscend(Month, start, count);
    BucketsConserve(Month, items, Keys(Month, start, count));
    MonthBucketsStayEmpty(start, count, items);
  }
}
