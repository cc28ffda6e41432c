/**
 The outbox as a value: rows keyed by event id, in the order they were first appended,
 and what one drain of the bus does to it (memory-outbox-store.ts, event-bus.ts).
 */
module Outbox {
  import opened Common

  const OUTBOX_MAX_ATTEMPTS: nat := 5
  const LIST_LIMIT: nat := 100

  type EventId = nat

  type EventType = string

  datatype Event = Event(id: EventId, kind: EventType)

  datatype RowStatus = Pending | Processed | DeadLettered

  datatype Row = Row(event: Event, status: RowStatus, attempts: nat)

  datatype Box = Box(rows: map<EventId, Row>, order: seq<EventId>)

  /** The insertion order of a map lists each key once. */
  ghost predicate Ok(b: Box) {
    && Distinct(b.order)
    && (forall id :: id in b.order <==> id in b.rows)
    && (forall id | id in b.rows :: b.rows[id].event.id == id)
  }

  /** Appending an id again restarts its row in place. */
  function Append(b: Box, e: Event): Box {
    Box(b.rows[e.id := Row(e, Pending, 0)], if e.id in b.rows then b.order else b.order + [e.id])
  }

  function AppendAll(b: Box, es: seq<Event>): Box {
    if es == [] then b else Append(AppendAll(b, es[..|es| - 1]), es[|es| - 1])
  }

  predicate Listable(r: Row) { r.status == Pending && r.attempts < OUTBOX_MAX_ATTEMPTS }

  function ListableIds(rows: map<EventId, Row>, order: seq<EventId>): (r: seq<EventId>)
    ensures |r| <= |order| && forall id :: id in r <==> id in order && id in rows && Listable(rows[id])
  {
    if order == [] then []
    else if order[0] in rows && Listable(rows[order[0]]) then [order[0]] + ListableIds(rows, order[1..])
    else ListableIds(rows, order[1..])
  }

  function FirstOf(ids: seq<EventId>, limit: nat): (r: seq<EventId>)
    ensures r <= ids && |r| == if |ids| < limit then |ids| else limit
  {
    if |ids| < limit then ids else ids[..limit]
  }

  /** `a` stands before `b`. */
  predicate Precedes(order: seq<EventId>, a: EventId, b: EventId) { exists i, j :: 0 <= i < j < |order| && order[i] == a && order[j] == b }

  /** The listable rows keep the order of insertion. */
  lemma {:induction false} ListableInOrder(rows: map<EventId, Row>, order: seq<EventId>, a: EventId, b: EventId)
    requires Distinct(order)
    ensures Precedes(ListableIds(rows, order), a, b)
       <==> Precedes(order, a, b) && a in ListableIds(rows, order) && b in ListableIds(rows, order)
  {
    if order != [] {
      var rest := order[1..];
      ListableInOrder(rows, rest, a, b);
      HeadPrecedes(order, a, b);
      assert order == [order[0]] + rest && order[0] !in rest;
      if order[0] in rows && Listable(rows[order[0]]) { HeadPrecedes(ListableIds(rows, order), a, b); }
    }
  }

  lemma HeadPrecedes(order: seq<EventId>, a: EventId, b: EventId)
    requires order != []
    ensures Precedes(order, a, b) <==> (a == order[0] && b in order[1..]) || Precedes(order[1..], a, b)
  {
    var rest := order[1..];
    assert forall i :: 0 < i < |order| ==> order[i] == rest[i - 1];
    if a == order[0] && b in rest {
      var j :| 0 <= j < |rest| && rest[j] == b;
      assert order[0] == a && order[j + 1] == b;
    }
    if Precedes(rest, a, b) {
      var i, j :| 0 <= i < j < |rest| && rest[i] == a && rest[j] == b;
      assert order[i + 1] == a && order[j + 1] == b;
    }
  }

  /** The rows one drain takes up. */
  function ListPending(b: Box): seq<EventId> { FirstOf(ListableIds(b.rows, b.order), LIST_LIMIT) }

  /** A listing is the front of what is listable, in the order of insertion: nothing overtakes. */
  lemma ListingIsTheFront(b: Box)
    requires Ok(b)
    ensures var listed := ListPending(b);
      && (forall i, j :: 0 <= i < j < |listed| ==> Precedes(b.order, listed[i], listed[j]))
      && (forall id, later :: later in listed && id in b.rows && Listable(b.rows[id]) && Precedes(b.order, id, later) ==> id in listed)
      && (forall id :: id in listed ==> id in b.rows && Listable(b.rows[id]))
      && |listed| <= 100
      && (|listed| < 100 ==> forall id | id in b.rows && Listable(b.rows[id]) :: id in listed)
  {
    var all, listed := ListableIds(b.rows, b.order), ListPending(b);
    forall i, j | 0 <= i < j < |listed| ensures Precedes(b.order, listed[i], listed[j]) {
      assert all[i] == listed[i] && all[j] == listed[j];
      ListableInOrder(b.rows, b.order, listed[i], listed[j]);
    }
    forall id, later | later in listed && id in b.rows && Listable(b.rows[id]) && Precedes(b.order, id, later) ensures id in listed {
      ListableDistinct(b.rows, b.order);
      var l :| 0 <= l < |listed| && listed[l] == later;
      assert all[l] == later;
      ListableInOrder(b.rows, b.order, id, later);
      var i, j :| 0 <= i < j < |all| && all[i] == id && all[j] == later;
      assert j == l && listed[i] == id;
    }
  }

  function WithStatus(r: Row, status: RowStatus): Row { Row(r.event, status, r.attempts) }

  /** One more failed attempt; the store itself gives up at its limit. */
  function Bumped(r: Row): Row {
    Row(r.event, if r.attempts + 1 >= OUTBOX_MAX_ATTEMPTS then DeadLettered else r.status, r.attempts + 1)
  }

  /** A row after one dispatch: delivered to every handler, or one attempt used up. */
  function Settled(r: Row, delivered: bool, maxAttempts: int): Row {
    if delivered then WithStatus(r, Processed)
    else if Bumped(r).attempts >= maxAttempts then WithStatus(Bumped(r), DeadLettered)
    else Bumped(r)
  }

  function Settle(b: Box, id: EventId, delivered: bool, maxAttempts: int): Box {
    if id in b.rows then Box(b.rows[id := Settled(b.rows[id], delivered, maxAttempts)], b.order) else b
  }

  /** One drain during which nothing was appended: every listed row is settled, and no other row moves. */
  ghost predicate Drained(b: Box, b': Box, maxAttempts: int) {
    && b'.order == b.order && b'.rows.Keys == b.rows.Keys
    && forall id | id in b.rows ::
         if id in ListPending(b) then
           b'.rows[id] == Settled(b.rows[id], true, maxAttempts) || b'.rows[id] == Settled(b.rows[id], false, maxAttempts)
         else b'.rows[id] == b.rows[id]
  }

  // ----- how long a row can stay pending

  /** Attempts a row gets: the bus's own limit, and the store's, whichever comes first. */
  function Cap(maxAttempts: int): (c: nat)
    ensures 1 <= c <= 5
  {
    if maxAttempts < 1 then 1 else if maxAttempts < OUTBOX_MAX_ATTEMPTS then maxAttempts else OUTBOX_MAX_ATTEMPTS
  }

  ghost predicate WithinCap(b: Box, maxAttempts: int) {
    forall id | id in b.rows && b.rows[id].status == Pending :: b.rows[id].attempts < Cap(maxAttempts)
  }

  ghost predicate NothingPending(b: Box) {
    forall id | id in b.rows :: b.rows[id].status != Pending
  }

  lemma ListedExactlyThePending(b: Box, maxAttempts: int)
    requires Ok(b) && WithinCap(b, maxAttempts)
    ensures forall id :: id in ListableIds(b.rows, b.order) <==> id in b.rows && b.rows[id].status == Pending
    ensures ListPending(b) == [] <==> NothingPending(b)
  {
    var ids := ListableIds(b.rows, b.order);
    assert ids != [] ==> ids[0] in ids && ListPending(b) != [];
  }

  /** Attempts still available to pending rows. */
  function Remaining(rows: map<EventId, Row>, order: seq<EventId>, maxAttempts: int): nat
    requires forall id | id in rows && rows[id].status == Pending :: rows[id].attempts < Cap(maxAttempts)
  {
    if order == [] then 0
    else
      var id := order[0];
      (if id in rows && rows[id].status == Pending then Cap(maxAttempts) - rows[id].attempts else 0)
      + Remaining(rows, order[1..], maxAttempts)
  }

  lemma DrainKeepsWithinCap(b: Box, b': Box, maxAttempts: int)
    requires Ok(b) && WithinCap(b, maxAttempts) && Drained(b, b', maxAttempts)
    ensures Ok(b') && WithinCap(b', maxAttempts)
    ensures forall id | id in b.rows && b'.rows[id].status == Pending :: b.rows[id].status == Pending
  {
    forall id | id in b'.rows ensures b'.rows[id].event.id == id {}
  }

  lemma {:induction false} RemainingShrinks(b: Box, b': Box, order: seq<EventId>, maxAttempts: int)
    requires Ok(b) && WithinCap(b, maxAttempts) && WithinCap(b', maxAttempts) && Drained(b, b', maxAttempts)
    ensures Remaining(b'.rows, order, maxAttempts) <= Remaining(b.rows, order, maxAttempts)
    ensures (exists id :: id in order && id in ListPending(b)) ==>
              Remaining(b'.rows, order, maxAttempts) < Remaining(b.rows, order, maxAttempts)
  {
    if order != [] {
      RemainingShrinks(b, b', order[1..], maxAttempts);
      ListedExactlyThePending(b, maxAttempts);
      assert order[0] in ListPending(b) ==> order[0] in ListableIds(b.rows, b.order);
    }
  }

  /** With nothing appended, a drain of an outbox with pending rows always uses up an attempt. */
  lemma DrainMakesProgress(b: Box, b': Box, maxAttempts: int)
    requires Ok(b) && WithinCap(b, maxAttempts) && Drained(b, b', maxAttempts) && !NothingPending(b)
    ensures WithinCap(b', maxAttempts)
    ensures Remaining(b'.rows, b'.order, maxAttempts) < Remaining(b.rows, b.order, maxAttempts)
  {
    DrainKeepsWithinCap(b, b', maxAttempts);
    ListedExactlyThePending(b, maxAttempts);
    RemainingShrinks(b, b', b.order, maxAttempts);
    assert ListPending(b)[0] in ListPending(b);
  }

  ghost predicate DrainedAt(bs: seq<Box>, maxAttempts: int, j: nat)
    requires j + 1 < |bs|
  {
    Drained(bs[j], bs[j + 1], maxAttempts)
  }

  /** Successive drains with nothing appended in between. */
  ghost predicate DrainChain(bs: seq<Box>, maxAttempts: int) {
    && |bs| > 0 && Ok(bs[0]) && WithinCap(bs[0], maxAttempts)
    && forall j :: 0 <= j < |bs| - 1 ==> DrainedAt(bs, maxAttempts, j)
  }

  lemma {:induction false} ChainKeepsWithinCap(bs: seq<Box>, maxAttempts: int, j: nat)
    requires DrainChain(bs, maxAttempts) && j < |bs|
    ensures Ok(bs[j]) && WithinCap(bs[j], maxAttempts) && bs[j].order == bs[0].order
  {
    if j > 0 {
      ChainKeepsWithinCap(bs, maxAttempts, j - 1);
      assert DrainedAt(bs, maxAttempts, j - 1);
      DrainKeepsWithinCap(bs[j - 1], bs[j], maxAttempts);
    }
  }

  lemma ChainTail(bs: seq<Box>, maxAttempts: int)
    requires DrainChain(bs, maxAttempts) && |bs| > 1
    ensures DrainChain(bs[1..], maxAttempts)
  {
    assert DrainedAt(bs, maxAttempts, 0);
    DrainKeepsWithinCap(bs[0], bs[1], maxAttempts);
    forall j | 0 <= j < |bs[1..]| - 1 ensures DrainedAt(bs[1..], maxAttempts, j) {
      assert DrainedAt(bs, maxAttempts, j + 1);
    }
  }

  /** Draining always terminates: after as many drains as attempts remain, nothing is pending. */
  lemma {:induction false} EnoughDrainsEmptyTheOutbox(bs: seq<Box>, maxAttempts: int)
    requires DrainChain(bs, maxAttempts) && |bs| > Remaining(bs[0].rows, bs[0].order, maxAttempts)
    ensures NothingPending(bs[|bs| - 1])
    decreases |bs|
  {
    if |bs| == 1 {
      ListedExactlyThePending(bs[0], maxAttempts);
      if !NothingPending(bs[0]) { RemainingPositive(bs[0], bs[0].order, maxAttempts); }
    } else {
      assert DrainedAt(bs, maxAttempts, 0);
      DrainKeepsWithinCap(bs[0], bs[1], maxAttempts);
      if NothingPending(bs[0]) {
        StaysEmpty(bs, maxAttempts, |bs| - 1);
      } else {
        DrainMakesProgress(bs[0], bs[1], maxAttempts);
        ChainTail(bs, maxAttempts);
        EnoughDrainsEmptyTheOutbox(bs[1..], maxAttempts);
      }
    }
  }

  lemma {:induction false} RemainingPositive(b: Box, order: seq<EventId>, maxAttempts: int)
    requires WithinCap(b, maxAttempts) && exists id :: id in order && id in b.rows && b.rows[id].status == Pending
    ensures Remaining(b.rows, order, maxAttempts) > 0
  {
    if order[0] !in b.rows || b.rows[order[0]].status != Pending { RemainingPositive(b, order[1..], maxAttempts); }
  }

  lemma DrainKeepsEmpty(b: Box, b': Box, maxAttempts: int)
    requires Ok(b) && WithinCap(b, maxAttempts) && Drained(b, b', maxAttempts) && NothingPending(b)
    ensures NothingPending(b')
  {
    DrainKeepsWithinCap(b, b', maxAttempts);
  }

  lemma {:induction false} StaysEmpty(bs: seq<Box>, maxAttempts: int, j: nat)
    requires DrainChain(bs, maxAttempts) && NothingPending(bs[0]) && j < |bs|
    ensures NothingPending(bs[j])
  {
    if j > 0 {
      StaysEmpty(bs, maxAttempts, j - 1);
      ChainKeepsWithinCap(bs, maxAttempts, j - 1);
      assert DrainedAt(bs, maxAttempts, j - 1);
      DrainKeepsEmpty(bs[j - 1], bs[j], maxAttempts);
    }
  }

  // ----- how many drains are enough

  lemma {:induction false} FewerListable(rows: map<EventId, Row>, rows': map<EventId, Row>, order: seq<EventId>)
    requires forall id | id in rows' && Listable(rows'[id]) :: id in rows && Listable(rows[id])
    ensures |ListableIds(rows', order)| <= |ListableIds(rows, order)|
  {
    if order != [] { FewerListable(rows, rows', order[1..]); }
  }

  /** One listing reaches every row that can be listed. */
  ghost predicate OneListing(b: Box) { |ListableIds(b.rows, b.order)| <= LIST_LIMIT }

  ghost predicate Aged(b: Box, j: nat) {
    forall id | id in b.rows && b.rows[id].status == Pending :: b.rows[id].attempts >= j
  }

  lemma DrainAges(b: Box, b': Box, maxAttempts: int, j: nat)
    requires Ok(b) && WithinCap(b, maxAttempts) && Drained(b, b', maxAttempts) && Aged(b, j)
    requires OneListing(b)
    ensures Aged(b', j + 1)
  {
    ListedExactlyThePending(b, maxAttempts);
    var listed := ListPending(b);
    assert listed == ListableIds(b.rows, b.order);
    forall id | id in b'.rows && b'.rows[id].status == Pending ensures b'.rows[id].attempts >= j + 1 {
      assert id in listed ==> b.rows[id].status == Pending;
    }
  }

  lemma DrainListsFewer(b: Box, b': Box, maxAttempts: int)
    requires Ok(b) && WithinCap(b, maxAttempts) && Drained(b, b', maxAttempts)
    requires OneListing(b)
    ensures OneListing(b')
  {
    DrainKeepsWithinCap(b, b', maxAttempts);
    forall id | id in b'.rows && Listable(b'.rows[id]) ensures id in b.rows && Listable(b.rows[id]) {}
    FewerListable(b.rows, b'.rows, b.order);
  }

  /** Every drain that lists all pending rows makes each survivor one attempt older. */
  lemma {:induction false} AttemptsGrow(bs: seq<Box>, maxAttempts: int, k: nat)
    requires DrainChain(bs, maxAttempts) && OneListing(bs[0]) && Aged(bs[0], k)
    ensures Aged(bs[|bs| - 1], k + |bs| - 1) && WithinCap(bs[|bs| - 1], maxAttempts)
    decreases |bs|
  {
    if |bs| > 1 {
      assert DrainedAt(bs, maxAttempts, 0);
      DrainAges(bs[0], bs[1], maxAttempts, k);
      DrainListsFewer(bs[0], bs[1], maxAttempts);
      ChainTail(bs, maxAttempts);
      AttemptsGrow(bs[1..], maxAttempts, k + 1);
    }
  }

  /** When one listing reaches every pending row, no row outlives `Cap` drains. */
  lemma CapDrainsSuffice(bs: seq<Box>, maxAttempts: int)
    requires DrainChain(bs, maxAttempts) && |bs| == Cap(maxAttempts) + 1
    requires OneListing(bs[0])
    ensures NothingPending(bs[Cap(maxAttempts)])
  {
    AttemptsGrow(bs, maxAttempts, 0);
  }

  ghost predicate Fresh(b: Box) {
    Ok(b) && forall id | id in b.rows && b.rows[id].status == Pending :: b.rows[id].attempts == 0
  }

  /** A fresh outbox after `j` drains in which every handler failed every row it was given. */
  ghost function AllFailed(b: Box, maxAttempts: int, j: nat): Box {
    b.(rows := map id | id in b.rows :: if id in ListPending(b)
         then b.rows[id].(attempts := j, status := if j >= Cap(maxAttempts) then DeadLettered else Pending)
         else b.rows[id])
  }

  lemma {:induction false} SameListable(rows: map<EventId, Row>, rows': map<EventId, Row>, order: seq<EventId>)
    requires rows.Keys == rows'.Keys && forall id | id in rows :: Listable(rows[id]) <==> Listable(rows'[id])
    ensures ListableIds(rows, order) == ListableIds(rows', order)
  {
    if order != [] { SameListable(rows, rows', order[1..]); }
  }

  lemma ListedAreListable(b: Box)
    ensures forall id | id in ListPending(b) :: id in b.rows && Listable(b.rows[id])
  {
    forall id | id in ListPending(b) ensures id in b.rows && Listable(b.rows[id]) {
      assert id in ListableIds(b.rows, b.order);
    }
  }

  lemma AllFailedIsADrain(b: Box, maxAttempts: int, j: nat)
    requires Fresh(b) && j < Cap(maxAttempts)
    ensures Drained(AllFailed(b, maxAttempts, j), AllFailed(b, maxAttempts, j + 1), maxAttempts)
  {
    var c := AllFailed(b, maxAttempts, j);
    ListedAreListable(b);
    SameListable(b.rows, c.rows, b.order);
    assert ListPending(c) == ListPending(b);
  }

  lemma SomeoneUnlisted(b: Box) returns (id: EventId)
    requires Ok(b) && !OneListing(b)
    ensures id in b.rows && Listable(b.rows[id]) && id !in ListPending(b)
  {
    var ids := ListableIds(b.rows, b.order);
    ListableDistinct(b.rows, b.order);
    id := ids[LIST_LIMIT];
    assert id in ids;
  }

  lemma {:induction false} ListableDistinct(rows: map<EventId, Row>, order: seq<EventId>)
    requires Distinct(order)
    ensures Distinct(ListableIds(rows, order))
  {
    if order != [] {
      ListableDistinct(rows, order[1..]);
      var ids, rest := ListableIds(rows, order), ListableIds(rows, order[1..]);
      assert forall i :: 1 <= i < |order| ==> order[i] != order[0];
      assert order[0] !in order[1..];
      assert order[0] !in rest;
      assert forall i :: 0 <= i < |rest| ==> rest[i] in rest;
      assert ids == rest || ids == [order[0]] + rest;
    }
  }

  /** The drains of a fresh outbox in which every delivery fails; a row past the listing never moves. */
  lemma FailingChain(b: Box, maxAttempts: int) returns (bs: seq<Box>)
    requires Fresh(b) && !OneListing(b)
    ensures DrainChain(bs, maxAttempts) && bs[0] == b && |bs| == Cap(maxAttempts) + 1
    ensures !NothingPending(bs[Cap(maxAttempts)])
  {
    bs := Failing(b, maxAttempts);
    AllFailedStart(b, maxAttempts);
    FailingDrains(b, maxAttempts);
    SomeoneIsLeft(b, maxAttempts);
  }

  ghost function Failing(b: Box, maxAttempts: int): (bs: seq<Box>)
    ensures |bs| == Cap(maxAttempts) + 1
    ensures forall j :: 0 <= j < |bs| ==> bs[j] == AllFailed(b, maxAttempts, j)
  {
    seq(Cap(maxAttempts) + 1, j requires 0 <= j => AllFailed(b, maxAttempts, j))
  }

  lemma FailingDrains(b: Box, maxAttempts: int)
    requires Fresh(b)
    ensures var bs := Failing(b, maxAttempts); forall j :: 0 <= j < |bs| - 1 ==> DrainedAt(bs, maxAttempts, j)
  {
    var bs := Failing(b, maxAttempts);
    forall j | 0 <= j < |bs| - 1 ensures DrainedAt(bs, maxAttempts, j) {
      AllFailedIsADrain(b, maxAttempts, j);
    }
  }

  lemma SomeoneIsLeft(b: Box, maxAttempts: int)
    requires Fresh(b) && !OneListing(b)
    ensures !NothingPending(AllFailed(b, maxAttempts, Cap(maxAttempts)))
  {
    var id := SomeoneUnlisted(b);
    assert AllFailed(b, maxAttempts, Cap(maxAttempts)).rows[id].status == Pending;
  }

  lemma AllFailedStart(b: Box, maxAttempts: int)
    requires Fresh(b)
    ensures AllFailed(b, maxAttempts, 0) == b && WithinCap(b, maxAttempts)
  {
    ListedAreListable(b);
    assert AllFailed(b, maxAttempts, 0).rows == b.rows;
  }

  /** Whatever the handlers do, `Cap` drains leave nothing pending. */
  ghost predicate CapDrainsAlwaysSuffice(b: Box, maxAttempts: int) {
    forall bs :: DrainChain(bs, maxAttempts) && bs[0] == b && |bs| == Cap(maxAttempts) + 1
      ==> NothingPending(bs[Cap(maxAttempts)])
  }

  /**
   As many drains as a row has attempts are guaranteed to empty a fresh outbox, whatever the
   handlers do, if and only if no more rows are pending than one listing returns.
   */
  lemma CapDrainsSufficeIff(b: Box, maxAttempts: int)
    requires Fresh(b)
    ensures CapDrainsAlwaysSuffice(b, maxAttempts) <==> OneListing(b)
  {
    if OneListing(b) {
      forall bs | DrainChain(bs, maxAttempts) && bs[0] == b && |bs| == Cap(maxAttempts) + 1
        ensures NothingPending(bs[Cap(maxAttempts)])
      {
        CapDrainsSuffice(bs, maxAttempts);
      }
    } else {
      var bs := FailingChain(b, maxAttempts);
    }
  }
}
