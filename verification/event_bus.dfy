/**
 The outbox store and the in-process event bus that drains it. Handlers may fail, may append
 further events, and are told apart by the order of their first subscription.
 */
module EventBus {
  import opened Common
  import opened Outbox
  import Text

  type Handler = nat

  type Key = (EventType, Handler)

  /** What one call of a handler does: the events it appends, and whether it returns or throws. */
  datatype Outcome = Outcome(appends: seq<Event>, succeeds: bool)

  ghost function Ids(es: seq<Event>): set<EventId> { set i | 0 <= i < |es| :: es[i].id }

  lemma UpdateTwice<K, V>(m: map<K, V>, k: K, u: V, v: V)
    ensures m[k := u][k := v] == m[k := v]
  {}

  lemma TakeAll<T>(s: seq<T>)
    ensures s[..|s|] == s
  {}

  lemma TakeOneMore<T>(p: seq<T>, s: seq<T>, i: nat)
    requires i < |s|
    ensures s[..i + 1] == s[..i] + [s[i]] && p + s[..i + 1] == p + s[..i] + [s[i]]
  {}

  lemma DropPrefix<T>(s: seq<T>, t: seq<T>)
    ensures (s + t)[|s|..] == t
  {}

  lemma SplitSuffix<T>(s: seq<T>, m: seq<T>, t: seq<T>)
    requires s <= m <= t
    ensures t[|s|..] == m[|s|..] + t[|m|..]
  {}

  lemma {:induction false} AppendAllConcat(b: Box, es: seq<Event>, fs: seq<Event>)
    ensures AppendAll(b, es + fs) == AppendAll(AppendAll(b, es), fs)
  {
    if fs == [] {
      assert es + fs == es;
    } else {
      assert (es + fs)[..|es + fs| - 1] == es + fs[..|fs| - 1];
      AppendAllConcat(b, es, fs[..|fs| - 1]);
    }
  }

  lemma IdsSnoc(es: seq<Event>, e: Event)
    ensures Ids(es + [e]) == Ids(es) + {e.id}
  {
    var fs := es + [e];
    assert fs[|es|].id in Ids(fs);
    forall id | id in Ids(es) ensures id in Ids(fs) {
      var i :| 0 <= i < |es| && es[i].id == id;
      assert fs[i].id == id;
    }
  }

  /** Appending restarts the rows it names, adds the new ones at the end, and touches nothing else. */
  lemma {:induction false} AppendAllTouches(b: Box, es: seq<Event>)
    ensures AppendAll(b, es).rows.Keys == b.rows.Keys + Ids(es)
    ensures b.order <= AppendAll(b, es).order
    ensures forall id | id in b.rows && id !in Ids(es) :: AppendAll(b, es).rows[id] == b.rows[id]
    ensures forall id | id in Ids(es) :: var r := AppendAll(b, es).rows[id]; r.status == Pending && r.attempts == 0
  {
    if es != [] {
      var init, last := es[..|es| - 1], es[|es| - 1];
      AppendAllTouches(b, init);
      IdsSnoc(init, last);
      assert init + [last] == es;
    }
  }

  /** A row is dead-lettered exactly when its attempts are used up. */
  ghost predicate AttemptsOk(b: Box, maxAttempts: int) {
    forall id | id in b.rows ::
      && b.rows[id].attempts <= Cap(maxAttempts)
      && (b.rows[id].status == DeadLettered <==> b.rows[id].attempts == Cap(maxAttempts))
  }

  ghost predicate BoxOk(b: Box, maxAttempts: int) { Ok(b) && AttemptsOk(b, maxAttempts) }

  lemma AppendKeepsOk(b: Box, e: Event, maxAttempts: int)
    requires BoxOk(b, maxAttempts)
    ensures BoxOk(Append(b, e), maxAttempts)
  {
    var b' := Append(b, e);
    forall i, j | 0 <= i < j < |b'.order| ensures b'.order[i] != b'.order[j] {
      assert b'.order[i] in b'.order && b'.order[j] in b'.order;
    }
  }

  lemma {:induction false} AppendAllKeepsOk(b: Box, es: seq<Event>, maxAttempts: int)
    requires BoxOk(b, maxAttempts)
    ensures BoxOk(AppendAll(b, es), maxAttempts)
  {
    if es != [] {
      AppendAllKeepsOk(b, es[..|es| - 1], maxAttempts);
      AppendKeepsOk(AppendAll(b, es[..|es| - 1]), es[|es| - 1], maxAttempts);
    }
  }

  lemma SettleKeepsOk(b: Box, id: EventId, delivered: bool, maxAttempts: int)
    requires BoxOk(b, maxAttempts) && id in b.rows && b.rows[id].status == Pending
    ensures BoxOk(Settle(b, id, delivered, maxAttempts), maxAttempts)
  {}

  /** Calls a handler may have seen for a row since the row was appended. */
  ghost function CallsAllowed(b: Box, id: EventId): nat {
    if id !in b.rows then 0 else b.rows[id].attempts + if b.rows[id].status == Processed then 1 else 0
  }


  function Restated(rows: map<EventId, Row>, id: EventId, status: RowStatus): map<EventId, Row> {
    if id in rows then rows[id := WithStatus(rows[id], status)] else rows
  }

  /** Marking, or bumping and then giving up, settles the row. */
  lemma RestatedSettles(rows: map<EventId, Row>, id: EventId, maxAttempts: int)
    requires id in rows
    ensures Restated(rows, id, Processed) == rows[id := Settled(rows[id], true, maxAttempts)]
    ensures var bumped := rows[id := Bumped(rows[id])];
      (if bumped[id].attempts >= maxAttempts then Restated(bumped, id, DeadLettered) else bumped)
        == rows[id := Settled(rows[id], false, maxAttempts)]
  {
    UpdateTwice(rows, id, Bumped(rows[id]), Settled(rows[id], false, maxAttempts));
  }

  class MemoryOutboxStore {
    var rows: map<EventId, Row>
    var order: seq<EventId>
    ghost var appended: seq<Event>

    ghost function Contents(): Box
      reads this
    {
      Box(rows, order)
    }

    /** No appended row is ever lost, and none is invented. */
    ghost predicate Logged()
      reads this
    {
      rows.Keys == Ids(appended) && forall id | id in rows :: rows[id].event in appended
    }

    constructor ()
      ensures Contents() == Box(map[], []) && appended == [] && Logged()
    {
      rows, order, appended := map[], [], [];
    }

    method Append(e: Event)
      requires Logged()
      modifies this
      ensures Logged()
      ensures Contents() == Outbox.Append(old(Contents()), e) && appended == old(appended) + [e]
    {
      IdsSnoc(appended, e);
      order := if e.id in rows then order else order + [e.id];
      rows := rows[e.id := Row(e, Pending, 0)];
      appended := appended + [e];
    }

    method MarkProcessed(id: EventId)
      requires Logged()
      modifies this`rows
      ensures Logged()
      ensures rows == Restated(old(rows), id, Processed)
    {
      if id in rows {
        rows := rows[id := WithStatus(rows[id], Processed)];
      }
    }

    method MarkFailed(id: EventId)
      requires Logged()
      modifies this`rows
      ensures Logged()
      ensures rows == Restated(old(rows), id, DeadLettered)
    {
      if id in rows {
        rows := rows[id := WithStatus(rows[id], DeadLettered)];
      }
    }

    method BumpAttempts(id: EventId) returns (attempts: nat)
      requires Logged()
      modifies this`rows
      ensures Logged()
      ensures id !in old(rows) ==> attempts == 0 && rows == old(rows)
      ensures id in old(rows) ==>
        && attempts == old(rows)[id].attempts + 1
        && rows == old(rows)[id := Bumped(old(rows)[id])]
    {
      if id !in rows { return 0; }
      rows := rows[id := Bumped(rows[id])];
      attempts := rows[id].attempts;
    }

    method List() returns (listed: seq<Event>)
      requires Ok(Contents())
      ensures |listed| == |ListPending(Contents())|
      ensures forall i :: 0 <= i < |listed| ==>
        && listed[i].id == ListPending(Contents())[i]
        && listed[i].id in rows && listed[i] == rows[listed[i].id].event && Listable(rows[listed[i].id])
      ensures forall i, j :: 0 <= i < j < |listed| ==> Precedes(order, listed[i].id, listed[j].id)
      ensures forall id, i :: 0 <= i < |listed| && id in rows && Listable(rows[id]) && Precedes(order, id, listed[i].id) ==> rows[id].event in listed
      ensures |listed| <= 100 && (|listed| < 100 ==> forall id | id in rows && Listable(rows[id]) :: rows[id].event in listed)
    {
      hide Distinct, Precedes, ListPending, ListableIds;
      ListingIsTheFront(Contents());
      ListedAreListable(Contents());
      var ids := ListPending(Box(rows, order));
      assert forall i :: 0 <= i < |ids| ==> ids[i] in ids;
      var rs := rows;
      listed := seq(|ids|, i requires 0 <= i < |ids| && ids[i] in rs => rs[ids[i]].event);
    }
  }

  // ----- what the bus knows, as values

  type Dedupe = map<Key, set<EventId>>

  type Subscriptions = map<EventType, seq<Handler>>

  type Counts = (EventType, Handler, EventId) -> nat

  ghost predicate Seen(p: Dedupe, kind: EventType, h: Handler, id: EventId) {
    (kind, h) in p && id in p[(kind, h)]
  }

  ghost predicate Subscribed(hs: Subscriptions, p: Dedupe) {
    forall kind | kind in hs :: Distinct(hs[kind]) && forall h | h in hs[kind] :: (kind, h) in p
  }

  /** Each handler succeeds at most once per event id, and the dedupe sets record exactly that. */
  ghost predicate OnceEach(successes: multiset<(EventType, Handler, EventId)>, p: Dedupe) {
    forall kind, h, id :: successes[(kind, h, id)] == if Seen(p, kind, h, id) then 1 else 0
  }

  /** `visited` are the handlers already called for `e` in the dispatch under way. */
  ghost predicate RunsBounded(runs: Counts, b: Box, e: Event, visited: set<Handler>) {
    forall k, h, i :: runs(k, h, i) <= CallsAllowed(b, i) + if k == e.kind && i == e.id && h in visited then 1 else 0
  }

  ghost function Restarted(runs: Counts, id: EventId): Counts {
    (k, h, i) => if i == id then 0 else runs(k, h, i)
  }

  ghost function Counted(runs: Counts, handler: Handler, e: Event): Counts {
    (k, h, i) => runs(k, h, i) + if k == e.kind && h == handler && i == e.id then 1 else 0
  }

  lemma RestartKeepsBound(runs: Counts, b: Box, current: Event, visited: set<Handler>, e: Event)
    requires RunsBounded(runs, b, current, visited)
    ensures RunsBounded(Restarted(runs, e.id), Append(b, e), current, visited)
  {}

  lemma SettleKeepsBound(runs: Counts, b: Box, e: Event, visited: set<Handler>, delivered: bool, maxAttempts: int)
    requires RunsBounded(runs, b, e, visited) && e.id in b.rows && b.rows[e.id].status == Pending
    ensures RunsBounded(runs, Settle(b, e.id, delivered, maxAttempts), e, {})
  {}

  ghost predicate SeenByAll(p: Dedupe, e: Event, hs: seq<Handler>) {
    forall h | h in hs :: Seen(p, e.kind, h, e.id)
  }

  /** Every handler subscribed to the event's type has succeeded on it. */
  ghost predicate Delivered(hs: Subscriptions, p: Dedupe, e: Event) {
    e.kind in hs ==> SeenByAll(p, e, hs[e.kind])
  }

  ghost function Handlers(hs: seq<Handler>): set<Handler> { set h | h in hs }

  lemma NoneVisited(hs: seq<Handler>)
    ensures {} <= Handlers(hs[..0])
  {}

  lemma NotYetVisited(hs: seq<Handler>, i: nat)
    requires Distinct(hs) && i < |hs|
    ensures hs[i] !in Handlers(hs[..i]) && Handlers(hs[..i + 1]) == Handlers(hs[..i]) + {hs[i]}
  {
    assert hs[..i + 1] == hs[..i] + [hs[i]];
  }

  lemma OneMoreSeen(p: Dedupe, p': Dedupe, e: Event, hs: seq<Handler>, i: nat)
    requires Distinct(hs) && i < |hs| && p.Keys == p'.Keys
    requires forall key | key in p && key != (e.kind, hs[i]) :: p'[key] == p[key]
    ensures SeenByAll(p', e, hs[..i + 1]) <==> SeenByAll(p, e, hs[..i]) && Seen(p', e.kind, hs[i], e.id)
  {
    assert hs[..i + 1] == hs[..i] + [hs[i]];
    forall h | h in hs[..i] ensures Seen(p', e.kind, h, e.id) <==> Seen(p, e.kind, h, e.id) {}
  }

  lemma NothingLearned(p: Dedupe, e: Event)
    ensures Learned(p, p, e)
  {}

  lemma NothingAppended(b: Box, es: seq<Event>)
    ensures AppendAll(b, es[|es|..]) == b
  {}

  lemma LearnedTransitive(p: Dedupe, q: Dedupe, r: Dedupe, e: Event)
    requires Learned(p, q, e) && Learned(q, r, e)
    ensures Learned(p, r, e)
  {}

  /** The dedupe sets after some handlers of the event's type have succeeded on it. */
  ghost predicate Learned(p: Dedupe, p': Dedupe, e: Event) {
    && p'.Keys == p.Keys
    && forall key | key in p :: p[key] <= p'[key] <= p[key] + if key.0 == e.kind then {e.id} else {}
  }

  /** Everything the bus and its store hold, as one value. */
  datatype State = State(box: Box, handlers: Subscriptions, seen: Dedupe, successes: multiset<(EventType, Handler, EventId)>,
                         runs: Counts, current: Event, visited: set<Handler>)

  ghost predicate Coherent(s: State, maxAttempts: int) {
    match s
    case State(box, handlers, seen, successes, runs, current, visited) =>
      && BoxOk(box, maxAttempts) && Subscribed(handlers, seen) && OnceEach(successes, seen)
      && RunsBounded(runs, box, current, visited)
  }

  /**
   One drain, when the events of `added` were appended meanwhile by handlers: a listed row that
   was not appended again is settled according to whether all its handlers have now succeeded,
   and every other row stays as it was.
   */
  ghost predicate Drains(s: State, s': State, added: seq<Event>, maxAttempts: int) {
    match s'
    case State(box', _, seen', _, _, _, _) =>
      && s.box.order <= box'.order && box'.rows.Keys == s.box.rows.Keys + Ids(added)
      && (forall kind, h, id :: Seen(s.seen, kind, h, id) ==> Seen(seen', kind, h, id))
      && forall id | id in s.box.rows && id !in Ids(added) ::
           box'.rows[id] ==
             if id in ListPending(s.box)
             then Settled(s.box.rows[id], Delivered(s.handlers, seen', s.box.rows[id].event), maxAttempts)
             else s.box.rows[id]
  }

  // ----- the loop of a drain, row by row

  ghost predicate Listing(s: State, listed: seq<Event>) {
    && |listed| == |ListPending(s.box)|
    && (forall i :: 0 <= i < |listed| ==> listed[i].id == ListPending(s.box)[i])
    && (forall i :: 0 <= i < |listed| ==> listed[i].id in s.box.rows && listed[i] == s.box.rows[listed[i].id].event)
    && (forall i, j :: 0 <= i < j < |listed| ==> listed[i].id != listed[j].id)
  }

  ghost function SettledIn(s: State, id: EventId, seen: Dedupe, maxAttempts: int): Row
    requires id in s.box.rows
  {
    Settled(s.box.rows[id], Delivered(s.handlers, seen, s.box.rows[id].event), maxAttempts)
  }

  ghost predicate Grown(seen: Dedupe, seen': Dedupe) {
    forall kind, h, id :: Seen(seen, kind, h, id) ==> Seen(seen', kind, h, id)
  }

  ghost predicate RowsAfter(s: State, done: set<EventId>, b: Box, seen: Dedupe, added: seq<Event>, maxAttempts: int) {
    forall id | id in s.box.rows && id !in Ids(added) ::
      id in b.rows && b.rows[id] == if id in done then SettledIn(s, id, seen, maxAttempts) else s.box.rows[id]
  }

  ghost predicate StillPending(b: Box, listed: seq<Event>) {
    forall j :: 0 <= j < |listed| ==> listed[j].id in b.rows && b.rows[listed[j].id].status == Pending
  }

  /** The drain of `s` after its first `i` rows. */
  ghost predicate DrainsUpTo(s: State, listed: seq<Event>, i: nat, b: Box, seen: Dedupe, added: seq<Event>, maxAttempts: int)
    requires i <= |listed|
  {
    && s.box.order <= b.order && b.rows.Keys == s.box.rows.Keys + Ids(added)
    && Grown(s.seen, seen)
    && RowsAfter(s, Ids(listed[..i]), b, seen, added, maxAttempts)
    && StillPending(b, listed[i..])
  }

  lemma SameDelivery(handlers: Subscriptions, seen: Dedupe, seen': Dedupe, e: Event, other: Event)
    requires Learned(seen, seen', e) && other.id != e.id
    ensures Delivered(handlers, seen, other) <==> Delivered(handlers, seen', other)
  {
    forall h ensures Seen(seen, other.kind, h, other.id) <==> Seen(seen', other.kind, h, other.id) {
      var key := (other.kind, h);
      assert key in seen ==> seen[key] <= seen'[key] <= seen[key] + {e.id};
    }
  }

  lemma IdsConcat(es: seq<Event>, fs: seq<Event>)
    ensures Ids(es + fs) == Ids(es) + Ids(fs)
  {
    forall id | id in Ids(es) ensures id in Ids(es + fs) {
      var i :| 0 <= i < |es| && es[i].id == id;
      assert (es + fs)[i].id == id;
    }
    forall id | id in Ids(fs) ensures id in Ids(es + fs) {
      var i :| 0 <= i < |fs| && fs[i].id == id;
      assert (es + fs)[|es| + i].id == id;
    }
  }

  lemma NotYetListed(s: State, listed: seq<Event>, i: nat)
    requires Listing(s, listed) && i < |listed|
    ensures listed[i].id !in Ids(listed[..i]) && Ids(listed[..i + 1]) == Ids(listed[..i]) + {listed[i].id}
  {
    assert listed[..i + 1] == listed[..i] + [listed[i]];
    IdsSnoc(listed[..i], listed[i]);
  }

  /** What a dispatch does to the rows that no handler appends. */
  lemma DispatchSettles(s: State, done: set<EventId>, e: Event, b: Box, seen: Dedupe, added: seq<Event>,
                        seen': Dedupe, more: seq<Event>, handled: bool, maxAttempts: int)
    requires RowsAfter(s, done, b, seen, added, maxAttempts)
    requires e.id in s.box.rows && e == s.box.rows[e.id].event && e.id !in done
    requires forall id | id in s.box.rows :: s.box.rows[id].event.id == id
    requires Learned(seen, seen', e) && (handled <==> Delivered(s.handlers, seen', e))
    ensures RowsAfter(s, done + {e.id}, Settle(AppendAll(b, more), e.id, handled, maxAttempts), seen', added + more, maxAttempts)
  {
    AppendAllTouches(b, more);
    IdsConcat(added, more);
    forall id | id in s.box.rows && id != e.id ensures SettledIn(s, id, seen, maxAttempts) == SettledIn(s, id, seen', maxAttempts) {
      SameDelivery(s.handlers, seen, seen', e, s.box.rows[id].event);
    }
  }

  lemma OthersStayPending(b: Box, listed: seq<Event>, more: seq<Event>, handled: bool, maxAttempts: int)
    requires |listed| > 0 && StillPending(b, listed)
    requires forall j :: 0 < j < |listed| ==> listed[j].id != listed[0].id
    ensures StillPending(Settle(AppendAll(b, more), listed[0].id, handled, maxAttempts), listed[1..])
  {
    AppendAllTouches(b, more);
  }

  lemma GrownByLearning(seen: Dedupe, seen': Dedupe, seen'': Dedupe, e: Event)
    requires Grown(seen, seen') && Learned(seen', seen'', e)
    ensures Grown(seen, seen'')
  {}

  lemma KeysAfterDispatch(s: State, b: Box, added: seq<Event>, e: Event, more: seq<Event>, handled: bool, maxAttempts: int)
    requires s.box.order <= b.order && b.rows.Keys == s.box.rows.Keys + Ids(added) && e.id in s.box.rows
    ensures var b' := Settle(AppendAll(b, more), e.id, handled, maxAttempts);
      s.box.order <= b'.order && b'.rows.Keys == s.box.rows.Keys + Ids(added + more)
  {
    AppendAllTouches(b, more);
    IdsConcat(added, more);
  }

  lemma DispatchAdvances(s: State, listed: seq<Event>, i: nat, b: Box, seen: Dedupe, added: seq<Event>,
                         b': Box, seen': Dedupe, more: seq<Event>, handled: bool, maxAttempts: int)
    requires Listing(s, listed) && i < |listed| && DrainsUpTo(s, listed, i, b, seen, added, maxAttempts)
    requires BoxOk(s.box, maxAttempts)
    requires b' == Settle(AppendAll(b, more), listed[i].id, handled, maxAttempts)
    requires Learned(seen, seen', listed[i]) && (handled <==> Delivered(s.handlers, seen', listed[i]))
    ensures DrainsUpTo(s, listed, i + 1, b', seen', added + more, maxAttempts)
  {
    hide Settle, AppendAll, Ids, Learned, Grown, RowsAfter, StillPending, Delivered, AttemptsOk;
    NotYetListed(s, listed, i);
    DispatchSettles(s, Ids(listed[..i]), listed[i], b, seen, added, seen', more, handled, maxAttempts);
    assert listed[i..][1..] == listed[i + 1..];
    OthersStayPending(b, listed[i..], more, handled, maxAttempts);
    GrownByLearning(s.seen, seen, seen', listed[i]);
    KeysAfterDispatch(s, b, added, listed[i], more, handled, maxAttempts);
  }

  lemma NextIsPending(s: State, listed: seq<Event>, i: nat, b: Box, seen: Dedupe, added: seq<Event>, maxAttempts: int)
    requires i < |listed| && DrainsUpTo(s, listed, i, b, seen, added, maxAttempts)
    ensures listed[i].id in b.rows && b.rows[listed[i].id].status == Pending
  {
    assert listed[i..][0] == listed[i];
  }

  lemma ListingOf(s: State, listed: seq<Event>)
    requires Ok(s.box)
    requires |listed| == |ListPending(s.box)|
    requires forall i :: 0 <= i < |listed| ==> listed[i].id == ListPending(s.box)[i]
    requires forall i :: 0 <= i < |listed| ==> listed[i].id in s.box.rows && listed[i] == s.box.rows[listed[i].id].event
    ensures Listing(s, listed)
  {
    ListableDistinct(s.box.rows, s.box.order);
  }

  lemma DrainStarts(s: State, listed: seq<Event>, maxAttempts: int)
    requires Listing(s, listed)
    ensures DrainsUpTo(s, listed, 0, s.box, s.seen, [], maxAttempts)
  {
    ListedAreListable(s.box);
    assert forall i :: 0 <= i < |listed| ==> ListPending(s.box)[i] in ListPending(s.box);
  }

  lemma DrainEnds(s: State, listed: seq<Event>, s': State, added: seq<Event>, maxAttempts: int)
    requires Listing(s, listed) && DrainsUpTo(s, listed, |listed|, s'.box, s'.seen, added, maxAttempts)
    ensures Drains(s, s', added, maxAttempts)
  {
    TakeAll(listed);
    assert forall id :: id in Ids(listed) <==> id in ListPending(s.box);
  }

  /** How many of the events have reached every handler. */
  ghost function CountDelivered(handlers: Subscriptions, seen: Dedupe, es: seq<Event>): (n: nat)
    ensures n <= |es|
  {
    if es == [] then 0
    else CountDelivered(handlers, seen, es[..|es| - 1]) + if Delivered(handlers, seen, es[|es| - 1]) then 1 else 0
  }

  lemma {:induction false} CountUnmoved(handlers: Subscriptions, seen: Dedupe, seen': Dedupe, es: seq<Event>, e: Event)
    requires Learned(seen, seen', e) && e.id !in Ids(es)
    ensures CountDelivered(handlers, seen, es) == CountDelivered(handlers, seen', es)
  {
    if es != [] {
      assert es == es[..|es| - 1] + [es[|es| - 1]];
      IdsSnoc(es[..|es| - 1], es[|es| - 1]);
      CountUnmoved(handlers, seen, seen', es[..|es| - 1], e);
      SameDelivery(handlers, seen, seen', e, es[|es| - 1]);
    }
  }

  lemma CountOneMore(handlers: Subscriptions, seen: Dedupe, seen': Dedupe, listed: seq<Event>, i: nat)
    requires i < |listed| && Learned(seen, seen', listed[i]) && listed[i].id !in Ids(listed[..i])
    ensures CountDelivered(handlers, seen', listed[..i + 1])
         == CountDelivered(handlers, seen, listed[..i]) + if Delivered(handlers, seen', listed[i]) then 1 else 0
  {
    assert listed[..i + 1][..i] == listed[..i];
    CountUnmoved(handlers, seen, seen', listed[..i], listed[i]);
  }

  /** The events of the rows a drain takes up. */
  ghost function Listed(b: Box): (listed: seq<Event>)
    requires Ok(b)
    ensures |listed| == |ListPending(b)|
    ensures forall i :: 0 <= i < |listed| ==> ListPending(b)[i] in b.rows && listed[i] == b.rows[ListPending(b)[i]].event
  {
    ListedAreListable(b);
    var ids := ListPending(b);
    assert forall i :: 0 <= i < |ids| ==> ids[i] in ids;
    seq(|ids|, i requires 0 <= i < |ids| && ids[i] in b.rows => b.rows[ids[i]].event)
  }

  lemma ListedIs(b: Box, listed: seq<Event>)
    requires Ok(b) && |listed| == |ListPending(b)|
    requires forall i :: 0 <= i < |listed| ==>
      listed[i].id == ListPending(b)[i] && listed[i].id in b.rows && listed[i] == b.rows[listed[i].id].event
    ensures listed == Listed(b)
  {}

  // ----- which handlers are called, and in which order

  type Calls = seq<(EventType, Handler, EventId)>

  /** The handlers of `hs` that have not succeeded on the event yet, in the order of their subscription. */
  ghost function CallsFor(p: Dedupe, e: Event, hs: seq<Handler>): Calls {
    if hs == [] then []
    else
      var h := hs[|hs| - 1];
      CallsFor(p, e, hs[..|hs| - 1]) + if Seen(p, e.kind, h, e.id) then [] else [(e.kind, h, e.id)]
  }

  ghost function CallsOf(handlers: Subscriptions, p: Dedupe, e: Event): Calls {
    if e.kind in handlers then CallsFor(p, e, handlers[e.kind]) else []
  }

  /** What a drain calls: for each listed row in turn, every handler of its type that has not succeeded on it. */
  ghost function DrainCalls(handlers: Subscriptions, p: Dedupe, es: seq<Event>): Calls {
    if es == [] then [] else DrainCalls(handlers, p, es[..|es| - 1]) + CallsOf(handlers, p, es[|es| - 1])
  }

  /** The calls made so far: the n-th had the n-th outcome, and a handler has succeeded on an event exactly if one of its calls for it did. */
  ghost predicate RecordsCalls(called: Calls, calls: nat, behaviour: nat -> Outcome, p: Dedupe) {
    && |called| == calls
    && forall kind, h, id :: Seen(p, kind, h, id) <==> Succeeded(called, behaviour, (kind, h, id))
  }

  ghost predicate Succeeded(called: Calls, behaviour: nat -> Outcome, call: (EventType, Handler, EventId)) {
    exists n :: 0 <= n < |called| && called[n] == call && behaviour(n).succeeds
  }

  lemma OneMoreCall(called: Calls, behaviour: nat -> Outcome, call: (EventType, Handler, EventId), other: (EventType, Handler, EventId))
    ensures Succeeded(called + [call], behaviour, other)
       <==> Succeeded(called, behaviour, other) || (other == call && behaviour(|called|).succeeds)
  {
    var more := called + [call];
    if n :| 0 <= n < |called| && called[n] == other && behaviour(n).succeeds { assert more[n] == other; }
    if other == call && behaviour(|called|).succeeds { assert more[|called|] == other; }
  }

  lemma CallIsRecorded(called: Calls, behaviour: nat -> Outcome, p: Dedupe, p': Dedupe, kind: EventType, h: Handler, id: EventId)
    requires RecordsCalls(called, |called|, behaviour, p) && (kind, h) in p
    requires p' == if behaviour(|called|).succeeds then p[(kind, h) := p[(kind, h)] + {id}] else p
    ensures RecordsCalls(called + [(kind, h, id)], |called| + 1, behaviour, p')
  {
    forall k, g, i ensures Seen(p', k, g, i) <==> Succeeded(called + [(kind, h, id)], behaviour, (k, g, i)) {
      OneMoreCall(called, behaviour, (kind, h, id), (k, g, i));
    }
  }

  ghost predicate SameOn(p: Dedupe, q: Dedupe, id: EventId) { forall kind, h :: Seen(p, kind, h, id) <==> Seen(q, kind, h, id) }

  lemma {:induction false} SameCallsFor(p: Dedupe, q: Dedupe, e: Event, hs: seq<Handler>)
    requires SameOn(p, q, e.id)
    ensures CallsFor(p, e, hs) == CallsFor(q, e, hs)
  {
    if hs != [] { SameCallsFor(p, q, e, hs[..|hs| - 1]); }
  }

  lemma LearnedElsewhere(p: Dedupe, q: Dedupe, r: Dedupe, e: Event, id: EventId)
    requires SameOn(p, q, id) && Learned(q, r, e) && id != e.id
    ensures SameOn(p, r, id)
  {
    forall kind, h ensures Seen(q, kind, h, id) <==> Seen(r, kind, h, id) {
      var key := (kind, h);
      assert key in q ==> q[key] <= r[key] <= q[key] + {e.id};
    }
  }

  /** A drain after its first `i` rows: what was called, and that nothing is known yet of the rows to come. */
  ghost predicate Dispatched(s: State, q: Dedupe, pending: seq<Event>, i: nat, before: Calls, called: Calls)
    requires i <= |pending|
  {
    && called == before + DrainCalls(s.handlers, s.seen, pending[..i])
    && forall j :: i <= j < |pending| ==> SameOn(s.seen, q, pending[j].id)
  }

  lemma NothingDispatched(s: State, pending: seq<Event>, called: Calls)
    ensures Dispatched(s, s.seen, pending, 0, called, called)
  {}

  lemma OneMoreDispatched(s: State, q: Dedupe, r: Dedupe, pending: seq<Event>, i: nat, before: Calls, called: Calls, called': Calls)
    requires i < |pending| && Dispatched(s, q, pending, i, before, called) && Learned(q, r, pending[i])
    requires forall j, k :: 0 <= j < k < |pending| ==> pending[j].id != pending[k].id
    requires called' == called + CallsOf(s.handlers, q, pending[i])
    ensures Dispatched(s, r, pending, i + 1, before, called')
  {
    OneMoreRow(s.handlers, s.seen, q, pending, i, before);
    forall j | i < j < |pending| ensures SameOn(s.seen, r, pending[j].id) {
      LearnedElsewhere(s.seen, q, r, pending[i], pending[j].id);
    }
    hide DrainCalls, CallsOf, SameOn, Learned;
  }

  lemma AllDispatched(s: State, q: Dedupe, pending: seq<Event>, before: Calls, called: Calls)
    requires Dispatched(s, q, pending, |pending|, before, called)
    ensures called == before + DrainCalls(s.handlers, s.seen, pending)
  {
    TakeAll(pending);
  }

  lemma OneMoreRow(handlers: Subscriptions, p: Dedupe, q: Dedupe, es: seq<Event>, i: nat, before: Calls)
    requires i < |es| && SameOn(p, q, es[i].id)
    ensures before + DrainCalls(handlers, p, es[..i + 1]) == before + DrainCalls(handlers, p, es[..i]) + CallsOf(handlers, q, es[i])
  {
    assert es[..i + 1][..i] == es[..i];
    if es[i].kind in handlers { SameCallsFor(p, q, es[i], handlers[es[i].kind]); }
  }

  /** A dispatch after the first `i` handlers: what was called, what is known, and whether all have succeeded. */
  ghost predicate Offered(p: Dedupe, q: Dedupe, e: Event, hs: seq<Handler>, i: nat, before: Calls, called: Calls, handled: bool)
    requires i <= |hs|
  {
    && called == before + CallsFor(p, e, hs[..i]) && SameFrom(p, q, e, hs, i)
    && (handled <==> SeenByAll(q, e, hs[..i])) && Learned(p, q, e)
  }

  lemma NothingOffered(p: Dedupe, e: Event, hs: seq<Handler>, called: Calls, b: Box, appended: seq<Event>)
    ensures Offered(p, p, e, hs, 0, called, called, true)
    ensures AppendAll(b, appended[|appended|..]) == b
  {}

  lemma OneMoreOffered(p: Dedupe, q: Dedupe, r: Dedupe, e: Event, hs: seq<Handler>, i: nat, before: Calls, called: Calls, called': Calls,
                       handled: bool, ok: bool)
    requires Distinct(hs) && i < |hs| && Offered(p, q, e, hs, i, before, called, handled) && Learned(q, r, e)
    requires forall key | key in q && key != (e.kind, hs[i]) :: r[key] == q[key]
    requires called' == called + if Seen(q, e.kind, hs[i], e.id) then [] else [(e.kind, hs[i], e.id)]
    requires ok <==> Seen(r, e.kind, hs[i], e.id)
    ensures Offered(p, r, e, hs, i + 1, before, called', handled && ok) && r.Keys == q.Keys
  {
    OneMoreHandler(p, e, hs, i, before);
    OneMoreSeen(q, r, e, hs, i);
    SameFromNext(p, q, r, e, hs, i);
    LearnedTransitive(p, q, r, e);
    assert Seen(p, e.kind, hs[i], e.id) <==> Seen(q, e.kind, hs[i], e.id);
    hide CallsFor, SeenByAll, Seen, SameFrom, Distinct;
  }

  lemma AllOffered(p: Dedupe, q: Dedupe, e: Event, hs: seq<Handler>, before: Calls, called: Calls, handled: bool)
    requires Offered(p, q, e, hs, |hs|, before, called, handled)
    ensures called == before + CallsFor(p, e, hs) && (handled <==> SeenByAll(q, e, hs)) && Learned(p, q, e)
  {
    TakeAll(hs);
  }

  /** Nothing is known yet of the handlers from `i` on that was not known before. */
  ghost predicate SameFrom(p: Dedupe, q: Dedupe, e: Event, hs: seq<Handler>, i: nat) {
    forall j :: i <= j < |hs| ==> (Seen(p, e.kind, hs[j], e.id) <==> Seen(q, e.kind, hs[j], e.id))
  }

  lemma SameFromNext(p: Dedupe, q: Dedupe, r: Dedupe, e: Event, hs: seq<Handler>, i: nat)
    requires Distinct(hs) && i < |hs| && SameFrom(p, q, e, hs, i) && q.Keys == r.Keys
    requires forall key | key in q && key != (e.kind, hs[i]) :: r[key] == q[key]
    ensures SameFrom(p, r, e, hs, i + 1)
  {}

  lemma OneMoreHandler(p: Dedupe, e: Event, hs: seq<Handler>, i: nat, before: Calls)
    requires i < |hs|
    ensures before + CallsFor(p, e, hs[..i + 1])
         == before + CallsFor(p, e, hs[..i]) + if Seen(p, e.kind, hs[i], e.id) then [] else [(e.kind, hs[i], e.id)]
  {
    assert hs[..i + 1][..i] == hs[..i];
  }

  class InProcessEventBus {
    const store: MemoryOutboxStore
    const maxAttempts: int
    /** The n-th handler call's outcome, whichever handler it is; it stands for all that handlers may do. */
    const behaviour: nat -> Outcome
    var handlers: Subscriptions
    var processedByHandler: Dedupe
    var draining: bool
    var calls: nat
    /** Successful handler calls, over the whole life of the bus. */
    ghost var successes: multiset<(EventType, Handler, EventId)>
    /** Handler calls since the row was last appended. */
    ghost var runs: Counts
    /** The dispatch under way: its event, and the handlers already called. */
    ghost var current: Event
    ghost var visited: set<Handler>
    /** Every handler call there was. */
    ghost var called: Calls

    /** Holds whenever no handler is being called. */
    ghost predicate Recorded()
      reads this
    {
      RecordsCalls(called, calls, behaviour, processedByHandler)
    }

    ghost function View(): State
      reads this, store
    {
      State(store.Contents(), handlers, processedByHandler, successes, runs, current, visited)
    }

    ghost predicate Valid()
      reads this, store
    {
      store.Logged() && Coherent(View(), maxAttempts) && (!draining ==> visited == {})
    }

    constructor (store: MemoryOutboxStore, maxAttempts: int, behaviour: nat -> Outcome)
      requires store.Logged() && BoxOk(store.Contents(), maxAttempts)
      ensures Valid() && !draining && this.store == store && this.maxAttempts == maxAttempts
      ensures handlers == map[] && successes == multiset{} && Recorded() && called == []
    {
      this.store, this.maxAttempts, this.behaviour := store, maxAttempts, behaviour;
      handlers, processedByHandler, draining, calls := map[], map[], false, 0;
      successes, runs, visited, called := multiset{}, (k, h, i) => 0, {}, [];
    }

    method Subscribe(kind: EventType, h: Handler)
      requires Valid()
      modifies this`handlers, this`processedByHandler
      ensures Valid()
      ensures var was := if kind in old(handlers) then old(handlers)[kind] else [];
              handlers == old(handlers)[kind := if h in was then was else was + [h]]
      ensures forall k, g, id :: Seen(processedByHandler, k, g, id) <==> Seen(old(processedByHandler), k, g, id)
      ensures old(Recorded()) ==> Recorded()
    {
      var hs := if kind in handlers then handlers[kind] else [];
      handlers := handlers[kind := if h in hs then hs else hs + [h]];
      if (kind, h) !in processedByHandler {
        processedByHandler := processedByHandler[(kind, h) := {}];
      }
    }

    method Write(e: Event)
      requires Valid()
      modifies this`runs, store
      ensures Valid()
      ensures View() == old(View()).(box := Outbox.Append(old(store.Contents()), e), runs := Restarted(old(runs), e.id))
      ensures store.appended == old(store.appended) + [e]
    {
      AppendKeepsOk(store.Contents(), e, maxAttempts);
      RestartKeepsBound(runs, store.Contents(), current, visited, e);
      store.Append(e);
      runs := Restarted(runs, e.id);
    }

    /** Writes the event and drains; while a drain is under way the event waits for the next one. */
    method Append(e: Event)
      requires Valid() && (draining || Recorded())
      modifies this, store
      ensures Valid() && draining == old(draining) && (draining || Recorded())
      ensures old(store.appended) + [e] <= store.appended
      ensures
        var written := old(View()).(box := Outbox.Append(old(store.Contents()), e), runs := Restarted(old(runs), e.id));
        if old(draining) then View() == written && store.appended == old(store.appended) + [e] && Still(old(called), old(calls))
        else
          && Drains(written, View(), store.appended[|old(store.appended)| + 1..], maxAttempts)
          && called == old(called) + DrainCalls(written.handlers, written.seen, Listed(written.box))
      decreases if draining then 0 else 1, 1
    {
      AppendKeepsOk(store.Contents(), e, maxAttempts);
      hide Coherent, Drains, Outbox.Append, Restarted, Ids, DrainCalls, RecordsCalls;
      Write(e);
      ghost var written, n := View(), |store.appended|;
      var _ := Drain();
      assert !draining ==> Drains(written, View(), store.appended[n..], maxAttempts);
    }

    ghost predicate Still(before: Calls, n: nat)
      reads this
    {
      called == before && calls == n
    }

    ghost method CountCall(h: Handler, e: Event)
      requires Valid() && draining && current == e && h !in visited
      modifies this`runs, this`visited
      ensures Valid() && visited == old(visited) + {h}
    {
      runs := Counted(runs, h, e);
      visited := visited + {h};
    }

    /** Calls one handler, which may append events before it returns or throws. */
    method Handle(h: Handler, e: Event) returns (ok: bool)
      requires Valid() && draining && current == e && h !in visited
      modifies this, store
      ensures Valid() && draining
      ensures old(store.appended) <= store.appended
      ensures View() == old(View()).(box := AppendAll(old(store.Contents()), store.appended[|old(store.appended)|..]),
                                     runs := runs, visited := old(visited) + {h})
      ensures Still(old(called), old(calls) + 1) && ok == behaviour(old(calls)).succeeds
      decreases 0, 2
    {
      CountCall(h, e);
      var outcome := behaviour(calls);
      calls := calls + 1;
      for i := 0 to |outcome.appends|
        invariant Valid() && draining
        invariant store.appended == old(store.appended) + outcome.appends[..i] && Still(old(called), old(calls) + 1)
        invariant View() == old(View()).(box := AppendAll(old(store.Contents()), outcome.appends[..i]),
                                         runs := runs, visited := old(visited) + {h})
      {
        TakeOneMore(old(store.appended), outcome.appends, i);
        Append(outcome.appends[i]);
      }
      TakeAll(outcome.appends);
      DropPrefix(old(store.appended), outcome.appends);
      ok := outcome.succeeds;
    }

    ghost method RecordSuccess(h: Handler, e: Event)
      requires Valid() && (e.kind, h) in processedByHandler && !Seen(processedByHandler, e.kind, h, e.id)
      modifies this`successes
      ensures successes == old(successes) + multiset{(e.kind, h, e.id)}
      ensures OnceEach(successes, processedByHandler[(e.kind, h) := processedByHandler[(e.kind, h)] + {e.id}])
    {
      successes := successes + multiset{(e.kind, h, e.id)};
    }

    /** One turn of the dispatch loop: a handler that has succeeded on this id before is skipped. */
    method Offer(h: Handler, e: Event) returns (ok: bool)
      requires Valid() && Recorded() && draining && current == e && h !in visited && (e.kind, h) in processedByHandler
      modifies this, store
      ensures Recorded() && called == old(called) + if old(Seen(processedByHandler, e.kind, h, e.id)) then [] else [(e.kind, h, e.id)]
      ensures Valid() && draining && handlers == old(handlers) && current == e && visited <= old(visited) + {h}
      ensures Learned(old(processedByHandler), processedByHandler, e)
      ensures forall key | key in old(processedByHandler) && key != (e.kind, h) :: processedByHandler[key] == old(processedByHandler)[key]
      ensures ok <==> Seen(processedByHandler, e.kind, h, e.id)
      ensures old(store.appended) <= store.appended
      ensures store.Contents() == AppendAll(old(store.Contents()), store.appended[|old(store.appended)|..])
      decreases 0, 3
    {
      var key := (e.kind, h);
      if e.id in processedByHandler[key] {
        assert store.appended[|old(store.appended)|..] == [];
        return true;
      }
      hide AppendAll, BoxOk, Subscribed, OnceEach, RunsBounded, Ids, RecordsCalls;
      ok := Handle(h, e);
      Note(h, e, ok);
    }

    /** Records the call just made; a handler that succeeded is not called for this event again. */
    method Note(h: Handler, e: Event, ok: bool)
      requires Valid() && (e.kind, h) in processedByHandler && !Seen(processedByHandler, e.kind, h, e.id)
      requires calls == |called| + 1 && RecordsCalls(called, |called|, behaviour, processedByHandler) && ok == behaviour(|called|).succeeds
      modifies this`called, this`processedByHandler, this`successes
      ensures Valid() && Recorded() && called == old(called) + [(e.kind, h, e.id)]
      ensures processedByHandler == if ok then old(processedByHandler)[(e.kind, h) := old(processedByHandler)[(e.kind, h)] + {e.id}]
                                    else old(processedByHandler)
    {
      var key := (e.kind, h);
      hide BoxOk, RunsBounded;
      CallIsRecorded(called, behaviour, processedByHandler,
                     if ok then processedByHandler[key := processedByHandler[key] + {e.id}] else processedByHandler,
                     e.kind, h, e.id);
      hide RecordsCalls;
      called := called + [(e.kind, h, e.id)];
      if ok {
        RecordSuccess(h, e);
        processedByHandler := processedByHandler[key := processedByHandler[key] + {e.id}];
      }
    }

    /** The end of a dispatch: the row is marked processed, or loses an attempt. */
    method Conclude(e: Event, handled: bool)
      requires store.Logged() && e.id in store.rows
      modifies store`rows
      ensures store.Logged()
      ensures store.rows == old(store.rows)[e.id := Settled(old(store.rows)[e.id], handled, maxAttempts)]
    {
      RestatedSettles(store.rows, e.id, maxAttempts);
      if handled {
        store.MarkProcessed(e.id);
      } else {
        var attempts := store.BumpAttempts(e.id);
        if attempts >= maxAttempts {
          store.MarkFailed(e.id);
        }
      }
    }

    /** The loop of a dispatch over the handlers of the event's type. */
    method OfferAll(e: Event, hs: seq<Handler>) returns (handled: bool)
      requires Valid() && Recorded() && draining && current == e && visited == {}
      requires e.kind in handlers && hs == handlers[e.kind]
      modifies this, store
      ensures Recorded() && called == old(called) + CallsFor(old(processedByHandler), e, hs)
      ensures Valid() && draining && handlers == old(handlers) && current == e
      ensures handled <==> SeenByAll(processedByHandler, e, hs)
      ensures Learned(old(processedByHandler), processedByHandler, e)
      ensures old(store.appended) <= store.appended
      ensures store.Contents() == AppendAll(old(store.Contents()), store.appended[|old(store.appended)|..])
      decreases 0, 4
    {
      assert Distinct(hs) && forall h | h in hs :: (e.kind, h) in processedByHandler;
      hide RecordsCalls, Offered, SeenByAll, AppendAll, Coherent, Ids, Distinct, Learned, Handlers, CallsFor, Seen;
      NoneVisited(hs);
      ghost var n := |store.appended|;
      handled := true;
      NothingOffered(processedByHandler, e, hs, called, store.Contents(), store.appended);
      for i := 0 to |hs|
        invariant Valid() && Recorded() && draining && handlers == old(handlers) && current == e
        invariant visited <= Handlers(hs[..i]) && processedByHandler.Keys == old(processedByHandler).Keys
        invariant Offered(old(processedByHandler), processedByHandler, e, hs, i, old(called), called, handled)
        invariant old(store.appended) <= store.appended
        invariant store.Contents() == AppendAll(old(store.Contents()), store.appended[n..])
      {
        ghost var mid, p, before := store.appended, processedByHandler, called;
        NotYetVisited(hs, i);
        var ok := Offer(hs[i], e);
        OneMoreOffered(old(processedByHandler), p, processedByHandler, e, hs, i, old(called), before, called, handled, ok);
        handled := handled && ok;
        AppendAllConcat(old(store.Contents()), mid[n..], store.appended[|mid|..]);
        SplitSuffix(old(store.appended), mid, store.appended);
      }
      AllOffered(old(processedByHandler), processedByHandler, e, hs, old(called), called, handled);
    }

    ghost method Begin(e: Event)
      requires Valid() && visited == {}
      modifies this`current
      ensures Valid() && current == e
    {
      current := e;
    }

    method Finish(e: Event, handled: bool)
      requires Valid() && draining && current == e
      requires e.id in store.rows && store.rows[e.id].status == Pending
      modifies this`visited, store`rows
      ensures Valid() && visited == {}
      ensures store.Contents() == Settle(old(store.Contents()), e.id, handled, maxAttempts)
    {
      SettleKeepsOk(store.Contents(), e.id, handled, maxAttempts);
      SettleKeepsBound(runs, store.Contents(), e, visited, handled, maxAttempts);
      Conclude(e, handled);
      visited := {};
    }

    /** Offers the row to every handler of its type that has not succeeded on it yet, then settles it. */
    method DispatchRow(e: Event) returns (handled: bool)
      requires Valid() && Recorded() && draining && visited == {}
      requires e.id in store.rows && store.rows[e.id].status == Pending
      modifies this, store
      ensures Recorded() && called == old(called) + CallsOf(old(handlers), old(processedByHandler), e)
      ensures Valid() && draining && visited == {} && handlers == old(handlers)
      ensures handled <==> Delivered(handlers, processedByHandler, e)
      ensures Learned(old(processedByHandler), processedByHandler, e)
      ensures old(store.appended) <= store.appended
      ensures store.Contents() ==
        Settle(AppendAll(old(store.Contents()), store.appended[|old(store.appended)|..]), e.id, handled, maxAttempts)
      decreases 0, 5
    {
      hide Coherent, Learned, SeenByAll, AppendAll, Settle, Ids, RecordsCalls, CallsFor;
      Begin(e);
      handled := true;
      if e.kind in handlers {
        handled := OfferAll(e, handlers[e.kind]);
      } else {
        NothingLearned(processedByHandler, e);
        NothingAppended(store.Contents(), store.appended);
      }
      AppendAllTouches(old(store.Contents()), store.appended[|old(store.appended)|..]);
      Finish(e, handled);
    }

    /** The loop of a drain over the rows it listed. */
    method DispatchAll(pending: seq<Event>) returns (processed: nat)
      requires Valid() && Recorded() && draining && visited == {} && Listing(View(), pending)
      modifies this, store
      ensures Recorded() && called == old(called) + DrainCalls(old(handlers), old(processedByHandler), pending)
      ensures Valid() && draining && visited == {}
      ensures old(store.appended) <= store.appended
      ensures Drains(old(View()), View(), store.appended[|old(store.appended)|..], maxAttempts)
      ensures processed == CountDelivered(old(handlers), processedByHandler, pending)
      decreases 0, 6
    {
      ghost var s, n := View(), |store.appended|;
      DrainStarts(s, pending, maxAttempts);
      assert store.appended[n..] == [];
      processed := 0;
      assert CountDelivered(handlers, processedByHandler, pending[..0]) == 0;
      NothingDispatched(s, pending, called);
      assert BoxOk(s.box, maxAttempts) && forall j, k :: 0 <= j < k < |pending| ==> pending[j].id != pending[k].id;
      hide Settle, AppendAll, Ids, Learned, Grown, RowsAfter, DrainsUpTo, Delivered, BoxOk, Coherent, Listing, Drains,
        Subscribed, OnceEach, RunsBounded, CountDelivered, RecordsCalls, DrainCalls, CallsOf, Dispatched;
      for i := 0 to |pending|
        invariant Recorded() && Dispatched(s, processedByHandler, pending, i, old(called), called)
        invariant Valid() && draining && visited == {} && handlers == s.handlers
        invariant old(store.appended) <= store.appended
        invariant DrainsUpTo(s, pending, i, store.Contents(), processedByHandler, store.appended[n..], maxAttempts)
        invariant processed == CountDelivered(s.handlers, processedByHandler, pending[..i])
      {
        ghost var box, seen, mid, before := store.Contents(), processedByHandler, store.appended, called;
        NextIsPending(s, pending, i, box, seen, mid[n..], maxAttempts);
        var handled := DispatchRow(pending[i]);
        OneMoreDispatched(s, seen, processedByHandler, pending, i, old(called), before, called);
        SplitSuffix(old(store.appended), mid, store.appended);
        DispatchAdvances(s, pending, i, box, seen, mid[n..], store.Contents(), processedByHandler, store.appended[|mid|..], handled, maxAttempts);
        NotYetListed(s, pending, i);
        CountOneMore(s.handlers, seen, processedByHandler, pending, i);
        if handled { processed := processed + 1; }
      }
      TakeAll(pending);
      AllDispatched(s, processedByHandler, pending, old(called), called);
      DrainEnds(s, pending, View(), store.appended[n..], maxAttempts);
    }

    /** The rows a drain takes up, as they stand when it begins. */
    method TakeUp() returns (pending: seq<Event>)
      requires BoxOk(store.Contents(), maxAttempts)
      ensures Listing(View(), pending) && pending == Listed(store.Contents())
    {
      pending := store.List();
      hide ListPending, Precedes, Distinct;
      ListingOf(View(), pending);
      ListedIs(store.Contents(), pending);
    }

    /** Lists pending rows and dispatches them; a drain asked for while one is under way does nothing. */
    method Drain() returns (processed: nat)
      requires Valid() && (draining || Recorded())
      modifies this, store
      ensures Valid() && draining == old(draining) && (draining || Recorded())
      ensures old(store.appended) <= store.appended
      ensures
        if old(draining) then processed == 0 && View() == old(View()) && store.appended == old(store.appended) && Still(old(called), old(calls))
        else
          && called == old(called) + DrainCalls(old(handlers), old(processedByHandler), Listed(old(store.Contents())))
          && Drains(old(View()), View(), store.appended[|old(store.appended)|..], maxAttempts)
          && processed == CountDelivered(old(handlers), processedByHandler, Listed(old(store.Contents())))
      decreases if draining then 0 else 1, 0
    {
      if draining { return 0; }
      hide Ids, Drains, BoxOk, Subscribed, OnceEach, RunsBounded, RecordsCalls, DrainCalls, CountDelivered, ListPending, Listing;
      assert BoxOk(store.Contents(), maxAttempts);
      draining := true;
      var pending := TakeUp();
      processed := DispatchAll(pending);
      draining := false;
    }
  }

  // ----- what the invariant and the drain mean for a row

  /** No handler succeeds twice on an event, nor is called for a row more often than the row has attempts. */
  lemma AtMostOnce(s: State, maxAttempts: int, kind: EventType, h: Handler, id: EventId)
    requires Coherent(s, maxAttempts) && s.visited == {}
    ensures s.successes[(kind, h, id)] <= 1
    ensures s.runs(kind, h, id) <= Cap(maxAttempts)
  {
    assert s.runs(kind, h, id) <= CallsAllowed(s.box, id);
  }

  /**
   What became of a listed row that nobody appended again: it is processed exactly when every
   handler subscribed to its type has succeeded on it, dead-lettered exactly when it was not and
   its last attempt is gone, and otherwise pending with one attempt less.
   */
  lemma FateOfListedRow(s: State, s': State, added: seq<Event>, maxAttempts: int, id: EventId)
    requires Coherent(s, maxAttempts) && Drains(s, s', added, maxAttempts)
    requires id in ListPending(s.box) && id in s.box.rows && id !in Ids(added)
    ensures id in s'.box.rows && s'.box.rows[id].event == s.box.rows[id].event
    ensures var delivered := Delivered(s.handlers, s'.seen, s.box.rows[id].event);
      var attempts := s.box.rows[id].attempts;
      && (s'.box.rows[id].status == Processed <==> delivered)
      && (s'.box.rows[id].status == DeadLettered <==> !delivered && attempts + 1 == Cap(maxAttempts))
      && s'.box.rows[id].attempts == if delivered then attempts else attempts + 1
  {
    ListedAreListable(s.box);
    assert s.box.rows[id].status == Pending;
  }

  lemma LongerHasMore(order: seq<EventId>, order': seq<EventId>)
    requires order <= order' && Distinct(order')
    ensures |order| < |order'| ==> exists id :: id in order' && id !in order
  {
    if |order| < |order'| {
      assert order'[|order|] in order' && order'[|order|] !in order;
    }
  }

  /** A drain in which no handler appended anything is the drain of the outbox model. */
  lemma QuietDrain(s: State, s': State, maxAttempts: int)
    requires Coherent(s, maxAttempts) && Coherent(s', maxAttempts) && Drains(s, s', [], maxAttempts)
    ensures Drained(s.box, s'.box, maxAttempts) && WithinCap(s.box, maxAttempts)
  {
    var order, order' := s.box.order, s'.box.order;
    LongerHasMore(order, order');
    assert order' == order;
  }

  // ----- the text the dedupe sets are keyed by

  function HandlerKey(kind: Text.Str, name: Text.Str, handlerId: nat): Text.Str {
    kind + [Text.HASH] + name + [Text.HASH] + Text.Digits(handlerId)
  }

  lemma NoHashAfter(a: Text.Str, d: Text.Str)
    requires Text.HASH !in d
    ensures var s := a + [Text.HASH] + d; forall i :: |a| < i < |s| ==> s[i] != Text.HASH
  {
    var s := a + [Text.HASH] + d;
    forall i | |a| < i < |s| ensures s[i] != Text.HASH { assert s[i] == d[i - |a| - 1]; }
  }

  lemma LastHash(a: Text.Str, d: Text.Str, b: Text.Str, e: Text.Str)
    requires a + [Text.HASH] + d == b + [Text.HASH] + e
    requires Text.HASH !in d && Text.HASH !in e
    ensures a == b && d == e
  {
    var s := a + [Text.HASH] + d;
    assert a == s[..|a|] && b == s[..|b|] && d == s[|a| + 1..] && e == s[|b| + 1..];
    assert s[|a|] == Text.HASH && s[|b|] == Text.HASH;
    NoHashAfter(a, d);
    NoHashAfter(b, e);
  }

  /** Two subscriptions share a dedupe set only if they are the same handler on the same event type. */
  lemma HandlerKeyInjective(kind: Text.Str, name: Text.Str, handlerId: nat, kind': Text.Str, name': Text.Str, handlerId': nat)
    requires handlerId == handlerId' ==> name == name'
    ensures HandlerKey(kind, name, handlerId) == HandlerKey(kind', name', handlerId') <==> kind == kind' && handlerId == handlerId'
  {
    if HandlerKey(kind, name, handlerId) == HandlerKey(kind', name', handlerId') {
      LastHash(kind + [Text.HASH] + name, Text.Digits(handlerId), kind' + [Text.HASH] + name', Text.Digits(handlerId'));
      Text.DigitsInjective(handlerId, handlerId');
      var s := kind + [Text.HASH] + name;
      assert |kind| == |kind'|;
      assert kind == s[..|kind|] && kind' == s[..|kind'|];
    }
  }
}
