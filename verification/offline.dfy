/**
 Replaying the scans a device took while offline: every entry runs the same online
 claim, and the server's answer does not depend on the order the entries arrive in.
 */
module Offline {
  import opened Admission
  import opened Common
  import opened Door

  /** One offline scan; `qr` is the ticket its payload decodes to, if it verifies. */
  datatype Entry = Entry(payload: string, qr: Option<Id>, scannedAt: int)

  type Tickets = map<Id, Ticket>

  function Stored(tickets: Tickets, id: Id): Option<Ticket> {
    if id in tickets then Some(tickets[id]) else None
  }

  /** Seats this event can still admit on a ticket. */
  function Left(tickets: Tickets, event: Id, id: Id): nat {
    if id in tickets && tickets[id].event == event then Remaining(tickets[id]) else 0
  }

  predicate Admits(tickets: Tickets, event: Id, e: Entry) {
    e.qr.Some? && Admissible(Stored(tickets, e.qr.value), event, 1, None)
  }

  function AfterEntry(tickets: Tickets, event: Id, e: Entry, now: int): Tickets {
    if Admits(tickets, event, e) then tickets[e.qr.value := Seated(tickets[e.qr.value], 1, now)] else tickets
  }

  function RowOf(tickets: Tickets, event: Id, e: Entry): Row {
    if Admits(tickets, event, e) then Row(e.qr, Consumed, 1) else Row(e.qr, Denied, 0)
  }

  function AfterEntries(tickets: Tickets, event: Id, es: seq<Entry>, now: int): Tickets {
    if es == [] then tickets
    else AfterEntries(AfterEntry(tickets, event, es[0], now), event, es[1..], now)
  }

  function RowsOf(tickets: Tickets, event: Id, es: seq<Entry>, now: int): (r: seq<Row>)
    ensures |r| == |es|
  {
    if es == [] then []
    else [RowOf(tickets, event, es[0])] + RowsOf(AfterEntry(tickets, event, es[0], now), event, es[1..], now)
  }

  function CountConsumed(rows: seq<Row>): (n: nat)
    ensures n <= |rows|
  {
    if rows == [] then 0 else (if rows[0].status == Consumed then 1 else 0) + CountConsumed(rows[1..])
  }

  lemma {:induction false} AfterEntriesSnoc(tickets: Tickets, event: Id, es: seq<Entry>, e: Entry, now: int)
    ensures AfterEntries(tickets, event, es + [e], now) == AfterEntry(AfterEntries(tickets, event, es, now), event, e, now)
    ensures RowsOf(tickets, event, es + [e], now) == RowsOf(tickets, event, es, now) + [RowOf(AfterEntries(tickets, event, es, now), event, e)]
  {
    if es == [] {
      assert es + [e] == [e] && [e][1..] == [];
    } else {
      assert (es + [e])[1..] == es[1..] + [e];
      AfterEntriesSnoc(AfterEntry(tickets, event, es[0], now), event, es[1..], e, now);
    }
  }

  lemma {:induction false} CountConsumedSnoc(rows: seq<Row>, r: Row)
    ensures CountConsumed(rows + [r]) == CountConsumed(rows) + if r.status == Consumed then 1 else 0
  {
    if rows == [] {
      assert rows + [r] == [r] && [r][1..] == [];
    } else {
      assert (rows + [r])[1..] == rows[1..] + [r];
      CountConsumedSnoc(rows[1..], r);
    }
  }

  class DoorStore {
    var tickets: Tickets
    var ledger: seq<Row>

    constructor ()
      ensures tickets == map[] && ledger == []
    {
      tickets, ledger := map[], [];
    }

    /** The adapter's claim: nothing runs between its read and its write. */
    method ClaimAdmission(id: Id, event: Id, seats: nat, expected: Option<nat>, now: int) returns (c: Claim)
      modifies this`tickets
      ensures c == ClaimResult(Stored(old(tickets), id), event, seats, expected, now)
      ensures tickets == if c.admitted then old(tickets)[id := c.ticket.value] else old(tickets)
    {
      c := AdmitSeats(Stored(tickets, id), event, seats, expected, now);
      if c.admitted {
        tickets := tickets[id := c.ticket.value];
      }
    }

    method RecordScan(qr: Option<Id>, admitted: bool)
      modifies this`ledger
      ensures ledger == old(ledger) + [if admitted then Row(qr, Consumed, 1) else Row(qr, Denied, 0)]
    {
      ledger := ledger + [if admitted then Row(qr, Consumed, 1) else Row(qr, Denied, 0)];
    }

    method SyncOfflineScans(event: Id, scans: seq<Entry>, now: int) returns (synced: nat, conflicts: seq<(string, DenyReason)>)
      modifies this
      ensures tickets == AfterEntries(old(tickets), event, scans, now)
      ensures ledger == old(ledger) + RowsOf(old(tickets), event, scans, now)
      ensures synced == CountConsumed(RowsOf(old(tickets), event, scans, now))
      ensures synced + |conflicts| == |scans|
    {
      synced, conflicts := 0, [];
      ghost var rows: seq<Row> := [];
      for i := 0 to |scans|
        invariant tickets == AfterEntries(old(tickets), event, scans[..i], now)
        invariant rows == RowsOf(old(tickets), event, scans[..i], now)
        invariant ledger == old(ledger) + rows
        invariant synced == CountConsumed(rows) && synced + |conflicts| == i
      {
        var offline := scans[i];
        assert scans[..i + 1] == scans[..i] + [offline];
        AfterEntriesSnoc(old(tickets), event, scans[..i], offline, now);
        ghost var row := RowOf(tickets, event, offline);
        CountConsumedSnoc(rows, row);
        if offline.qr == None {
          conflicts := conflicts + [(offline.payload, InvalidSignature)];
          RecordScan(None, false);
        } else {
          var claim := ClaimAdmission(offline.qr.value, event, 1, None, now);
          RecordScan(offline.qr, claim.admitted);
          if claim.admitted {
            synced := synced + 1;
          } else {
            conflicts := conflicts + [(offline.payload, if claim.deny.Some? then claim.deny.value else AlreadyUsed)];
          }
        }
        rows := rows + [row];
      }
      assert scans[..|scans|] == scans;
    }
  }

  // ----- the answer depends on how many entries name a ticket, not on their order

  function Naming(es: seq<Entry>, id: Id): (n: nat)
    ensures n <= |es|
  {
    if es == [] then 0 else (if es[0].qr == Some(id) then 1 else 0) + Naming(es[1..], id)
  }

  /** Entries on one ticket that were admitted. */
  function SyncedOn(rows: seq<Row>, id: Id): nat {
    if rows == [] then 0
    else (if rows[0].status == Consumed && rows[0].ticket == Some(id) then 1 else 0) + SyncedOn(rows[1..], id)
  }

  /** With r seats left and k entries for a ticket, exactly min(r, k) are synced and take a seat. */
  lemma {:induction false} SyncsMinimum(tickets: Tickets, event: Id, es: seq<Entry>, now: int, id: Id)
    ensures SyncedOn(RowsOf(tickets, event, es, now), id) == Min(Left(tickets, event, id), Naming(es, id))
    ensures Left(AfterEntries(tickets, event, es, now), event, id) == Left(tickets, event, id) - Min(Left(tickets, event, id), Naming(es, id))
    ensures id in tickets <==> id in AfterEntries(tickets, event, es, now)
    ensures id in tickets ==> AfterEntries(tickets, event, es, now)[id].used == tickets[id].used + Min(Left(tickets, event, id), Naming(es, id))
  {
    if es != [] {
      var next := AfterEntry(tickets, event, es[0], now);
      SyncsMinimum(next, event, es[1..], now, id);
      assert RowsOf(tickets, event, es, now)[1..] == RowsOf(next, event, es[1..], now);
    }
  }

  lemma {:induction false} NamingConcat(es: seq<Entry>, fs: seq<Entry>, id: Id)
    ensures Naming(es + fs, id) == Naming(es, id) + Naming(fs, id)
  {
    if es == [] {
      assert es + fs == fs;
    } else {
      assert (es + fs)[1..] == es[1..] + fs;
      NamingConcat(es[1..], fs, id);
    }
  }

  lemma {:induction false} NamingPermuted(es: seq<Entry>, fs: seq<Entry>, id: Id)
    requires multiset(es) == multiset(fs)
    ensures Naming(es, id) == Naming(fs, id)
  {
    if es == [] {
      assert |multiset(fs)| == |fs| == 0;
    } else {
      var rest := MoveOut(es, fs, id);
      NamingPermuted(es[1..], rest, id);
    }
  }

  lemma MoveOut(es: seq<Entry>, fs: seq<Entry>, id: Id) returns (rest: seq<Entry>)
    requires es != [] && multiset(es) == multiset(fs)
    ensures multiset(es[1..]) == multiset(rest)
    ensures Naming(fs, id) == Naming(rest, id) + if es[0].qr == Some(id) then 1 else 0
  {
    hide Naming;
    assert es[0] in multiset(fs);
    var j :| 0 <= j < |fs| && fs[j] == es[0];
    rest := fs[..j] + fs[j + 1..];
    NamingWithout(fs, j, id);
    WithoutOne(fs, j);
    WithoutHead(es);
  }

  lemma WithoutHead(es: seq<Entry>)
    requires es != []
    ensures multiset(es) - multiset{es[0]} == multiset(es[1..])
  {
    assert es == [es[0]] + es[1..];
  }

  lemma WithoutOne(fs: seq<Entry>, j: nat)
    requires j < |fs|
    ensures multiset(fs) - multiset{fs[j]} == multiset(fs[..j] + fs[j + 1..])
  {
    assert fs == fs[..j] + ([fs[j]] + fs[j + 1..]);
  }

  lemma NamingWithout(fs: seq<Entry>, j: nat, id: Id)
    requires j < |fs|
    ensures Naming(fs, id) == Naming(fs[..j] + fs[j + 1..], id) + if fs[j].qr == Some(id) then 1 else 0
  {
    assert fs == fs[..j] + ([fs[j]] + fs[j + 1..]);
    NamingConcat(fs[..j], [fs[j]] + fs[j + 1..], id);
    NamingConcat(fs[..j], fs[j + 1..], id);
    assert ([fs[j]] + fs[j + 1..])[1..] == fs[j + 1..];
  }

  /** The same entries in any other order sync the same number on every ticket and leave the same counts. */
  lemma OrderDoesNotMatter(tickets: Tickets, event: Id, es: seq<Entry>, fs: seq<Entry>, now: int, now': int, id: Id)
    requires multiset(es) == multiset(fs)
    ensures SyncedOn(RowsOf(tickets, event, es, now), id) == SyncedOn(RowsOf(tickets, event, fs, now'), id)
    ensures id in AfterEntries(tickets, event, es, now) <==> id in tickets
    ensures id in AfterEntries(tickets, event, fs, now') <==> id in tickets
    ensures id in tickets ==> AfterEntries(tickets, event, es, now)[id].used == AfterEntries(tickets, event, fs, now')[id].used
  {
    NamingPermuted(es, fs, id);
    SyncsMinimum(tickets, event, es, now, id);
    SyncsMinimum(tickets, event, fs, now', id);
  }

  function TotalOver(rows: seq<Row>, ids: seq<Id>): nat {
    if ids == [] then 0 else SyncedOn(rows, ids[0]) + TotalOver(rows, ids[1..])
  }

  lemma {:induction false} TotalUncons(rows: seq<Row>, ids: seq<Id>)
    requires rows != [] && Distinct(ids) && rows[0].ticket.Some?
    ensures TotalOver(rows, ids)
         == TotalOver(rows[1..], ids) + if rows[0].status == Consumed && rows[0].ticket.value in ids then 1 else 0
  {
    if ids != [] { TotalUncons(rows, ids[1..]); }
  }

  lemma {:induction false} TotalOfNone(ids: seq<Id>)
    ensures TotalOver([], ids) == 0
  {
    if ids != [] { TotalOfNone(ids[1..]); }
  }

  lemma {:induction false} TotalSkips(rows: seq<Row>, ids: seq<Id>)
    requires rows != [] && rows[0].ticket == None
    ensures TotalOver(rows, ids) == TotalOver(rows[1..], ids)
  {
    if ids != [] { TotalSkips(rows, ids[1..]); }
  }

  lemma {:induction false} CountIsTotal(rows: seq<Row>, ids: seq<Id>)
    requires Distinct(ids)
    requires forall r :: r in rows && r.status == Consumed ==> r.ticket.Some? && r.ticket.value in ids
    ensures CountConsumed(rows) == TotalOver(rows, ids)
  {
    if rows == [] {
      TotalOfNone(ids);
    } else {
      CountIsTotal(rows[1..], ids);
      if rows[0].ticket == None { TotalSkips(rows, ids); } else { TotalUncons(rows, ids); }
    }
  }

  /** The tickets the entries name, once each. */
  function Named(es: seq<Entry>): (ids: seq<Id>)
    ensures Distinct(ids) && forall e :: e in es && e.qr.Some? ==> e.qr.value in ids
  {
    if es == [] then []
    else
      var rest := Named(es[1..]);
      if es[0].qr == None || es[0].qr.value in rest then rest else [es[0].qr.value] + rest
  }

  lemma {:induction false} RowsName(tickets: Tickets, event: Id, es: seq<Entry>, now: int)
    ensures forall r :: r in RowsOf(tickets, event, es, now) && r.status == Consumed ==> r.ticket.Some? && exists e :: e in es && e.qr == r.ticket
  {
    if es != [] {
      var next := AfterEntry(tickets, event, es[0], now);
      RowsName(next, event, es[1..], now);
      forall r | r in RowsOf(tickets, event, es, now) && r.status == Consumed
        ensures r.ticket.Some? && exists e :: e in es && e.qr == r.ticket
      {
        if r != RowOf(tickets, event, es[0]) { assert r in RowsOf(next, event, es[1..], now); }
      }
    }
  }

  lemma {:induction false} TotalsAgree(tickets: Tickets, event: Id, es: seq<Entry>, fs: seq<Entry>, now: int, now': int, ids: seq<Id>)
    requires multiset(es) == multiset(fs)
    ensures TotalOver(RowsOf(tickets, event, es, now), ids) == TotalOver(RowsOf(tickets, event, fs, now'), ids)
  {
    if ids != [] {
      OrderDoesNotMatter(tickets, event, es, fs, now, now', ids[0]);
      TotalsAgree(tickets, event, es, fs, now, now', ids[1..]);
    }
  }

  /** So the `synced` and conflict totals reported for the whole batch do not depend on the order either. */
  lemma {:induction false} ReportedTotalsAgree(tickets: Tickets, event: Id, es: seq<Entry>, fs: seq<Entry>, now: int, now': int)
    requires multiset(es) == multiset(fs)
    ensures CountConsumed(RowsOf(tickets, event, es, now)) == CountConsumed(RowsOf(tickets, event, fs, now'))
  {
    var ids := Named(es);
    forall e | e in fs ensures e in es { assert e in multiset(fs); }
    RowsName(tickets, event, es, now);
    RowsName(tickets, event, fs, now');
    CountIsTotal(RowsOf(tickets, event, es, now), ids);
    CountIsTotal(RowsOf(tickets, event, fs, now'), ids);
    TotalsAgree(tickets, event, es, fs, now, now', ids);
  }

  /** Nor does it matter how the entries are split over devices and batches. */
  lemma {:induction false} BatchesDoNotMatter(tickets: Tickets, event: Id, es: seq<Entry>, fs: seq<Entry>, now: int, now': int, id: Id)
    ensures SyncedOn(RowsOf(tickets, event, es + fs, now'), id)
         == SyncedOn(RowsOf(tickets, event, es, now), id) + SyncedOn(RowsOf(AfterEntries(tickets, event, es, now), event, fs, now'), id)
  {
    SyncsMinimum(tickets, event, es, now, id);
    SyncsMinimum(AfterEntries(tickets, event, es, now), event, fs, now', id);
    SyncsMinimum(tickets, event, es + fs, now', id);
    NamingConcat(es, fs, id);
  }
}
