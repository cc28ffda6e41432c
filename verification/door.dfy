/**
 The door protocol: every scanner, manager, offline device and door sale works on
 shared tickets through one atomic claim, and writes its ledger row in a separate,
 later step. A run is any sequence of steps, so it covers every interleaving of any
 number of calls, and a call that is never scheduled again is one that crashed.
 */
module Door {
  import opened Admission
  import opened Common

  const COUPLE_CONFIRMATION_TTL_MS := 30_000

  /** The signed content of a couple confirmation. */
  datatype Token = Token(ticket: Id, event: Id, session: Id, device: Id, expectedUsed: nat, seats: nat, expiresAt: int)

  datatype Caller = Scanner | CoupleConfirm | OfflineDevice | Manager | DoorSale

  /** Where a call in flight stands. */
  datatype Call =
    | ToClaim(who: Caller, ticket: Id, event: Id, seats: nat, expected: Option<nat>)
    | ToRecord(who: Caller, scanned: Option<Id>, admitted: bool, taken: nat)
    | Done

  datatype RowStatus = Consumed | Denied | Overridden

  datatype Row = Row(ticket: Option<Id>, status: RowStatus, admittedCount: nat)

  datatype State = State(tickets: map<Id, Ticket>, ledger: seq<Row>, calls: seq<Call>, tokens: set<Token>)

  datatype Step =
    | Scan(event: Id, session: Id, device: Id, qr: Option<Id>, now: int)
    | Confirm(token: Token, event: Id, session: Id, device: Id, confirmed: bool, now: int)
    | OfflineEntry(event: Id, qr: Option<Id>)
    | ManualCheckIn(event: Id, ticket: Id)
    | SellAtDoor(event: Id, ticket: Id)  // a ticket issued by the sale itself, for one
    | TakeClaim(call: nat, now: int)
    | WriteRow(call: nat)
    | Issue(ticket: Id, event: Id, allowed: nat)
    | VoidTicket(ticket: Id)
    | StaffDeny(qr: Option<Id>)
    | Override(row: nat)

  function Find(s: State, id: Id): Option<Ticket> {
    if id in s.tickets then Some(s.tickets[id]) else None
  }

  function Used(s: State, id: Id): nat {
    if id in s.tickets then s.tickets[id].used else 0
  }

  function Start(s: State, c: Call): State { s.(calls := s.calls + [c]) }

  /** An untouched couple ticket of this event: the scan asks before it admits anyone. */
  predicate AsksFirst(ticket: Option<Ticket>, event: Id) {
    && ticket.Some?
    && ticket.value.event == event
    && ticket.value.status != Void
    && ticket.value.allowed == 2
    && ticket.value.used == 0
  }

  /** `admittedCount` of the row a finished call writes. */
  function RecordedCount(who: Caller, admitted: bool, seats: nat): nat {
    if !admitted then 0 else if who == CoupleConfirm then seats else 1
  }

  /** A confirmation the server minted, unexpired, and presented on its own session and device. */
  predicate Accepts(s: State, t: Token, event: Id, session: Id, device: Id, now: int) {
    t in s.tokens && now <= t.expiresAt && t.event == event && t.session == session && t.device == device
  }

  function Claimed(s: State, i: nat, now: int): State
    requires i < |s.calls| && s.calls[i].ToClaim?
  {
    var call := s.calls[i];
    var c := ClaimResult(Find(s, call.ticket), call.event, call.seats, call.expected, now);
    var after :=
      if !c.admitted && (call.who == Manager || call.who == DoorSale) then Done
      else ToRecord(call.who, Some(call.ticket), c.admitted, call.seats);
    var tickets := if c.admitted then s.tickets[call.ticket := c.ticket.value] else s.tickets;
    s.(tickets := tickets, calls := s.calls[i := after])
  }

  function Recorded(s: State, i: nat): State
    requires i < |s.calls| && s.calls[i].ToRecord?
  {
    var call := s.calls[i];
    var row := Row(call.scanned, if call.admitted then Consumed else Denied,
                   RecordedCount(call.who, call.admitted, call.taken));
    s.(ledger := s.ledger + [row], calls := s.calls[i := Done])
  }

  /** One atomic step; a step that is not possible in `s` changes nothing. */
  function Apply(s: State, step: Step): State {
    match step
    case Scan(event, session, device, qr, now) =>
      if qr == None then Start(s, ToRecord(Scanner, None, false, 0))
      else if AsksFirst(Find(s, qr.value), event) then
        var t := s.tickets[qr.value];
        s.(tokens := s.tokens + {Token(qr.value, event, session, device, t.used, 2, now + COUPLE_CONFIRMATION_TTL_MS)})
      else Start(s, ToClaim(Scanner, qr.value, event, 1, None))
    case Confirm(t, event, session, device, confirmed, now) =>
      if !Accepts(s, t, event, session, device, now) then s
      else if confirmed then Start(s, ToClaim(CoupleConfirm, t.ticket, event, t.seats, Some(t.expectedUsed)))
      else Start(s, ToRecord(CoupleConfirm, Some(t.ticket), false, 0))
    case OfflineEntry(event, qr) =>
      if qr == None then Start(s, ToRecord(OfflineDevice, None, false, 0))
      else Start(s, ToClaim(OfflineDevice, qr.value, event, 1, None))
    case ManualCheckIn(event, id) => Start(s, ToClaim(Manager, id, event, 1, None))
    case SellAtDoor(event, id) =>
      if id in s.tickets then s
      else Start(s.(tickets := s.tickets[id := Ticket(event, Valid, 1, 0, [])]), ToClaim(DoorSale, id, event, 1, None))
    case TakeClaim(i, now) => if i < |s.calls| && s.calls[i].ToClaim? then Claimed(s, i, now) else s
    case WriteRow(i) => if i < |s.calls| && s.calls[i].ToRecord? then Recorded(s, i) else s
    case Issue(id, event, allowed) =>
      if id in s.tickets || allowed == 0 then s
      else s.(tickets := s.tickets[id := Ticket(event, Valid, allowed, 0, [])])
    case VoidTicket(id) =>
      if id in s.tickets then s.(tickets := s.tickets[id := s.tickets[id].(status := Void)]) else s
    case StaffDeny(qr) => Start(s, ToRecord(Scanner, qr, false, 0))
    case Override(r) =>
      if r < |s.ledger| && s.ledger[r].status == Denied then
        var row := s.ledger[r];
        s.(ledger := s.ledger[r := row.(status := Overridden, admittedCount := if row.admittedCount > 1 then row.admittedCount else 1)])
      else s
  }

  function Run(s: State, steps: seq<Step>): State
    decreases |steps|
  {
    if steps == [] then s else Run(Apply(s, steps[0]), steps[1..])
  }

  // ----- conservation of admissions

  function RowSeats(r: Row, id: Id): nat {
    if r.status == Consumed && r.ticket == Some(id) then r.admittedCount else 0
  }

  /** People the ledger says were admitted on this ticket by a consumed scan. */
  function LedgerSeats(ledger: seq<Row>, id: Id): nat {
    if ledger == [] then 0 else LedgerSeats(ledger[..|ledger| - 1], id) + RowSeats(ledger[|ledger| - 1], id)
  }

  function CallSeats(c: Call, id: Id): nat {
    if c.ToRecord? && c.admitted && c.scanned == Some(id) then c.taken else 0
  }

  /** Seats claimed on this ticket whose row is not written yet. */
  function PendingSeats(calls: seq<Call>, id: Id): nat {
    if calls == [] then 0 else PendingSeats(calls[..|calls| - 1], id) + CallSeats(calls[|calls| - 1], id)
  }

  lemma {:induction false} PendingUpdate(calls: seq<Call>, i: nat, c: Call, id: Id)
    requires i < |calls|
    ensures PendingSeats(calls[i := c], id) == PendingSeats(calls, id) - CallSeats(calls[i], id) + CallSeats(c, id)
  {
    var n := |calls| - 1;
    if i < n {
      assert calls[i := c][..n] == calls[..n][i := c];
      PendingUpdate(calls[..n], i, c, id);
    } else {
      assert calls[i := c][..n] == calls[..n];
    }
  }

  lemma PendingStart(calls: seq<Call>, c: Call, id: Id)
    ensures PendingSeats(calls + [c], id) == PendingSeats(calls, id) + CallSeats(c, id)
  {
    assert (calls + [c])[..|calls|] == calls;
  }

  lemma LedgerAppend(ledger: seq<Row>, r: Row, id: Id)
    ensures LedgerSeats(ledger + [r], id) == LedgerSeats(ledger, id) + RowSeats(r, id)
  {
    assert (ledger + [r])[..|ledger|] == ledger;
  }

  lemma {:induction false} LedgerUpdate(ledger: seq<Row>, i: nat, r: Row, id: Id)
    requires i < |ledger| && RowSeats(r, id) == RowSeats(ledger[i], id)
    ensures LedgerSeats(ledger[i := r], id) == LedgerSeats(ledger, id)
  {
    var n := |ledger| - 1;
    if i < n {
      assert ledger[i := r][..n] == ledger[..n][i := r];
      LedgerUpdate(ledger[..n], i, r, id);
    } else {
      assert ledger[i := r][..n] == ledger[..n];
    }
  }

  /** Only a couple confirmation takes more than one seat, and a token always names two. */
  ghost predicate SeatsAgree(s: State) {
    && (forall t | t in s.tokens :: t.seats == 2 && t.expectedUsed == 0)
    && (forall i | 0 <= i < |s.calls| ::
          match s.calls[i]
          case ToClaim(who, _, _, seats, expected) => if who == CoupleConfirm then seats == 2 && expected == Some(0) else seats == 1
          case ToRecord(who, _, admitted, taken) => admitted && who != CoupleConfirm ==> taken == 1
          case Done => true)
  }

  ghost predicate Balanced(s: State, id: Id) {
    Used(s, id) == LedgerSeats(s.ledger, id) + PendingSeats(s.calls, id)
  }

  ghost predicate Conserved(s: State) {
    && (forall id | id in s.tickets :: Sound(s.tickets[id]))
    && (forall id :: Balanced(s, id))
    && SeatsAgree(s)
  }

  lemma ClaimConserves(s: State, i: nat, now: int)
    requires Conserved(s) && i < |s.calls| && s.calls[i].ToClaim?
    ensures Conserved(Claimed(s, i, now))
  {
    var call := s.calls[i];
    var s' := Claimed(s, i, now);
    forall id ensures Balanced(s', id) {
      assert Balanced(s, id);
      PendingUpdate(s.calls, i, s'.calls[i], id);
    }
    if s'.tickets != s.tickets { SeatedSound(s.tickets[call.ticket], call.seats, now); }
  }

  lemma RecordConserves(s: State, i: nat)
    requires Conserved(s) && i < |s.calls| && s.calls[i].ToRecord?
    ensures Conserved(Recorded(s, i))
  {
    var s' := Recorded(s, i);
    forall id ensures Balanced(s', id) {
      assert Balanced(s, id);
      PendingUpdate(s.calls, i, Done, id);
      LedgerAppend(s.ledger, s'.ledger[|s.ledger|], id);
    }
  }

  lemma StartConserves(s: State, c: Call)
    requires Conserved(s) && SeatsAgree(Start(s, c)) && (c.ToRecord? ==> !c.admitted)
    ensures Conserved(Start(s, c))
  {
    forall id ensures Balanced(Start(s, c), id) {
      assert Balanced(s, id);
      PendingStart(s.calls, c, id);
    }
  }

  lemma OverrideConserves(s: State, r: nat)
    requires Conserved(s)
    ensures Conserved(Apply(s, Override(r)))
  {
    var s' := Apply(s, Override(r));
    forall id ensures Balanced(s', id) {
      assert Balanced(s, id);
      if s' != s { LedgerUpdate(s.ledger, r, s'.ledger[r], id); }
    }
  }

  lemma TicketsConserve(s: State, step: Step)
    requires Conserved(s) && (step.Issue? || step.VoidTicket?)
    ensures Conserved(Apply(s, step))
  {
    var s' := Apply(s, step);
    forall id ensures Balanced(s', id) { assert Balanced(s, id); }
  }

  lemma AskOrStartConserves(s: State, step: Step)
    requires Conserved(s) && (step.Scan? || step.Confirm?)
    ensures Conserved(Apply(s, step))
  {
    var s' := Apply(s, step);
    if s'.calls != s.calls {
      StartConserves(s, s'.calls[|s.calls|]);
    } else {
      forall id ensures Balanced(s', id) { assert Balanced(s, id); }
    }
  }

  lemma StepConserves(s: State, step: Step)
    requires Conserved(s)
    ensures Conserved(Apply(s, step))
  {
    var s' := Apply(s, step);
    match step {
      case Scan(_, _, _, _, _) => AskOrStartConserves(s, step);
      case Confirm(_, _, _, _, _, _) => AskOrStartConserves(s, step);
      case TakeClaim(i, now) => if s' != s { ClaimConserves(s, i, now); }
      case WriteRow(i) => if s' != s { RecordConserves(s, i); }
      case Override(r) => OverrideConserves(s, r);
      case Issue(_, _, _) => TicketsConserve(s, step);
      case VoidTicket(_) => TicketsConserve(s, step);
      case SellAtDoor(event, id) =>
        if s' != s {
          TicketsConserve(s, Issue(id, event, 1));
          StartConserves(Apply(s, Issue(id, event, 1)), s'.calls[|s.calls|]);
        }
      case _ => StartConserves(s, s'.calls[|s.calls|]);
    }
  }

  /**
   Over every run of every writer: no ticket exceeds its allowance, and its count is
   what the ledger recorded plus the claims whose row is still to be written.
   */
  lemma {:induction false} RunConserves(s: State, steps: seq<Step>)
    requires Conserved(s)
    ensures Conserved(Run(s, steps))
    decreases |steps|
  {
    if steps != [] {
      StepConserves(s, steps[0]);
      RunConserves(Apply(s, steps[0]), steps[1..]);
    }
  }

  /** The door never admits more people on a ticket, by its own ledger, than the ticket allows. */
  lemma LedgerWithinAllowance(steps: seq<Step>, id: Id)
    ensures var s := Run(State(map[], [], [], {}), steps);
            && (id in s.tickets ==> LedgerSeats(s.ledger, id) + PendingSeats(s.calls, id) == s.tickets[id].used <= s.tickets[id].allowed)
            && (id !in s.tickets ==> LedgerSeats(s.ledger, id) == 0)
  {
    var s0 := State(map[], [], [], {});
    forall x ensures Balanced(s0, x) {}
    RunConserves(s0, steps);
    assert Balanced(Run(s0, steps), id);
  }

  /** An override or a staff denial is a line in the ledger: it moves no ticket and no count of admitted seats. */
  lemma OverridesAndDenialsAreInert(s: State, step: Step, id: Id)
    requires step.Override? || step.StaffDeny?
    ensures Apply(s, step).tickets == s.tickets
    ensures LedgerSeats(Apply(s, step).ledger, id) == LedgerSeats(s.ledger, id)
    ensures PendingSeats(Apply(s, step).calls, id) == PendingSeats(s.calls, id)
  {
    var s' := Apply(s, step);
    match step {
      case Override(r) => if s' != s { LedgerUpdate(s.ledger, r, s'.ledger[r], id); }
      case StaffDeny(qr) => PendingStart(s.calls, s'.calls[|s.calls|], id);
    }
  }

  /** Nothing ever gives a seat back, and a voided ticket stays void. */
  lemma {:induction false} RunMonotone(s: State, steps: seq<Step>, id: Id)
    requires id in s.tickets
    ensures var t, t' := s.tickets[id], Find(Run(s, steps), id);
            && t'.Some? && t.used <= t'.value.used && t'.value.event == t.event && t'.value.allowed == t.allowed
            && (t.status == Void ==> t'.value.status == Void && t'.value.used == t.used)
    decreases |steps|
  {
    if steps != [] { RunMonotone(Apply(s, steps[0]), steps[1..], id); }
  }

  // ----- both halves of a couple walk in together

  /**
   A step that asks for one seat of this ticket at its own event without asking for the other: an
   offline entry or a manager's check-in. A door sale claims only the tickets it has just issued.
   */
  predicate SingleSeatWriter(step: Step, id: Id, event: Id) {
    match step
    case OfflineEntry(e, qr) => e == event && qr == Some(id)
    case ManualCheckIn(e, ticket) => e == event && ticket == id
    case _ => false
  }

  /** The ticket still has both seats or neither, and no single-seat claim in flight can take one. */
  ghost predicate Together(s: State, id: Id) {
    && SeatsAgree(s)
    && id in s.tickets && s.tickets[id].allowed == 2
    && (s.tickets[id].used == 0 || s.tickets[id].used == 2)
    && forall i | 0 <= i < |s.calls| && s.calls[i].ToClaim? && s.calls[i].ticket == id ::
         s.calls[i].seats == 2 || s.calls[i].event != s.tickets[id].event || Remaining(s.tickets[id]) == 0
  }

  lemma StepKeepsTogether(s: State, step: Step, id: Id)
    requires Together(s, id) && !SingleSeatWriter(step, id, s.tickets[id].event)
    ensures Together(Apply(s, step), id) && Apply(s, step).tickets[id].event == s.tickets[id].event
  {
    if step.TakeClaim? { ClaimKeepsTogether(s, step.call, step.now, id); }
  }

  lemma ClaimKeepsTogether(s: State, i: nat, now: int, id: Id)
    requires Together(s, id)
    ensures Together(Apply(s, TakeClaim(i, now)), id) && Apply(s, TakeClaim(i, now)).tickets[id].event == s.tickets[id].event
  {}

  lemma {:induction false} RunKeepsTogether(s: State, steps: seq<Step>, id: Id)
    requires Together(s, id) && forall i :: 0 <= i < |steps| ==> !SingleSeatWriter(steps[i], id, s.tickets[id].event)
    ensures Together(Run(s, steps), id)
    decreases |steps|
  {
    if steps != [] {
      StepKeepsTogether(s, steps[0], id);
      RunKeepsTogether(Apply(s, steps[0]), steps[1..], id);
    }
  }

  /** An unused couple ticket that no call in flight is about to claim. */
  ghost predicate UntouchedCouple(s: State, id: Id) {
    && Conserved(s)
    && id in s.tickets && s.tickets[id].allowed == 2 && s.tickets[id].used == 0 && s.tickets[id].status == Valid
    && forall i :: 0 <= i < |s.calls| && s.calls[i].ToClaim? ==> s.calls[i].ticket != id
  }

  /**
   In every run, in any interleaving, with any replay of tokens and whatever happens to other
   tickets and at other events, an unused couple ticket has count 0 or 2 and never 1, as long as
   no offline entry and no manual check-in asks for one of its own seats.
   */
  lemma {:induction false} CoupleEntersTogether(s: State, steps: seq<Step>, id: Id)
    requires UntouchedCouple(s, id)
    requires forall i :: 0 <= i < |steps| ==> !SingleSeatWriter(steps[i], id, s.tickets[id].event)
    ensures Used(Run(s, steps), id) == 0 || Used(Run(s, steps), id) == 2
  {
    RunKeepsTogether(s, steps, id);
  }

  lemma LoneClaimTakesOneSeat(s: State, i: nat, now: int, id: Id)
    requires i < |s.calls| && s.calls[i].ToClaim? && s.calls[i].seats == 1 && s.calls[i].expected == None
    requires s.calls[i].ticket == id && AsksFirst(Find(s, id), s.calls[i].event)
    ensures Used(Claimed(s, i, now), id) == 1
  {}

  /** From every such state, the call a step starts splits the couple if and only if it asks for one of its own seats. */
  lemma SplitsCoupleIff(s: State, step: Step, id: Id, now: int)
    requires UntouchedCouple(s, id)
    ensures Used(Run(s, [step, TakeClaim(|s.calls|, now)]), id) == 1 <==> SingleSeatWriter(step, id, s.tickets[id].event)
  {
    hide Claimed, Conserved, Run;
    var claim := TakeClaim(|s.calls|, now);
    TwoSteps(s, step, claim);
    if SingleSeatWriter(step, id, s.tickets[id].event) {
      var s1 := Apply(s, step);
      LoneClaimTakesOneSeat(s1, |s.calls|, now, id);
      assert Apply(s1, claim) == Claimed(s1, |s.calls|, now);
    } else {
      UntouchedIsTogether(s, id);
      StepKeepsTogether(s, step, id);
      ClaimKeepsTogether(Apply(s, step), |s.calls|, now, id);
      hide Apply;
    }
  }

  lemma UntouchedIsTogether(s: State, id: Id)
    requires UntouchedCouple(s, id)
    ensures Together(s, id)
  {}

  lemma TwoSteps(s: State, first: Step, second: Step)
    ensures Run(s, [first, second]) == Apply(Apply(s, first), second)
  {
    hide Apply;
    assert [first, second][1..] == [second] && [second][1..] == [];
    assert Run(Apply(s, first), [second]) == Run(Apply(Apply(s, first), second), []);
  }

  /** A spent ticket admits nobody else, whatever tokens are replayed and whoever asks. */
  lemma SpentAdmitsNobody(s: State, steps: seq<Step>, id: Id)
    requires Conserved(s) && id in s.tickets && s.tickets[id].used == s.tickets[id].allowed
    ensures Used(Run(s, steps), id) == Used(s, id)
  {
    RunConserves(s, steps);
    RunMonotone(s, steps, id);
  }

  /** The two-step admission works: scan, confirm in time, claim, record; and the door counted two people. */
  lemma ScanThenConfirmAdmitsBoth(s: State, id: Id, session: Id, device: Id, t0: int, t1: int, t2: int)
    requires UntouchedCouple(s, id) && t1 <= t0 + COUPLE_CONFIRMATION_TTL_MS
    ensures var event := s.tickets[id].event;
            var token := Token(id, event, session, device, 0, 2, t0 + COUPLE_CONFIRMATION_TTL_MS);
            var s' := Run(s, [Scan(event, session, device, Some(id), t0), Confirm(token, event, session, device, true, t1),
                              TakeClaim(|s.calls|, t2), WriteRow(|s.calls|)]);
            Used(s', id) == 2 && LedgerSeats(s'.ledger, id) == LedgerSeats(s.ledger, id) + 2
  {
    var event, n := s.tickets[id].event, |s.calls|;
    var token := Token(id, event, session, device, 0, 2, t0 + COUPLE_CONFIRMATION_TTL_MS);
    var s1 := Apply(s, Scan(event, session, device, Some(id), t0));
    var s2 := Apply(s1, Confirm(token, event, session, device, true, t1));
    var s3 := Apply(s2, TakeClaim(n, t2));
    var s4 := Apply(s3, WriteRow(n));
    assert s3.calls[n] == ToRecord(CoupleConfirm, Some(id), true, 2);
    LedgerAppend(s3.ledger, s4.ledger[|s3.ledger|], id);
    RunFour(s, Scan(event, session, device, Some(id), t0), Confirm(token, event, session, device, true, t1),
            TakeClaim(n, t2), WriteRow(n));
  }

  lemma RunFour(s: State, a: Step, b: Step, c: Step, d: Step)
    ensures Run(s, [a, b, c, d]) == Apply(Apply(Apply(Apply(s, a), b), c), d)
  {
    assert [a, b, c, d][1..] == [b, c, d] && [b, c, d][1..] == [c, d] && [c, d][1..] == [d] && [d][1..] == [];
    var s1 := Apply(s, a);
    var s2 := Apply(s1, b);
    var s3 := Apply(s2, c);
    assert Run(s, [a, b, c, d]) == Run(s1, [b, c, d]);
    assert Run(s1, [b, c, d]) == Run(s2, [c, d]);
    assert Run(s2, [c, d]) == Run(s3, [d]);
    assert Run(s3, [d]) == Run(Apply(s3, d), []);
  }

  // ----- who is let in, call by call

  lemma RunThree(s: State, a: Step, b: Step, c: Step)
    ensures Run(s, [a, b, c]) == Apply(Apply(Apply(s, a), b), c)
  {
    hide Apply;
    assert [a, b, c][1..] == [b, c] && [b, c][1..] == [c] && [c][1..] == [];
    assert Run(Apply(s, a), [b, c]) == Run(Apply(Apply(s, a), b), [c]);
    assert Run(Apply(Apply(s, a), b), [c]) == Run(Apply(Apply(Apply(s, a), b), c), []);
  }

  /** An existing ticket of this event that is not void and has this many seats left. */
  predicate HasSeats(s: State, id: Id, event: Id, seats: nat) {
    id in s.tickets && s.tickets[id].event == event && s.tickets[id].status != Void && s.tickets[id].used + seats <= s.tickets[id].allowed
  }

  /** The ticket once `seats` people have walked in on it. */
  function WalkedIn(t: Ticket, seats: nat, now: int): Ticket {
    Ticket(t.event, if t.used + seats == t.allowed then Redeemed else t.status, t.allowed, t.used + seats, t.scannedAt + seq(seats, _ => now))
  }

  predicate IsUntouchedCouple(s: State, id: Id, event: Id) {
    && id in s.tickets && s.tickets[id].event == event && s.tickets[id].status != Void
    && s.tickets[id].allowed == 2 && s.tickets[id].used == 0
  }

  /** A call for one person: a scan of anything but an untouched couple, an offline entry, a manual check-in. */
  predicate AsksForOne(s: State, step: Step, id: Id, event: Id) {
    match step
    case Scan(e, _, _, qr, _) => e == event && qr == Some(id) && !IsUntouchedCouple(s, id, event)
    case OfflineEntry(e, qr) => e == event && qr == Some(id)
    case ManualCheckIn(e, ticket) => e == event && ticket == id
    case _ => false
  }

  /**
   Such a call, carried through: it lets exactly one person in and says so in the ledger if the ticket
   exists, is of this event, is not void and has a seat left; otherwise it moves no ticket, and leaves
   a denial in the ledger unless it was a manual check-in.
   */
  lemma OnePersonIffSeat(s: State, step: Step, id: Id, event: Id, now: int)
    requires AsksForOne(s, step, id, event)
    ensures var s' := Run(s, [step, TakeClaim(|s.calls|, now), WriteRow(|s.calls|)]);
      if HasSeats(s, id, event, 1) then
        s'.tickets == s.tickets[id := WalkedIn(s.tickets[id], 1, now)] && s'.ledger == s.ledger + [Row(Some(id), Consumed, 1)]
      else
        s'.tickets == s.tickets && s'.ledger == s.ledger + if step.ManualCheckIn? then [] else [Row(Some(id), Denied, 0)]
  {
    var n := |s.calls|;
    var who := if step.Scan? then Scanner else if step.OfflineEntry? then OfflineDevice else Manager;
    RunThree(s, step, TakeClaim(n, now), WriteRow(n));
    var s1 := Start(s, ToClaim(who, id, event, 1, None));
    assert Apply(s, step) == s1;
    ClaimThenRow(s1, n, now);
  }

  /** A started claim and its row: all the seats asked for, or none. */
  lemma ClaimThenRow(s: State, n: nat, now: int)
    requires n < |s.calls| && s.calls[n].ToClaim? && s.calls[n].seats > 0
    ensures var (who, id, seats, expected) := (s.calls[n].who, s.calls[n].ticket, s.calls[n].seats, s.calls[n].expected);
      var s' := Apply(Apply(s, TakeClaim(n, now)), WriteRow(n));
      if HasSeats(s, id, s.calls[n].event, seats) && (expected.Some? ==> expected.value == s.tickets[id].used) then
        && s'.tickets == s.tickets[id := WalkedIn(s.tickets[id], seats, now)]
        && s'.ledger == s.ledger + [Row(Some(id), Consumed, if who == CoupleConfirm then seats else 1)]
      else
        && s'.tickets == s.tickets
        && s'.ledger == s.ledger + if who == Manager || who == DoorSale then [] else [Row(Some(id), Denied, 0)]
  {
    var s1 := Apply(s, TakeClaim(n, now));
    assert s1 == Claimed(s, n, now);
  }

  /** A door sale lets the guest it has sold a new ticket in, and uses the ticket up. */
  lemma SaleLetsItsGuestIn(s: State, event: Id, id: Id, now: int)
    requires id !in s.tickets
    ensures var s' := Run(s, [SellAtDoor(event, id), TakeClaim(|s.calls|, now), WriteRow(|s.calls|)]);
      && s'.tickets == s.tickets[id := Ticket(event, Redeemed, 1, 1, [now])]
      && s'.ledger == s.ledger + [Row(Some(id), Consumed, 1)]
  {
    var n := |s.calls|;
    RunThree(s, SellAtDoor(event, id), TakeClaim(n, now), WriteRow(n));
    var s1 := Start(s.(tickets := s.tickets[id := Ticket(event, Valid, 1, 0, [])]), ToClaim(DoorSale, id, event, 1, None));
    assert Apply(s, SellAtDoor(event, id)) == s1;
    ClaimThenRow(s1, n, now);
    assert [] + seq(1, _ => now) == [now];
  }

  /** What cannot be read admits nobody and is a denial without a ticket. */
  lemma UnreadableIsDenied(s: State, step: Step)
    requires (step.Scan? || step.OfflineEntry?) && step.qr == None
    ensures var s' := Run(s, [step, WriteRow(|s.calls|)]);
      s'.tickets == s.tickets && s'.ledger == s.ledger + [Row(None, Denied, 0)]
  {
    TwoSteps(s, step, WriteRow(|s.calls|));
    var s1 := Start(s, ToRecord(if step.Scan? then Scanner else OfflineDevice, None, false, 0));
    assert Apply(s, step) == s1;
    assert Apply(s1, WriteRow(|s.calls|)) == Recorded(s1, |s.calls|);
  }

  /** Scanning an untouched couple asks first: nobody is let in, and exactly one confirmation is minted. */
  lemma CoupleIsAskedFirst(s: State, id: Id, event: Id, session: Id, device: Id, now: int)
    requires IsUntouchedCouple(s, id, event)
    ensures Apply(s, Scan(event, session, device, Some(id), now))
         == s.(tokens := s.tokens + {Token(id, event, session, device, 0, 2, now + COUPLE_CONFIRMATION_TTL_MS)})
  {}

  /** A confirmation the server minted, presented in time at its own event, session and device. */
  predicate Presented(s: State, t: Token, event: Id, session: Id, device: Id, now: int) {
    t in s.tokens && now <= t.expiresAt && t.event == event && t.session == session && t.device == device
  }

  /**
   A confirmation carried through: presented properly it lets all its people in if staff confirmed, the
   ticket stands where it stood when they were asked and has the seats, and is a denial otherwise;
   presented in any other way it does nothing at all.
   */
  lemma ConfirmationIff(s: State, t: Token, event: Id, session: Id, device: Id, confirmed: bool, now: int, claimedAt: int)
    requires t.seats > 0
    ensures var s' := Run(s, [Confirm(t, event, session, device, confirmed, now), TakeClaim(|s.calls|, claimedAt), WriteRow(|s.calls|)]);
      if !Presented(s, t, event, session, device, now) then s' == s
      else if confirmed && HasSeats(s, t.ticket, event, t.seats) && s.tickets[t.ticket].used == t.expectedUsed then
        && s'.tickets == s.tickets[t.ticket := WalkedIn(s.tickets[t.ticket], t.seats, claimedAt)]
        && s'.ledger == s.ledger + [Row(Some(t.ticket), Consumed, t.seats)]
      else s'.tickets == s.tickets && s'.ledger == s.ledger + [Row(Some(t.ticket), Denied, 0)]
  {
    var n := |s.calls|;
    var confirm := Confirm(t, event, session, device, confirmed, now);
    RunThree(s, confirm, TakeClaim(n, claimedAt), WriteRow(n));
    if Presented(s, t, event, session, device, now) && confirmed {
      var s1 := Start(s, ToClaim(CoupleConfirm, t.ticket, event, t.seats, Some(t.expectedUsed)));
      assert Apply(s, confirm) == s1;
      ClaimThenRow(s1, n, claimedAt);
    }
  }

  /** A newly issued ticket has all its seats at its event; issuing it again changes nothing. */
  lemma IssuedSeats(s: State, id: Id, event: Id, allowed: nat, other: Id, e: Id, seats: nat)
    ensures HasSeats(Apply(s, Issue(id, event, allowed)), other, e, seats)
       <==> if other == id && id !in s.tickets then e == event && 0 < allowed && seats <= allowed else HasSeats(s, other, e, seats)
    ensures Used(Apply(s, Issue(id, event, allowed)), other) == Used(s, other)
  {}

  /** A voided ticket has no seat at any event, and no other ticket is touched. */
  lemma VoidedSeats(s: State, id: Id, other: Id, e: Id, seats: nat)
    ensures HasSeats(Apply(s, Step.VoidTicket(id)), other, e, seats) <==> other != id && HasSeats(s, other, e, seats)
  {}

  /** A staff denial is a denied row and nothing else; an override counts at least one person and marks denied rows only. */
  lemma DeniedThenOverridden(s: State, qr: Option<Id>)
    ensures var n := |s.ledger|;
      var denied := Run(s, [StaffDeny(qr), WriteRow(|s.calls|), Override(n)]);
      && denied.tickets == s.tickets && denied.ledger == s.ledger + [Row(qr, Overridden, 1)]
      && Apply(denied, Override(n)) == denied
  {
    var n, c := |s.ledger|, |s.calls|;
    RunThree(s, StaffDeny(qr), WriteRow(c), Override(n));
    DenialWritten(s, qr);
    OverriddenOnce(Apply(Apply(s, StaffDeny(qr)), WriteRow(c)), s.ledger, qr);
    hide Apply, Run;
  }

  lemma DenialWritten(s: State, qr: Option<Id>)
    ensures var s2 := Apply(Apply(s, StaffDeny(qr)), WriteRow(|s.calls|));
      s2.tickets == s.tickets && s2.ledger == s.ledger + [Row(qr, Denied, 0)]
  {
    var s1 := Start(s, ToRecord(Scanner, qr, false, 0));
    assert Apply(s, StaffDeny(qr)) == s1;
    assert Apply(s1, WriteRow(|s.calls|)) == Recorded(s1, |s.calls|);
  }

  lemma OverriddenOnce(s: State, ledger: seq<Row>, qr: Option<Id>)
    requires s.ledger == ledger + [Row(qr, Denied, 0)]
    ensures var s' := Apply(s, Override(|ledger|));
      s'.tickets == s.tickets && s'.ledger == ledger + [Row(qr, Overridden, 1)] && Apply(s', Override(|ledger|)) == s'
  {
    var n := |ledger|;
    var s' := Apply(s, Override(n));
    assert s'.ledger == ledger + [Row(qr, Overridden, 1)];
    assert s'.ledger[n].status == Overridden;
  }
}
