/**
 The admission rule every door path goes through
 (packages/core/src/domain/models/entitlement.ts), shared by the atomic claim of
 both storage adapters.
 */
module Admission {
  import opened Common

  datatype TicketStatus = Valid | Redeemed | Void

  datatype Ticket = Ticket(event: Id, status: TicketStatus, allowed: nat, used: nat, scannedAt: seq<int>)

  datatype DenyReason = InvalidSignature | WrongEvent | VoidTicket | AlreadyUsed | OverrideRequired

  datatype Claim = Claim(admitted: bool, deny: Option<DenyReason>, ticket: Option<Ticket>, scansUsed: nat, scansAllowed: nat)

  datatype ScanError = TicketVoided | FullyUsed

  /** What holds of every ticket since it was issued. */
  ghost predicate Sound(t: Ticket) {
    && t.used <= t.allowed
    && |t.scannedAt| == t.used
    && (t.status == Valid ==> t.used < t.allowed)
    && (t.status == Redeemed ==> t.used == t.allowed)
  }

  /** People still admissible on this ticket. */
  function Remaining(t: Ticket): nat {
    if t.status == Void || t.used >= t.allowed then 0 else t.allowed - t.used
  }

  /** Admits one person. */
  function ScanEntitlement(t: Ticket, now: int): Result<Ticket, ScanError> {
    if t.status == Void then Failure(TicketVoided)
    else if t.used >= t.allowed then Failure(FullyUsed)
    else
      var next := t.(used := t.used + 1, scannedAt := t.scannedAt + [now]);
      Success(if next.used >= next.allowed then next.(status := Redeemed) else next)
  }

  /** The read-only decision: wrong event is answered before anything about the ticket's state. */
  function EvaluateAdmission(ticket: Option<Ticket>, event: Id): Claim {
    match ticket
    case None => Claim(false, Some(InvalidSignature), None, 0, 0)
    case Some(t) =>
      if t.event != event then Claim(false, Some(WrongEvent), ticket, 0, 0)
      else if t.status == Void then Claim(false, Some(VoidTicket), ticket, t.used, t.allowed)
      else if t.used >= t.allowed then Claim(false, Some(AlreadyUsed), ticket, t.used, t.allowed)
      else Claim(true, None, ticket, t.used, t.allowed)
  }

  /** `seats` people walk in at `now`, in one decision. */
  function Seated(t: Ticket, seats: nat, now: int): Ticket {
    var used := t.used + seats;
    Ticket(t.event, if seats > 0 && used >= t.allowed then Redeemed else t.status, t.allowed, used,
           t.scannedAt + seq(seats, _ => now))
  }

  /** Admitting one person fails exactly on a void or a full ticket, and is otherwise seating one. */
  lemma ScanEntitlementIff(t: Ticket, now: int)
    ensures ScanEntitlement(t, now) ==
      if t.status == Void then Failure(TicketVoided)
      else if t.used < t.allowed then Success(Seated(t, 1, now))
      else Failure(FullyUsed)
  {
    assert [now] == seq(1, _ => now);
  }

  /** Whether a claim of `seats` seats goes through on the stored ticket. */
  predicate Admissible(ticket: Option<Ticket>, event: Id, seats: nat, expected: Option<nat>) {
    && ticket.Some?
    && ticket.value.event == event
    && 0 < Remaining(ticket.value)
    && seats <= Remaining(ticket.value)
    && (expected.Some? ==> expected.value == ticket.value.used)
  }

  /**
   Decides and applies an admission of one or more seats: all of them or none.
   */
  method AdmitSeats(ticket: Option<Ticket>, event: Id, seats: nat, expected: Option<nat>, now: int) returns (c: Claim)
    ensures c.admitted <==> Admissible(ticket, event, seats, expected)
    ensures c.admitted ==> c == Claim(true, None, Some(Seated(ticket.value, seats, now)), ticket.value.used + seats, ticket.value.allowed)
    ensures !c.admitted ==> c.ticket == ticket && c.deny.Some?
    ensures c.deny == Some(AlreadyUsed) <==> !c.admitted && ticket.Some? && ticket.value.event == event && ticket.value.status != Void
    ensures c.deny == Some(WrongEvent) <==> ticket.Some? && ticket.value.event != event
    ensures !c.admitted && ticket.Some? && ticket.value.event == event ==> c.scansUsed == ticket.value.used && c.scansAllowed == ticket.value.allowed
    ensures ticket.None? || ticket.value.event != event ==> c.scansUsed == 0 && c.scansAllowed == 0
    ensures c == ClaimResult(ticket, event, seats, expected, now)
  {
    var decision := EvaluateAdmission(ticket, event);
    if !decision.admitted {
      return decision;
    }
    var t := ticket.value;
    if expected.Some? && t.used != expected.value {
      return Claim(false, Some(AlreadyUsed), ticket, t.used, t.allowed);
    }
    if t.used + seats > t.allowed {
      return Claim(false, Some(AlreadyUsed), ticket, t.used, t.allowed);
    }
    var admitted := t;
    var i := 0;
    while i < seats
      invariant 0 <= i <= seats
      invariant admitted == Seated(t, i, now)
    {
      var next := ScanEntitlement(admitted, now);
      assert seq(i, _ => now) + [now] == seq(i + 1, _ => now);
      admitted := next.value;
      i := i + 1;
    }
    c := Claim(true, None, Some(admitted), admitted.used, admitted.allowed);
  }

  /** The claim as a function of the stored ticket, for reasoning about sequences of claims. */
  function ClaimResult(ticket: Option<Ticket>, event: Id, seats: nat, expected: Option<nat>, now: int): (c: Claim)
    ensures c.admitted <==> Admissible(ticket, event, seats, expected)
  {
    if Admissible(ticket, event, seats, expected) then
      Claim(true, None, Some(Seated(ticket.value, seats, now)), ticket.value.used + seats, ticket.value.allowed)
    else
      var decision := EvaluateAdmission(ticket, event);
      if !decision.admitted then decision
      else Claim(false, Some(AlreadyUsed), ticket, ticket.value.used, ticket.value.allowed)
  }

  lemma SeatedSound(t: Ticket, seats: nat, now: int)
    requires Sound(t) && 0 < Remaining(t) && seats <= Remaining(t)
    ensures Sound(Seated(t, seats, now))
  {}
}
