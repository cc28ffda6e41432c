/**
 Several captured payments racing over one hold. `confirmPayment` derives an order id from each
 payment, and `convertToOrder` is unconditional, so the status check of the hold is all that keeps
 it from becoming two orders. Every awaited call is one step; a run is any sequence of steps of any
 number of callers, each confirming one payment.
 */
module HoldRace {
  import opened Common

  datatype Payment = Payment(captured: bool, amount: int)

  /** What the provider knows, and whether `orders.save` of a first version refuses an id already stored. */
  datatype Config = Config(provider: map<Id, Payment>, checkedCreate: bool)

  datatype HoldStatus = Active | Converted | Released

  /** `order` is the converted order, known by its payment like every order here. */
  datatype Hold = Hold(status: HoldStatus, total: int, expiresAt: int, order: Option<Id>)

  /** The next awaited call of one `confirmPayment`; `Fulfil` stands for all that follows the conversion. */
  datatype Caller =
    | LookUpOrder
    | LookUpHold
    | LookUpConverted(order: Id)
    | ReleaseHold
    | AskProvider(hold: Hold)
    | SaveOrder(total: int)
    | LookUpWinner
    | ConvertHold
    | Fulfil
    | Returned(order: Id)
    | Failed

  datatype Call = Call(payment: Id, at: Caller)

  /** The orders written, by payment, with their totals. */
  datatype State = State(hold: Option<Hold>, orders: map<Id, int>, calls: seq<Call>)

  datatype Step = Confirm(payment: Id) | Act(call: nat, now: int) | SweepExpired(now: int)

  /** Reads the hold and decides, with no await between the read and the checks. */
  function ReadHold(hold: Option<Hold>, now: int): Caller {
    match hold
    case None => Failed
    case Some(h) =>
      if h.status == Converted && h.order.Some? then LookUpConverted(h.order.value)
      else if h.status != Active then Failed
      else if now > h.expiresAt then ReleaseHold
      else AskProvider(h)
  }

  /** Whether the provider captured exactly this total for the payment. */
  predicate Captured(cfg: Config, payment: Id, total: int) {
    payment in cfg.provider && cfg.provider[payment].captured && cfg.provider[payment].amount == total
  }

  function SetHold(s: State, status: HoldStatus): State {
    if s.hold.None? then s else s.(hold := Some(s.hold.value.(status := status)))
  }

  function Converting(s: State, payment: Id): State {
    if s.hold.None? then s else s.(hold := Some(s.hold.value.(status := Converted, order := Some(payment))))
  }

  function Perform(cfg: Config, s: State, c: Call, now: int): (State, Caller) {
    match c.at
    case LookUpOrder => (s, if c.payment in s.orders then Returned(c.payment) else LookUpHold)
    case LookUpHold => (s, ReadHold(s.hold, now))
    case LookUpConverted(order) => (s, if order in s.orders then Returned(order) else Failed)
    case ReleaseHold => (SetHold(s, Released), Failed)
    case AskProvider(h) => (s, if Captured(cfg, c.payment, h.total) then SaveOrder(h.total) else Failed)
    case SaveOrder(total) =>
      if cfg.checkedCreate && c.payment in s.orders then (s, LookUpWinner)
      else (s.(orders := s.orders[c.payment := total]), ConvertHold)
    case LookUpWinner => (s, if c.payment in s.orders then Returned(c.payment) else Failed)
    case ConvertHold => (Converting(s, c.payment), Fulfil)
    case Fulfil => (s, Returned(c.payment))
    case done => (s, done)
  }

  function Apply(cfg: Config, s: State, step: Step): State {
    match step
    case Confirm(payment) => s.(calls := s.calls + [Call(payment, LookUpOrder)])
    case Act(i, now) =>
      if i < |s.calls| then
        var (s', at) := Perform(cfg, s, s.calls[i], now);
        s'.(calls := s.calls[i := Call(s.calls[i].payment, at)])
      else s
    case SweepExpired(now) =>
      if s.hold.Some? && s.hold.value.status == Active && s.hold.value.expiresAt <= now then SetHold(s, Released) else s
  }

  function Run(cfg: Config, s: State, steps: seq<Step>): State
    decreases |steps|
  {
    if steps == [] then s else Apply(cfg, Run(cfg, s, steps[..|steps| - 1]), steps[|steps| - 1])
  }

  lemma RunSnoc(cfg: Config, s: State, steps: seq<Step>, step: Step)
    ensures Run(cfg, s, steps + [step]) == Apply(cfg, Run(cfg, s, steps), step)
  {
    assert (steps + [step])[..|steps|] == steps;
  }

  // ----- when a payment can still turn the hold into an order

  predicate IsActive(hold: Option<Hold>) { hold.Some? && hold.value.status == Active }

  /** A call that has passed the status check and will save an order when it goes on. */
  predicate PastTheCheck(cfg: Config, c: Call) {
    c.at.SaveOrder? || (c.at.AskProvider? && c.payment in cfg.provider && cfg.provider[c.payment] == Payment(true, c.at.hold.total))
  }

  /** What decides it, in any state: a call already past the check, or a hold still active for a payment of its total. */
  predicate CanSave(cfg: Config, s: State, payment: Id) {
    || (exists i :: 0 <= i < |s.calls| && s.calls[i].payment == payment && PastTheCheck(cfg, s.calls[i]))
    || (IsActive(s.hold) && payment in cfg.provider && cfg.provider[payment] == Payment(true, s.hold.value.total))
  }

  lemma StepKeepsCannotSave(cfg: Config, s: State, step: Step, payment: Id)
    requires !CanSave(cfg, s, payment)
    ensures !CanSave(cfg, Apply(cfg, s, step), payment)
    ensures payment in Apply(cfg, s, step).orders ==> payment in s.orders
  {
    var s' := Apply(cfg, s, step);
    forall i | 0 <= i < |s'.calls| && s'.calls[i].payment == payment ensures !PastTheCheck(cfg, s'.calls[i]) {
      if i < |s.calls| { assert s.calls[i].payment == payment && !PastTheCheck(cfg, s.calls[i]); }
    }
  }

  lemma {:induction false} CannotSaveForGood(cfg: Config, s: State, steps: seq<Step>, payment: Id)
    requires !CanSave(cfg, s, payment)
    ensures !CanSave(cfg, Run(cfg, s, steps), payment)
    ensures payment in Run(cfg, s, steps).orders ==> payment in s.orders
    decreases |steps|
  {
    if steps != [] {
      CannotSaveForGood(cfg, s, steps[..|steps| - 1], payment);
      StepKeepsCannotSave(cfg, Run(cfg, s, steps[..|steps| - 1]), steps[|steps| - 1], payment);
    }
  }

  /** A call past the check goes on to its save. */
  lemma PastTheCheckSaves(cfg: Config, s: State, i: nat) returns (steps: seq<Step>)
    requires i < |s.calls| && PastTheCheck(cfg, s.calls[i]) && s.calls[i].payment !in s.orders
    ensures s.calls[i].payment in Run(cfg, s, steps).orders
  {
    var act := Act(i, 0);
    RunSnoc(cfg, s, [], act);
    RunSnoc(cfg, s, [] + [act], act);
    assert Run(cfg, s, []) == s;
    steps := if s.calls[i].at.SaveOrder? then [] + [act] else [] + [act] + [act];
  }

  lemma FourMore(cfg: Config, s: State, steps: seq<Step>, act: Step) returns (more: seq<Step>)
    ensures Run(cfg, s, more) == Apply(cfg, Apply(cfg, Apply(cfg, Apply(cfg, Run(cfg, s, steps), act), act), act), act)
  {
    hide Apply;
    RunSnoc(cfg, s, steps, act);
    RunSnoc(cfg, s, steps + [act], act);
    RunSnoc(cfg, s, steps + [act] + [act], act);
    RunSnoc(cfg, s, steps + [act] + [act] + [act], act);
    more := steps + [act] + [act] + [act] + [act];
  }

  /** Two acts take a call from its first lookup past the status check, and two more to its save. */
  lemma FreshCallSaves(cfg: Config, r: State, i: nat, act: Step)
    requires IsActive(r.hold) && i < |r.calls| && r.calls[i].at == LookUpOrder && r.calls[i].payment !in r.orders
    requires Captured(cfg, r.calls[i].payment, r.hold.value.total) && act.Act? && act.call == i && act.now <= r.hold.value.expiresAt
    ensures var r' := Apply(cfg, Apply(cfg, Apply(cfg, Apply(cfg, r, act), act), act), act);
      r'.hold == r.hold && r'.orders == r.orders[r.calls[i].payment := r.hold.value.total]
  {
    var payment, total := r.calls[i].payment, r.hold.value.total;
    hide Captured;
    var r1 := r.(calls := r.calls[i := Call(payment, LookUpHold)]);
    var r2 := r.(calls := r.calls[i := Call(payment, AskProvider(r.hold.value))]);
    var r3 := r.(calls := r.calls[i := Call(payment, SaveOrder(total))]);
    assert r1.calls[i].at == LookUpHold && r2.calls[i].at.AskProvider? && r3.calls[i].at == SaveOrder(total);
    assert Apply(cfg, r, act) == r1;
    assert Apply(cfg, r1, act) == r2;
    assert Apply(cfg, r2, act) == r3;
  }

  /** A fresh call for a captured payment goes through at any time up to the expiry of an active hold, and leaves the hold to the others. */
  lemma ActiveHoldSaves(cfg: Config, s: State, steps: seq<Step>, payment: Id, now: int) returns (more: seq<Step>)
    requires var r := Run(cfg, s, steps);
      IsActive(r.hold) && now <= r.hold.value.expiresAt && Captured(cfg, payment, r.hold.value.total) && payment !in r.orders
    ensures var r, r' := Run(cfg, s, steps), Run(cfg, s, more);
      r'.hold == r.hold && r'.orders == r.orders[payment := r.hold.value.total]
  {
    hide Captured, Run;
    var r := Run(cfg, s, steps);
    var called := steps + [Confirm(payment)];
    var act := Act(|r.calls|, now);
    RunSnoc(cfg, s, steps, Confirm(payment));
    more := FourMore(cfg, s, called, act);
    FreshCallSaves(cfg, Run(cfg, s, called), |r.calls|, act);
  }

  /** After its expiry an active hold is released by the first call that reads it, which saves nothing. */
  lemma ExpiredHoldIsReleased(cfg: Config, s: State, i: nat, now: int, later: int)
    requires i < |s.calls| && s.calls[i].at == LookUpHold && IsActive(s.hold) && now > s.hold.value.expiresAt
    ensures var s' := Apply(cfg, Apply(cfg, s, Act(i, now)), Act(i, later));
      && s'.calls[i].at == Failed && s'.orders == s.orders && s'.hold == Some(s.hold.value.(status := Released))
  {}

  /** The saver converts the hold to its own order and returns that. */
  lemma SaverConverts(cfg: Config, s: State, i: nat, now: int, later: int)
    requires i < |s.calls| && s.calls[i].at == ConvertHold && s.hold.Some?
    ensures var s' := Apply(cfg, Apply(cfg, s, Act(i, now)), Act(i, later));
      && s'.calls[i].at == Returned(s.calls[i].payment) && s'.orders == s.orders
      && s'.hold == Some(s.hold.value.(status := Converted, order := Some(s.calls[i].payment)))
  {}

  /** A call that reads a hold converted to a stored order returns that order, whatever its own payment. */
  lemma ConvergesOnOrder(cfg: Config, s: State, i: nat, now: int, later: int)
    requires i < |s.calls| && s.calls[i].at == LookUpHold && s.hold.Some? && s.hold.value.status == Converted
    requires s.hold.value.order.Some? && s.hold.value.order.value in s.orders
    ensures var s' := Apply(cfg, Apply(cfg, s, Act(i, now)), Act(i, later));
      s'.calls[i].at == Returned(s.hold.value.order.value) && s'.orders == s.orders && s'.hold == s.hold
  {}

  /** A hold that is neither active nor converted, or does not exist, confirms nobody. */
  lemma DeadHoldRefuses(cfg: Config, s: State, i: nat, now: int)
    requires i < |s.calls| && s.calls[i].at == LookUpHold && !IsActive(s.hold)
    requires s.hold.Some? ==> s.hold.value.status == Released
    ensures Apply(cfg, s, Act(i, now)) == s.(calls := s.calls[i := Call(s.calls[i].payment, Failed)])
  {}

  /** A caller whose payment has an order finds it, at its lookup or after losing a checked save. */
  lemma OwnOrderIsFound(cfg: Config, s: State, i: nat, now: int, later: int)
    requires i < |s.calls| && s.calls[i].payment in s.orders
    requires s.calls[i].at == LookUpOrder || s.calls[i].at == LookUpWinner || (s.calls[i].at.SaveOrder? && cfg.checkedCreate)
    ensures var s' := Apply(cfg, Apply(cfg, s, Act(i, now)), Act(i, later));
      s'.calls[i].at == Returned(s.calls[i].payment) && s'.orders == s.orders && s'.hold == s.hold
  {}

  /** A call that has returned or failed takes no further part. */
  lemma EndedStays(cfg: Config, s: State, i: nat, now: int)
    requires i < |s.calls| && (s.calls[i].at.Returned? || s.calls[i].at == Failed)
    ensures Apply(cfg, s, Act(i, now)) == s
  {
    assert s.calls[i := s.calls[i]] == s.calls;
  }

  /** An order that is not stored is never handed out. */
  lemma MissingOrderFails(cfg: Config, s: State, i: nat, now: int)
    requires i < |s.calls|
    requires (s.calls[i].at.LookUpConverted? && s.calls[i].at.order !in s.orders) || (s.calls[i].at == LookUpWinner && s.calls[i].payment !in s.orders)
    ensures Apply(cfg, s, Act(i, now)) == s.(calls := s.calls[i := Call(s.calls[i].payment, Failed)])
  {}

  /** Sweeping releases an active hold exactly from its expiry on. */
  lemma SweepReleasesIff(cfg: Config, s: State, now: int)
    ensures Apply(cfg, s, SweepExpired(now))
         == if IsActive(s.hold) && s.hold.value.expiresAt <= now then s.(hold := Some(s.hold.value.(status := Released))) else s
  {}

  /**
   From any state, a payment without an order can still turn the hold into one exactly if one of its
   calls is past the status check, or the hold is active and the provider captured its total.
   */
  lemma MayBecomeOrderIff(cfg: Config, s: State, payment: Id)
    requires payment !in s.orders
    ensures (exists steps :: payment in Run(cfg, s, steps).orders) <==> CanSave(cfg, s, payment)
  {
    if steps :| payment in Run(cfg, s, steps).orders {
      if !CanSave(cfg, s, payment) { CannotSaveForGood(cfg, s, steps, payment); }
    }
    if CanSave(cfg, s, payment) {
      if i :| 0 <= i < |s.calls| && s.calls[i].payment == payment && PastTheCheck(cfg, s.calls[i]) {
        var steps := PastTheCheckSaves(cfg, s, i);
      } else {
        assert Run(cfg, s, []) == s;
        var steps := ActiveHoldSaves(cfg, s, [], payment, s.hold.value.expiresAt);
      }
    }
  }

  // ----- when a hold becomes at most one order

  /** A hold reserved, and nobody confirming it yet. */
  ghost predicate Initial(s: State) { IsActive(s.hold) && s.orders == map[] && s.calls == [] }

  ghost predicate AtMostOnePayment(cfg: Config, total: int) {
    forall p, q | p in cfg.provider && q in cfg.provider && cfg.provider[p] == cfg.provider[q] == Payment(true, total) :: p == q
  }

  /**
   Whatever the order store checks: in every run the hold becomes at most one order if and only if
   the provider captured at most one payment of its total.
   */
  lemma OneOrderIff(cfg: Config, s: State)
    requires Initial(s)
    ensures (forall steps :: |Run(cfg, s, steps).orders| <= 1) <==> AtMostOnePayment(cfg, s.hold.value.total)
  {
    var total := s.hold.value.total;
    if AtMostOnePayment(cfg, total) {
      forall steps ensures |Run(cfg, s, steps).orders| <= 1 { OnlyCapturedOrders(cfg, s, steps); }
    } else {
      var p, q :| p in cfg.provider && q in cfg.provider && cfg.provider[p] == cfg.provider[q] == Payment(true, total) && p != q;
      assert Run(cfg, s, []) == s;
      var first := ActiveHoldSaves(cfg, s, [], p, s.hold.value.expiresAt);
      var both := ActiveHoldSaves(cfg, s, first, q, s.hold.value.expiresAt);
      AtLeastTwo(Run(cfg, s, both).orders, p, q);
    }
  }

  lemma OnlyCapturedOrders(cfg: Config, s: State, steps: seq<Step>)
    requires Initial(s) && AtMostOnePayment(cfg, s.hold.value.total)
    ensures |Run(cfg, s, steps).orders| <= 1
  {
    var orders := Run(cfg, s, steps).orders;
    forall p | p in orders ensures Captured(cfg, p, s.hold.value.total) {
      if !Captured(cfg, p, s.hold.value.total) { CannotSaveForGood(cfg, s, steps, p); }
    }
    if p :| p in orders {
      assert orders.Keys == {p};
      assert |orders.Keys| == |orders|;
    }
  }

  lemma AtLeastTwo(m: map<Id, int>, p: Id, q: Id)
    requires p in m && q in m && p != q
    ensures |m| >= 2
  {
    assert {p, q} <= m.Keys;
    SubsetSize({p, q}, m.Keys);
    assert |m.Keys| == |m|;
  }

  lemma {:induction false} SubsetSize(a: set<Id>, b: set<Id>)
    requires a <= b
    ensures |a| <= |b|
  {
    if a != {} {
      var x :| x in a;
      SubsetSize(a - {x}, b - {x});
    }
  }

  /** Once the hold is no longer active and no call is past the check, its orders are settled for good. */
  lemma OrdersSettle(cfg: Config, s: State, steps: seq<Step>)
    requires !IsActive(s.hold) && forall i :: 0 <= i < |s.calls| ==> !PastTheCheck(cfg, s.calls[i])
    ensures Run(cfg, s, steps).orders.Keys == s.orders.Keys
  {
    OrdersStay(cfg, s, steps);
    forall p | p in Run(cfg, s, steps).orders ensures p in s.orders { CannotSaveForGood(cfg, s, steps, p); }
  }

  lemma {:induction false} OrdersStay(cfg: Config, s: State, steps: seq<Step>)
    ensures s.orders.Keys <= Run(cfg, s, steps).orders.Keys
    decreases |steps|
  {
    if steps != [] { OrdersStay(cfg, s, steps[..|steps| - 1]); }
  }
}
