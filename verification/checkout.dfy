/**
 Dual-path payment confirmation: the provider's webhook and the guest's redirect (and
 any retry of either) race to turn one captured payment and its hold into one order.
 Every awaited call of `confirmPayment` is one step, and a run is any sequence of steps
 of any number of callers.
 */
module Checkout {
  import opened Common

  datatype Payment = Payment(captured: bool, amount: int)

  /**
   What does not change during a run: what the provider knows of the payment, the tickets
   the hold is for, and whether `orders.save` of a first version refuses an id that is
   already stored. The in-memory adapter does; the Firestore adapter writes it unchecked.
   */
  datatype Config = Config(payment: Option<Payment>, units: nat, checkedCreate: bool)

  datatype HoldStatus = Active | Converted | Released

  datatype Hold = Hold(status: HoldStatus, total: int, expiresAt: int, converted: bool)

  /** The order is stored under an id derived from the payment, so there is one slot for it. */
  datatype Order = Order(creator: nat, total: int, paidAt: int)

  datatype Failure = HoldNotFound | HoldNotActive | HoldExpired | PaymentNotFound | NotCaptured | AmountMismatch | VersionConflict

  /** The next awaited call of one `confirmPayment`. */
  datatype Caller =
    | LookUpOrder
    | LookUpHold
    | LookUpConverted
    | ReleaseHold
    | AskProvider(hold: Hold)
    | SaveOrder(order: Order)
    | LookUpWinner
    | ReadEntitlements(found: Order)
    | ConvertHold(mine: Order)
    | RedeemPromo(mine: Order)
    | IssueTicket(mine: Order, next: nat)
    | ReadIssued(mine: Order)
    | Settle(mine: Order)
    | Returned(result: Order)
    | Failed(error: Failure)

  /** Fulfilment work done, and by which caller. */
  datatype Effect = Convert | Redeem | Ticket(index: nat) | Settlement

  datatype State = State(hold: Option<Hold>, order: Option<Order>, work: seq<(Effect, nat)>, callers: seq<Caller>)

  datatype Step =
    | Call
    | Act(caller: nat, now: int)
    | SweepExpired(now: int)

  function SetHold(s: State, status: HoldStatus): State {
    match s.hold
    case None => s
    case Some(h) => s.(hold := Some(h.(status := status, converted := h.converted || status == Converted)))
  }

  function Did(s: State, e: Effect, i: nat): State { s.(work := s.work + [(e, i)]) }

  /** Reads the hold and decides, with no await between the read and the checks. */
  function ReadHold(hold: Option<Hold>, now: int): Caller {
    match hold
    case None => Failed(HoldNotFound)
    case Some(h) =>
      if h.status == Converted && h.converted then LookUpConverted
      else if h.status != Active then Failed(HoldNotActive)
      else if now > h.expiresAt then ReleaseHold
      else AskProvider(h)
  }

  function ReadPayment(payment: Option<Payment>, hold: Hold, i: nat, now: int): Caller {
    match payment
    case None => Failed(PaymentNotFound)
    case Some(p) =>
      if !p.captured then Failed(NotCaptured)
      else if p.amount != hold.total then Failed(AmountMismatch)
      else SaveOrder(Order(i, hold.total, now))
  }

  /** One awaited call of caller `i`: the state it leaves, and where the caller goes next. */
  function Perform(cfg: Config, s: State, i: nat, now: int): (State, Caller)
    requires i < |s.callers|
  {
    match s.callers[i]
    case LookUpOrder => (s, if s.order.Some? then ReadEntitlements(s.order.value) else LookUpHold)
    case LookUpHold => (s, ReadHold(s.hold, now))
    case LookUpConverted => (s, if s.order.Some? then ReadEntitlements(s.order.value) else Failed(HoldNotActive))
    case ReleaseHold => (SetHold(s, Released), Failed(HoldExpired))
    case AskProvider(h) => (s, ReadPayment(cfg.payment, h, i, now))
    case SaveOrder(o) =>
      if cfg.checkedCreate && s.order.Some? then (s, LookUpWinner) else (s.(order := Some(o)), ConvertHold(o))
    case LookUpWinner => (s, if s.order.Some? then ReadEntitlements(s.order.value) else Failed(VersionConflict))
    case ReadEntitlements(o) => (s, Returned(o))
    case ConvertHold(o) => (Did(SetHold(s, Converted), Convert, i), RedeemPromo(o))
    case RedeemPromo(o) => (Did(s, Redeem, i), if cfg.units == 0 then ReadIssued(o) else IssueTicket(o, 0))
    case IssueTicket(o, k) => (Did(s, Ticket(k), i), if k + 1 < cfg.units then IssueTicket(o, k + 1) else ReadIssued(o))
    case ReadIssued(o) => (s, Settle(o))
    case Settle(o) => (Did(s, Settlement, i), Returned(o))
    case Returned(_) => (s, s.callers[i])
    case Failed(_) => (s, s.callers[i])
  }

  function Apply(cfg: Config, s: State, step: Step): State {
    match step
    case Call => s.(callers := s.callers + [LookUpOrder])
    case Act(i, now) =>
      if i < |s.callers| then
        var (s', c) := Perform(cfg, s, i, now);
        s'.(callers := s.callers[i := c])
      else s
    case SweepExpired(now) =>
      if s.hold.Some? && s.hold.value.status == Active && s.hold.value.expiresAt <= now then SetHold(s, Released) else s
  }

  function Run(cfg: Config, s: State, steps: seq<Step>): State
    decreases |steps|
  {
    if steps == [] then s else Run(cfg, Apply(cfg, s, steps[0]), steps[1..])
  }

  /** A hold somebody reserved, and nobody confirming it yet. */
  ghost predicate Initial(s: State) {
    s.order == None && s.work == [] && s.callers == [] && (s.hold.Some? ==> !s.hold.value.converted && s.hold.value.status != Converted)
  }

  // ----- what holds with either store: nothing is fulfilled that was not paid for in full

  ghost predicate PaidFor(cfg: Config, o: Order) {
    cfg.payment.Some? && cfg.payment.value.captured && o.total == cfg.payment.value.amount
  }

  function OrderOf(c: Caller): Option<Order> {
    match c
    case SaveOrder(o) => Some(o)
    case ReadEntitlements(o) => Some(o)
    case ConvertHold(o) => Some(o)
    case RedeemPromo(o) => Some(o)
    case IssueTicket(o, _) => Some(o)
    case ReadIssued(o) => Some(o)
    case Settle(o) => Some(o)
    case Returned(o) => Some(o)
    case _ => None
  }

  ghost predicate Paid(cfg: Config, s: State) {
    && (s.order.Some? ==> PaidFor(cfg, s.order.value))
    && (forall i | 0 <= i < |s.callers| && OrderOf(s.callers[i]).Some? :: PaidFor(cfg, OrderOf(s.callers[i]).value))
    && (s.work != [] ==> s.order.Some?)
    && (forall i | 0 <= i < |s.callers| && Fulfilling(s.callers[i]) :: s.order.Some?)
  }

  lemma {:induction false} RunPaid(cfg: Config, s: State, steps: seq<Step>)
    requires Paid(cfg, s)
    ensures Paid(cfg, Run(cfg, s, steps))
    decreases |steps|
  {
    if steps != [] { RunPaid(cfg, Apply(cfg, s, steps[0]), steps[1..]); }
  }

  // ----- what a store that checks creates adds: one order, fulfilled once, by its creator

  predicate Fulfilling(c: Caller) {
    c.ConvertHold? || c.RedeemPromo? || c.IssueTicket? || c.ReadIssued? || c.Settle?
  }

  function TicketsBy(i: nat, n: nat): seq<(Effect, nat)> {
    if n == 0 then [] else TicketsBy(i, n - 1) + [(Ticket(n - 1), i)]
  }

  /** The complete fulfilment of an order by its creator, in order. */
  function AllWork(cfg: Config, i: nat): seq<(Effect, nat)> {
    [(Convert, i), (Redeem, i)] + TicketsBy(i, cfg.units) + [(Settlement, i)]
  }

  /** How far fulfilment has got when its creator `i` stands at `c`. */
  function WorkDone(cfg: Config, i: nat, c: Caller): seq<(Effect, nat)> {
    match c
    case ConvertHold(_) => []
    case RedeemPromo(_) => [(Convert, i)]
    case IssueTicket(_, k) => [(Convert, i), (Redeem, i)] + TicketsBy(i, k)
    case ReadIssued(_) => [(Convert, i), (Redeem, i)] + TicketsBy(i, cfg.units)
    case Settle(_) => [(Convert, i), (Redeem, i)] + TicketsBy(i, cfg.units)
    case _ => AllWork(cfg, i)
  }

  /** Where each caller may stand, given the stored order. */
  ghost predicate CallerAgrees(cfg: Config, s: State, i: nat)
    requires i < |s.callers|
  {
    var c := s.callers[i];
    && (c.SaveOrder? ==> c.order.creator == i && s.order != Some(c.order))
    && (Fulfilling(c) ==> s.order == OrderOf(c) && c.mine.creator == i)
    && (c.ReadEntitlements? || c.Returned? ==> s.order == OrderOf(c))
    && (c.IssueTicket? ==> c.next < cfg.units)
    && (c.LookUpOrder? || c.LookUpHold? || c.AskProvider? || c.SaveOrder? || c.Failed? ==> s.order.Some? ==> s.order.value.creator != i)
    && (c.LookUpConverted? || c.ReleaseHold? || c.LookUpWinner? || c.ReadEntitlements? ==> s.order.Some? ==> s.order.value.creator != i)
  }

  ghost predicate SingleWinner(cfg: Config, s: State) {
    && (forall i | 0 <= i < |s.callers| :: CallerAgrees(cfg, s, i))
    && match s.order
       case None => s.work == []
       case Some(o) => o.creator < |s.callers| && s.work == WorkDone(cfg, o.creator, s.callers[o.creator])
  }

  lemma OthersAgree(cfg: Config, s: State, i: nat, now: int, j: nat)
    requires cfg.checkedCreate && SingleWinner(cfg, s) && i < |s.callers| && j < |s.callers| && i != j
    ensures CallerAgrees(cfg, Apply(cfg, s, Act(i, now)), j)
  {
    assert CallerAgrees(cfg, s, i) && CallerAgrees(cfg, s, j);
  }

  lemma ActorAgrees(cfg: Config, s: State, i: nat, now: int)
    requires cfg.checkedCreate && SingleWinner(cfg, s) && i < |s.callers|
    ensures CallerAgrees(cfg, Apply(cfg, s, Act(i, now)), i)
  {
    assert CallerAgrees(cfg, s, i);
  }

  lemma WorkAdvances(cfg: Config, s: State, i: nat, now: int)
    requires cfg.checkedCreate && SingleWinner(cfg, s) && i < |s.callers|
    ensures var s' := Apply(cfg, s, Act(i, now));
            match s'.order
            case None => s'.work == []
            case Some(o) => o.creator < |s'.callers| && s'.work == WorkDone(cfg, o.creator, s'.callers[o.creator])
  {
    assert CallerAgrees(cfg, s, i);
  }

  lemma StepKeepsSingleWinner(cfg: Config, s: State, step: Step)
    requires cfg.checkedCreate && SingleWinner(cfg, s)
    ensures SingleWinner(cfg, Apply(cfg, s, step))
  {
    var s' := Apply(cfg, s, step);
    match step {
      case Act(i, now) =>
        if i < |s.callers| {
          WorkAdvances(cfg, s, i, now);
          ActorAgrees(cfg, s, i, now);
          forall j | 0 <= j < |s.callers| && j != i ensures CallerAgrees(cfg, s', j) { OthersAgree(cfg, s, i, now, j); }
        }
      case _ =>
        forall i | 0 <= i < |s'.callers| ensures CallerAgrees(cfg, s', i) {
          if i < |s.callers| { assert CallerAgrees(cfg, s, i); }
        }
    }
  }

  lemma {:induction false} RunKeepsSingleWinner(cfg: Config, s: State, steps: seq<Step>)
    requires cfg.checkedCreate && SingleWinner(cfg, s)
    ensures SingleWinner(cfg, Run(cfg, s, steps))
    decreases |steps|
  {
    if steps != [] {
      StepKeepsSingleWinner(cfg, s, steps[0]);
      RunKeepsSingleWinner(cfg, Apply(cfg, s, steps[0]), steps[1..]);
    }
  }

  /** No piece of fulfilment is done twice, by one caller or by two. */
  ghost predicate NeverTwice(work: seq<(Effect, nat)>) {
    forall p, q :: 0 <= p < q < |work| ==> work[p].0 != work[q].0
  }

  lemma {:induction false} TicketsByAt(i: nat, n: nat)
    ensures |TicketsBy(i, n)| == n && forall k :: 0 <= k < n ==> TicketsBy(i, n)[k] == (Ticket(k), i)
  {
    if n > 0 { TicketsByAt(i, n - 1); }
  }

  lemma WorkDoneOnce(cfg: Config, i: nat, c: Caller)
    ensures NeverTwice(WorkDone(cfg, i, c)) && forall p :: 0 <= p < |WorkDone(cfg, i, c)| ==> WorkDone(cfg, i, c)[p].1 == i
  {
    TicketsByAt(i, cfg.units);
    if c.IssueTicket? { TicketsByAt(i, c.next); }
  }

  /**
   Every interleaving of any number of confirmations, over a store that checks creates:
   all work is done by the creator of the one order and none of it twice, whoever returns
   returns that very order, it was paid for in full, and once its creator has returned the
   hold was converted, the promo redeemed, every ticket issued and the sale settled.
   */
  lemma ConfirmedOnce(cfg: Config, s0: State, steps: seq<Step>)
    requires cfg.checkedCreate && Initial(s0)
    ensures var s := Run(cfg, s0, steps);
            && NeverTwice(s.work)
            && (forall p | 0 <= p < |s.work| :: s.order.Some? && s.work[p].1 == s.order.value.creator)
            && (forall i | 0 <= i < |s.callers| && s.callers[i].Returned? ::
                  && s.order == Some(s.callers[i].result)
                  && PaidFor(cfg, s.callers[i].result)
                  && (s.callers[i].result.creator == i ==> s.work == AllWork(cfg, i)))
  {
    var s := Run(cfg, s0, steps);
    RunPaid(cfg, s0, steps);
    RunKeepsSingleWinner(cfg, s0, steps);
    if s.order.Some? { WorkDoneOnce(cfg, s.order.value.creator, s.callers[s.order.value.creator]); }
    forall i | 0 <= i < |s.callers| && s.callers[i].Returned?
      ensures s.order == Some(s.callers[i].result) && PaidFor(cfg, s.callers[i].result)
      ensures s.callers[i].result.creator == i ==> s.work == AllWork(cfg, i)
    {
      assert CallerAgrees(cfg, s, i);
    }
  }

  // ----- exactly when the race is safe

  /** A live hold and a captured payment of its total: both paths have every right to confirm. */
  ghost predicate Confirmable(cfg: Config, s: State) {
    && Initial(s) && s.hold.Some? && s.hold.value.status == Active
    && cfg.payment == Some(Payment(true, s.hold.value.total))
  }

  lemma {:induction false} RunSnoc(cfg: Config, s: State, steps: seq<Step>, step: Step)
    ensures Run(cfg, s, steps + [step]) == Apply(cfg, Run(cfg, s, steps), step)
    decreases |steps|
  {
    if steps == [] {
      assert steps + [step] == [step] && [step][1..] == [];
    } else {
      assert (steps + [step])[1..] == steps[1..] + [step];
      RunSnoc(cfg, Apply(cfg, s, steps[0]), steps[1..], step);
    }
  }

  /** A run that takes caller `i` from its first lookup to the brink of its save. */
  lemma ReachesSave(cfg: Config, s: State, steps: seq<Step>, i: nat) returns (steps': seq<Step>)
    requires var r := Run(cfg, s, steps);
             && r.order == None && r.hold.Some? && r.hold.value.status == Active
             && cfg.payment == Some(Payment(true, r.hold.value.total))
             && i < |r.callers| && r.callers[i] == LookUpOrder
    ensures var r := Run(cfg, s, steps);
            Run(cfg, s, steps') == r.(callers := r.callers[i := SaveOrder(Order(i, r.hold.value.total, r.hold.value.expiresAt))])
  {
    var r := Run(cfg, s, steps);
    var act := Act(i, r.hold.value.expiresAt);
    RunSnoc(cfg, s, steps, act);
    RunSnoc(cfg, s, steps + [act], act);
    RunSnoc(cfg, s, steps + [act] + [act], act);
    steps' := steps + [act] + [act] + [act];
    var r1 := Apply(cfg, r, act);
    var r2 := Apply(cfg, r1, act);
    assert r1.callers[i] == LookUpHold && r2.callers[i] == AskProvider(r.hold.value);
    assert Apply(cfg, r2, act).callers == r.callers[i := SaveOrder(Order(i, r.hold.value.total, r.hold.value.expiresAt))];
  }

  /** Two callers that both reach their save convert the hold twice when creates are not checked. */
  lemma UncheckedConfirmsTwice(cfg: Config, s: State) returns (steps: seq<Step>)
    requires Confirmable(cfg, s) && !cfg.checkedCreate
    ensures !NeverTwice(Run(cfg, s, steps).work)
  {
    RunSnoc(cfg, s, [], Call);
    RunSnoc(cfg, s, [] + [Call], Call);
    steps := [] + [Call] + [Call];
    assert Run(cfg, s, []) == s;
    var s2 := Run(cfg, s, steps);
    assert s2.callers == [LookUpOrder, LookUpOrder];
    steps := ReachesSave(cfg, s, steps, 0);
    steps := ReachesSave(cfg, s, steps, 1);
    var s3 := Run(cfg, s, steps);
    var a, b := Act(0, 0), Act(1, 0);
    RunSnoc(cfg, s, steps, a);
    RunSnoc(cfg, s, steps + [a], b);
    RunSnoc(cfg, s, steps + [a] + [b], a);
    RunSnoc(cfg, s, steps + [a] + [b] + [a], b);
    steps := steps + [a] + [b] + [a] + [b];
    var s4 := Apply(cfg, Apply(cfg, s3, a), b);
    assert s4.callers[0].ConvertHold? && s4.callers[1].ConvertHold?;
    var s5 := Apply(cfg, Apply(cfg, s4, a), b);
    assert s5.work == [(Convert, 0), (Convert, 1)];
    assert s5.work[0].0 == s5.work[1].0;
  }

  /** The race is safe in every interleaving if and only if the order store checks its creates. */
  lemma SafeIffCreatesAreChecked(cfg: Config, s: State)
    requires Confirmable(cfg, s)
    ensures (forall steps :: NeverTwice(Run(cfg, s, steps).work)) <==> cfg.checkedCreate
  {
    if cfg.checkedCreate {
      forall steps ensures NeverTwice(Run(cfg, s, steps).work) { ConfirmedOnce(cfg, s, steps); }
    } else {
      var steps := UncheckedConfirmsTwice(cfg, s);
    }
  }

  /** With either store: nothing is fulfilled, and no order returned, unless the provider captured exactly its total. */
  lemma OnlyPaidOrdersReturn(cfg: Config, s0: State, steps: seq<Step>)
    requires Initial(s0)
    ensures var s := Run(cfg, s0, steps);
            && (s.work != [] ==> s.order.Some? && PaidFor(cfg, s.order.value))
            && forall i | 0 <= i < |s.callers| && s.callers[i].Returned? :: PaidFor(cfg, s.callers[i].result)
  {
    RunPaid(cfg, s0, steps);
  }

  /** Over a checking store the order, once written, is never replaced. */
  lemma {:induction false} OrderNeverReplaced(cfg: Config, s: State, steps: seq<Step>)
    requires cfg.checkedCreate && s.order.Some?
    ensures Run(cfg, s, steps).order == s.order
    decreases |steps|
  {
    if steps != [] { OrderNeverReplaced(cfg, Apply(cfg, s, steps[0]), steps[1..]); }
  }

  // ----- what a caller ends with when it is left to go on

  /** Caller `i` makes one call at each of these times. */
  function Acts(i: nat, times: seq<int>): seq<Step> {
    if times == [] then [] else [Act(i, times[0])] + Acts(i, times[1..])
  }

  /** `s` with caller `i` standing at `c`. */
  function Standing(s: State, i: nat, c: Caller): State
    requires i < |s.callers|
  {
    s.(callers := s.callers[i := c])
  }

  lemma OneAct(cfg: Config, s: State, i: nat, times: seq<int>)
    requires times != []
    ensures Run(cfg, s, Acts(i, times)) == Run(cfg, Apply(cfg, s, Act(i, times[0])), Acts(i, times[1..]))
  {
    hide Apply;
    assert Acts(i, times)[1..] == Acts(i, times[1..]);
  }

  lemma {:induction false} EndedStays(cfg: Config, s: State, i: nat, times: seq<int>)
    requires i < |s.callers| && (s.callers[i].Returned? || s.callers[i].Failed?)
    ensures Run(cfg, s, Acts(i, times)) == s
    decreases |times|
  {
    if times != [] {
      OneAct(cfg, s, i, times);
      assert Apply(cfg, s, Act(i, times[0])) == Standing(s, i, s.callers[i]) == s;
      EndedStays(cfg, s, i, times[1..]);
    }
  }

  lemma SettlesAndReturns(cfg: Config, s: State, i: nat, o: Order, times: seq<int>)
    requires i < |s.callers| && s.callers[i] == ReadIssued(o) && |times| >= 2
    ensures Run(cfg, s, Acts(i, times)) == Standing(Did(s, Settlement, i), i, Returned(o))
  {
    var s1, s2 := Standing(s, i, Settle(o)), Standing(Did(s, Settlement, i), i, Returned(o));
    OneAct(cfg, s, i, times);
    OneAct(cfg, s1, i, times[1..]);
    assert Apply(cfg, s, Act(i, times[0])) == s1;
    assert Apply(cfg, s1, Act(i, times[1])) == s2;
    EndedStays(cfg, s2, i, times[1..][1..]);
  }

  lemma {:induction false} IssuesTheRest(cfg: Config, s: State, i: nat, o: Order, k: nat, times: seq<int>, before: seq<(Effect, nat)>)
    requires i < |s.callers| && s.callers[i] == IssueTicket(o, k) && k < cfg.units && |times| >= cfg.units - k + 2
    requires s.work == before + TicketsBy(i, k)
    ensures Run(cfg, s, Acts(i, times))
         == Standing(s.(work := before + TicketsBy(i, cfg.units) + [(Settlement, i)]), i, Returned(o))
    decreases cfg.units - k
  {
    var next := if k + 1 < cfg.units then IssueTicket(o, k + 1) else ReadIssued(o);
    var s1 := Standing(Did(s, Ticket(k), i), i, next);
    OneAct(cfg, s, i, times);
    assert Apply(cfg, s, Act(i, times[0])) == s1;
    assert s1.work == before + TicketsBy(i, k + 1);
    if k + 1 < cfg.units {
      IssuesTheRest(cfg, s1, i, o, k + 1, times[1..], before);
    } else {
      SettlesAndReturns(cfg, s1, i, o, times[1..]);
    }
  }

  /** The state once creator `i` has converted the hold and redeemed the promotion. */
  function Redeemed(cfg: Config, s: State, i: nat, o: Order): State
    requires i < |s.callers|
  {
    Standing(SetHold(s, Converted).(work := s.work + [(Convert, i), (Redeem, i)]), i, if cfg.units == 0 then ReadIssued(o) else IssueTicket(o, 0))
  }

  lemma ConvertsAndRedeems(cfg: Config, s: State, i: nat, o: Order, times: seq<int>)
    requires i < |s.callers| && s.callers[i] == ConvertHold(o) && |times| >= 2
    ensures Run(cfg, s, Acts(i, times)) == Run(cfg, Redeemed(cfg, s, i, o), Acts(i, times[1..][1..]))
  {
    var s1 := Standing(Did(SetHold(s, Converted), Convert, i), i, RedeemPromo(o));
    OneAct(cfg, s, i, times);
    OneAct(cfg, s1, i, times[1..]);
    hide Run, Acts;
    assert Apply(cfg, s, Act(i, times[0])) == s1;
    RedeemsNext(cfg, s, s1, i, o, times[1]);
  }

  /** What a caller has passed through does not matter where it stands. */
  lemma StandingLast(s: State, i: nat, c: Caller, d: Caller, work: seq<(Effect, nat)>)
    requires i < |s.callers|
    ensures Standing(Standing(s, i, c).(work := work), i, d) == Standing(s.(work := work), i, d)
  {
    assert s.callers[i := c][i := d] == s.callers[i := d];
  }

  lemma RedeemsNext(cfg: Config, s: State, s1: State, i: nat, o: Order, now: int)
    requires i < |s.callers| && s1 == Standing(Did(SetHold(s, Converted), Convert, i), i, RedeemPromo(o))
    ensures Apply(cfg, s1, Act(i, now)) == Redeemed(cfg, s, i, o)
  {
    var converted, next := SetHold(s, Converted), if cfg.units == 0 then ReadIssued(o) else IssueTicket(o, 0);
    var work := s.work + [(Convert, i), (Redeem, i)];
    assert s.work + [(Convert, i)] + [(Redeem, i)] == work;
    StandingLast(converted, i, RedeemPromo(o), next, work);
    assert Apply(cfg, s1, Act(i, now)) == Standing(s1.(work := work), i, next);
  }

  lemma AllWorkInParts(cfg: Config, i: nat, before: seq<(Effect, nat)>)
    ensures before + AllWork(cfg, i) == before + [(Convert, i), (Redeem, i)] + TicketsBy(i, cfg.units) + [(Settlement, i)]
    ensures before + [(Convert, i), (Redeem, i)] == before + [(Convert, i), (Redeem, i)] + TicketsBy(i, 0)
  {
    var head, tickets, tail := [(Convert, i), (Redeem, i)], TicketsBy(i, cfg.units), [(Settlement, i)];
    assert AllWork(cfg, i) == head + tickets + tail;
    assert before + (head + tickets + tail) == before + head + tickets + tail;
  }

  /** From its save on the creator of an order does all the work and returns it, whatever the state. */
  lemma CreatorFinishes(cfg: Config, s: State, i: nat, o: Order, times: seq<int>)
    requires i < |s.callers| && s.callers[i] == ConvertHold(o) && |times| >= 4 + cfg.units
    ensures Run(cfg, s, Acts(i, times)) == Standing(SetHold(s, Converted).(work := s.work + AllWork(cfg, i)), i, Returned(o))
  {
    ConvertsAndRedeems(cfg, s, i, o, times);
    AllWorkInParts(cfg, i, s.work);
    hide Run, Acts, AllWork, TicketsBy, SetHold;
    var before, s2, rest := s.work + [(Convert, i), (Redeem, i)], Redeemed(cfg, s, i, o), times[1..][1..];
    StandingLast(SetHold(s, Converted).(work := before), i, s2.callers[i], Returned(o), s.work + AllWork(cfg, i));
    if cfg.units == 0 {
      SettlesAndReturns(cfg, s2, i, o, rest);
    } else {
      IssuesTheRest(cfg, s2, i, o, 0, rest, before);
    }
    hide Standing;
  }

  /** What a lone caller is told, from what is stored and captured; `readAt` is when it reads the hold. */
  function LoneAnswer(cfg: Config, hold: Option<Hold>, readAt: int, paidAt: int): Caller {
    match hold
    case None => Failed(HoldNotFound)
    case Some(h) =>
      if h.status != Active then Failed(HoldNotActive)
      else if readAt > h.expiresAt then Failed(HoldExpired)
      else match cfg.payment
        case None => Failed(PaymentNotFound)
        case Some(p) =>
          if !p.captured then Failed(NotCaptured)
          else if p.amount != h.total then Failed(AmountMismatch)
          else Returned(Order(0, h.total, paidAt))
  }

  /**
   A lone caller, with either store: a payment captured for the total of a hold that is active and
   not past its expiry when it is read becomes an order of that total, with all its work done and the
   hold converted; a hold past its expiry is released; anything else changes nothing. And the caller
   is told which.
   */
  lemma LoneCallerIsAnswered(cfg: Config, s: State, times: seq<int>)
    requires Initial(s) && |times| >= 8 + cfg.units
    ensures var s' := Run(cfg, s, [Call] + Acts(0, times));
      var answer := LoneAnswer(cfg, s.hold, times[1], times[2]);
      && s'.callers == [answer]
      && (answer.Returned? ==>
            && s'.order == Some(answer.result) && s'.work == AllWork(cfg, 0)
            && s'.hold == Some(s.hold.value.(status := Converted, converted := true)))
      && (answer.Failed? ==>
            && s'.order == None && s'.work == []
            && s'.hold == if answer.error == HoldExpired then Some(s.hold.value.(status := Released)) else s.hold)
  {
    var s0 := s.(callers := [LookUpOrder]);
    var rest := times[1..][1..];
    assert ([Call] + Acts(0, times))[1..] == Acts(0, times);
    assert Apply(cfg, s, Call) == s0;
    assert Run(cfg, s, [Call] + Acts(0, times)) == Run(cfg, s0, Acts(0, times));
    OneAct(cfg, s0, 0, times);
    var s1 := Standing(s0, 0, LookUpHold);
    assert Apply(cfg, s0, Act(0, times[0])) == s1;
    OneAct(cfg, s1, 0, times[1..]);
    if s.hold.Some? && s.hold.value.status == Active {
      if times[1] <= s.hold.value.expiresAt {
        LiveHoldIsAnswered(cfg, s0, rest);
        assert Apply(cfg, s1, Act(0, times[1])) == Standing(s0, 0, AskProvider(s.hold.value));
      } else {
        ExpiredHoldIsReleased(cfg, s0, rest);
        assert Apply(cfg, s1, Act(0, times[1])) == Standing(s0, 0, ReleaseHold);
      }
    } else {
      var told := Failed(if s.hold.None? then HoldNotFound else HoldNotActive);
      assert Apply(cfg, s1, Act(0, times[1])) == Standing(s0, 0, told);
      EndedStays(cfg, Standing(s0, 0, told), 0, rest);
    }
  }

  lemma ExpiredHoldIsReleased(cfg: Config, s: State, times: seq<int>)
    requires |s.callers| == 1 && s.hold.Some? && s.hold.value.status == Active && !s.hold.value.converted && times != []
    ensures Run(cfg, Standing(s, 0, ReleaseHold), Acts(0, times))
         == Standing(s.(hold := Some(s.hold.value.(status := Released))), 0, Failed(HoldExpired))
  {
    var s1 := Standing(s, 0, ReleaseHold);
    var s2 := Standing(s.(hold := Some(s.hold.value.(status := Released))), 0, Failed(HoldExpired));
    OneAct(cfg, s1, 0, times);
    assert Apply(cfg, s1, Act(0, times[0])) == s2;
    EndedStays(cfg, s2, 0, times[1..]);
  }

  lemma LiveHoldIsAnswered(cfg: Config, s: State, times: seq<int>)
    requires |s.callers| == 1 && s.order == None && s.work == [] && |times| >= 6 + cfg.units
    requires s.hold.Some? && s.hold.value.status == Active
    ensures var h := s.hold.value;
      var answer := LoneAnswer(cfg, s.hold, h.expiresAt, times[0]);
      var s' := Run(cfg, Standing(s, 0, AskProvider(h)), Acts(0, times));
      if answer.Returned? then
        s' == State(Some(h.(status := Converted, converted := true)), Some(answer.result), AllWork(cfg, 0), [answer])
      else s' == Standing(s, 0, answer)
  {
    var h := s.hold.value;
    var answer := LoneAnswer(cfg, s.hold, h.expiresAt, times[0]);
    var s1 := Standing(s, 0, AskProvider(h));
    OneAct(cfg, s1, 0, times);
    if answer.Returned? {
      var o := answer.result;
      var s2 := Standing(s, 0, SaveOrder(o));
      var s3 := Standing(s.(order := Some(o)), 0, ConvertHold(o));
      OneAct(cfg, s2, 0, times[1..]);
      assert Apply(cfg, s1, Act(0, times[0])) == s2;
      assert Apply(cfg, s2, Act(0, times[1])) == s3;
      CreatorFinishes(cfg, s3, 0, o, times[1..][1..]);
      assert [] + AllWork(cfg, 0) == AllWork(cfg, 0);
    } else {
      assert Apply(cfg, s1, Act(0, times[0])) == Standing(s, 0, answer);
      EndedStays(cfg, Standing(s, 0, answer), 0, times[1..]);
    }
  }

  /** A caller that will find the order: it looks it up, or it is about to lose a checked save. */
  predicate WillFind(cfg: Config, s: State, c: Caller) {
    c.LookUpOrder? || c.LookUpWinner? || c.LookUpConverted? || (c.SaveOrder? && cfg.checkedCreate)
    || (c.LookUpHold? && s.hold.Some? && s.hold.value.status == Converted && s.hold.value.converted)
  }

  /** Once there is an order, such a caller returns it and changes nothing else. */
  lemma LateCallerReturnsIt(cfg: Config, s: State, i: nat, times: seq<int>)
    requires s.order.Some? && i < |s.callers| && WillFind(cfg, s, s.callers[i]) && |times| >= 3
    ensures Run(cfg, s, Acts(i, times)) == Standing(s, i, Returned(s.order.value))
  {
    var c, o := s.callers[i], s.order.value;
    OneAct(cfg, s, i, times);
    if c.SaveOrder? || c.LookUpHold? {
      var s1 := Standing(s, i, if c.SaveOrder? then LookUpWinner else LookUpConverted);
      assert Apply(cfg, s, Act(i, times[0])) == s1;
      ReadsAndReturns(cfg, s1, i, times[1..]);
      assert Standing(s1, i, Returned(o)) == Standing(s, i, Returned(o));
    } else {
      ReadsAndReturns(cfg, s, i, times);
    }
  }

  lemma ReadsAndReturns(cfg: Config, s: State, i: nat, times: seq<int>)
    requires s.order.Some? && i < |s.callers| && |times| >= 2
    requires s.callers[i].LookUpOrder? || s.callers[i].LookUpWinner? || s.callers[i].LookUpConverted?
    ensures Run(cfg, s, Acts(i, times)) == Standing(s, i, Returned(s.order.value))
  {
    var o := s.order.value;
    var s1, s2 := Standing(s, i, ReadEntitlements(o)), Standing(s, i, Returned(o));
    OneAct(cfg, s, i, times);
    OneAct(cfg, s1, i, times[1..]);
    assert Apply(cfg, s, Act(i, times[0])) == s1;
    assert Apply(cfg, s1, Act(i, times[1])) == s2;
    EndedStays(cfg, s2, i, times[1..][1..]);
  }

  /** The sweep releases an active hold that has reached its expiry, and touches nothing else. */
  lemma SweepReleasesIff(cfg: Config, s: State, now: int)
    ensures Apply(cfg, s, SweepExpired(now))
         == if s.hold.Some? && s.hold.value.status == Active && s.hold.value.expiresAt <= now
            then s.(hold := Some(s.hold.value.(status := Released))) else s
  {}
}
