/**
 Selling a ticket at the door: a retry of the same sale races the original over one order,
 which is saved three times before any ticket is issued. Every awaited call is one step.
 */
module DoorOrders {

  /** `checkedCreate`: whether the order store refuses a first version under an id it already holds. */
  datatype Config = Config(quantity: nat, checkedCreate: bool)

  /** The order is stored under an id derived from the sale's key; `seller` is the call that wrote its first version. */
  datatype Stored = NoOrder | Stored(version: nat, seller: nat)

  datatype Caller =
    | LookUp
    | SaveVersion(version: nat)
    | IssueTickets
    | ClaimSeat(next: nat)
    | Settle
    | Sold
    | ReadTickets(seen: nat)
    | Replayed(seen: nat, tickets: bool)
    | Conflict

  /** A claim is recorded whether or not the ticket lets its guest in; the sale goes on after a refusal. */
  datatype Effect = Issue | Claim(index: nat) | Settlement

  datatype State = State(order: Stored, work: seq<(Effect, nat)>, callers: seq<Caller>)

  datatype Step = Call | Act(caller: nat)

  const PAID: nat := 3

  function VersionOf(o: Stored): nat { if o.Stored? then o.version else 0 }

  /** A write of version N must find N-1; a store that does not check creates lets version 1 through. */
  predicate Accepts(cfg: Config, o: Stored, version: nat) {
    VersionOf(o) + 1 == version || (version == 1 && !cfg.checkedCreate)
  }

  predicate Issued(work: seq<(Effect, nat)>) { exists p :: 0 <= p < |work| && work[p].0 == Issue }

  function Saved(s: State, i: nat, version: nat): State {
    s.(order := Stored(version, if version == 1 || s.order.NoOrder? then i else s.order.seller))
  }

  /** One awaited call of caller `i`: the state it leaves, and where the caller goes next. */
  function Perform(cfg: Config, s: State, i: nat): (State, Caller)
    requires i < |s.callers|
  {
    match s.callers[i]
    case LookUp => (s, if s.order.NoOrder? then SaveVersion(1) else ReadTickets(s.order.version))
    case ReadTickets(v) => (s, Replayed(v, Issued(s.work)))
    case SaveVersion(v) =>
      if Accepts(cfg, s.order, v) then (Saved(s, i, v), if v < PAID then SaveVersion(v + 1) else IssueTickets) else (s, Conflict)
    case IssueTickets => (s.(work := s.work + [(Issue, i)]), if cfg.quantity == 0 then Settle else ClaimSeat(0))
    case ClaimSeat(k) => (s.(work := s.work + [(Claim(k), i)]), if k + 1 < cfg.quantity then ClaimSeat(k + 1) else Settle)
    case Settle => (s.(work := s.work + [(Settlement, i)]), Sold)
    case done => (s, done)
  }

  function Apply(cfg: Config, s: State, step: Step): State {
    match step
    case Call => s.(callers := s.callers + [LookUp])
    case Act(i) =>
      if i < |s.callers| then
        var (s', c) := Perform(cfg, s, i);
        s'.(callers := s.callers[i := c])
      else s
  }

  function Run(cfg: Config, steps: seq<Step>): State
    decreases |steps|
  {
    if steps == [] then State(NoOrder, [], []) else Apply(cfg, Run(cfg, steps[..|steps| - 1]), steps[|steps| - 1])
  }

  // ----- one sale, made once

  predicate Selling(c: Caller) { (c.SaveVersion? && c.version > 1) || c.IssueTickets? || c.ClaimSeat? || c.Settle? || c.Sold? }

  function Claims(i: nat, n: nat): seq<(Effect, nat)> {
    if n == 0 then [] else Claims(i, n - 1) + [(Claim(n - 1), i)]
  }

  /** How far the sale has got when its seller `i` stands at `c`. */
  function WorkDone(cfg: Config, i: nat, c: Caller): seq<(Effect, nat)> {
    match c
    case ClaimSeat(k) => [(Issue, i)] + Claims(i, k)
    case Settle => [(Issue, i)] + Claims(i, cfg.quantity)
    case Sold => [(Issue, i)] + Claims(i, cfg.quantity) + [(Settlement, i)]
    case _ => []
  }

  /** The version the order has while its seller stands at `c`. */
  predicate Matches(c: Caller, version: nat) {
    match c
    case SaveVersion(v) => version + 1 == v && 1 < v <= PAID
    case IssueTickets => version == PAID
    case ClaimSeat(_) => version == PAID
    case Settle => version == PAID
    case Sold => version == PAID
    case _ => false
  }

  ghost predicate CallersFit(cfg: Config, s: State) {
    && (forall i | 0 <= i < |s.callers| && Selling(s.callers[i]) :: s.order.Stored? && s.order.seller == i)
    && (forall i | 0 <= i < |s.callers| && s.callers[i].SaveVersion? :: s.callers[i].version >= 1)
    && (forall i | 0 <= i < |s.callers| && s.callers[i].ClaimSeat? :: s.callers[i].next < cfg.quantity)
  }

  ghost predicate SellerFits(cfg: Config, s: State) {
    match s.order
    case NoOrder => s.work == []
    case Stored(version, seller) =>
      seller < |s.callers| && Matches(s.callers[seller], version) && s.work == WorkDone(cfg, seller, s.callers[seller])
  }

  ghost predicate OneSeller(cfg: Config, s: State) { CallersFit(cfg, s) && SellerFits(cfg, s) }

  lemma StepKeepsCallers(cfg: Config, s: State, step: Step)
    requires cfg.checkedCreate && OneSeller(cfg, s)
    ensures CallersFit(cfg, Apply(cfg, s, step))
  {
    var s' := Apply(cfg, s, step);
    if step.Act? && step.caller < |s.callers| {
      forall j | 0 <= j < |s.callers| && j != step.caller ensures s'.callers[j] == s.callers[j] {}
    }
    hide WorkDone, Claims;
  }

  lemma StepKeepsSeller(cfg: Config, s: State, step: Step)
    requires cfg.checkedCreate && OneSeller(cfg, s)
    ensures SellerFits(cfg, Apply(cfg, s, step))
  {}

  lemma StepKeepsOneSeller(cfg: Config, s: State, step: Step)
    requires cfg.checkedCreate && OneSeller(cfg, s)
    ensures OneSeller(cfg, Apply(cfg, s, step))
  {
    StepKeepsCallers(cfg, s, step);
    StepKeepsSeller(cfg, s, step);
    hide CallersFit, SellerFits, Apply;
  }

  lemma {:induction false} RunKeepsOneSeller(cfg: Config, steps: seq<Step>)
    requires cfg.checkedCreate
    ensures OneSeller(cfg, Run(cfg, steps))
    decreases |steps|
  {
    if steps != [] {
      RunKeepsOneSeller(cfg, steps[..|steps| - 1]);
      StepKeepsOneSeller(cfg, Run(cfg, steps[..|steps| - 1]), steps[|steps| - 1]);
    }
  }

  ghost predicate NeverTwice(work: seq<(Effect, nat)>) { forall p, q :: 0 <= p < q < |work| ==> work[p].0 != work[q].0 }

  lemma {:induction false} ClaimsAt(i: nat, n: nat)
    ensures |Claims(i, n)| == n && forall k :: 0 <= k < n ==> Claims(i, n)[k] == (Claim(k), i)
  {
    if n > 0 { ClaimsAt(i, n - 1); }
  }

  lemma WorkDoneOnce(cfg: Config, i: nat, c: Caller)
    ensures NeverTwice(WorkDone(cfg, i, c)) && forall p :: 0 <= p < |WorkDone(cfg, i, c)| ==> WorkDone(cfg, i, c)[p].1 == i
  {
    ClaimsAt(i, cfg.quantity);
    if c.ClaimSeat? { ClaimsAt(i, c.next); }
  }

  /**
   Whatever retries race each other over a store that checks creates: tickets are issued, each one
   is claimed and the sale is settled at most once, all by the call that wrote the order first; a
   call that reports a sale did all of it; and only one call ever does.
   */
  lemma SoldOnce(cfg: Config, steps: seq<Step>)
    requires cfg.checkedCreate
    ensures var s := Run(cfg, steps);
      && NeverTwice(s.work)
      && (forall p | 0 <= p < |s.work| :: s.order.Stored? && s.order.version == PAID && s.work[p].1 == s.order.seller)
      && (forall i | 0 <= i < |s.callers| && s.callers[i].Sold? ::
            s.order == Stored(PAID, i) && s.work == [(Issue, i)] + Claims(i, cfg.quantity) + [(Settlement, i)])
  {
    var s := Run(cfg, steps);
    RunKeepsOneSeller(cfg, steps);
    if s.order.Stored? { WorkDoneOnce(cfg, s.order.seller, s.callers[s.order.seller]); }
  }

  // ----- exactly when that is so

  lemma RunSnoc(cfg: Config, steps: seq<Step>, step: Step)
    ensures Run(cfg, steps + [step]) == Apply(cfg, Run(cfg, steps), step)
  {
    assert (steps + [step])[..|steps|] == steps;
  }

  /** Caller `i` goes from its first save to the issue of tickets, nobody else moving. */
  lemma SavesAndIssues(cfg: Config, steps: seq<Step>, i: nat) returns (more: seq<Step>)
    requires var r := Run(cfg, steps); i < |r.callers| && r.callers[i] == SaveVersion(1) && Accepts(cfg, r.order, 1)
    ensures var r, r' := Run(cfg, steps), Run(cfg, more);
      |r'.callers| == |r.callers| && (forall j | 0 <= j < |r.callers| && j != i :: r'.callers[j] == r.callers[j])
      && r'.work == r.work + [(Issue, i)] && r'.order == Stored(PAID, i)
  {
    var act := Act(i);
    var s1, s2, s3 := steps + [act], steps + [act] + [act], steps + [act] + [act] + [act];
    RunSnoc(cfg, steps, act);
    RunSnoc(cfg, s1, act);
    RunSnoc(cfg, s2, act);
    RunSnoc(cfg, s3, act);
    assert Run(cfg, s1).callers[i] == SaveVersion(2) && Run(cfg, s1).order == Stored(1, i);
    assert Run(cfg, s2).callers[i] == SaveVersion(3) && Run(cfg, s2).order == Stored(2, i);
    assert Run(cfg, s3).callers[i] == IssueTickets;
    more := s3 + [act];
  }

  /** When creates are not checked, a retry that looked before the first save sells everything a second time. */
  lemma UncheckedSellsTwice(cfg: Config) returns (steps: seq<Step>)
    requires !cfg.checkedCreate
    ensures !NeverTwice(Run(cfg, steps).work)
  {
    RunSnoc(cfg, [], Call);
    RunSnoc(cfg, [] + [Call], Call);
    var both := [] + [Call] + [Call];
    RunSnoc(cfg, both, Act(0));
    RunSnoc(cfg, both + [Act(0)], Act(1));
    steps := both + [Act(0)] + [Act(1)];
    assert Run(cfg, steps).callers == [SaveVersion(1), SaveVersion(1)];
    steps := SavesAndIssues(cfg, steps, 0);
    steps := SavesAndIssues(cfg, steps, 1);
    assert Run(cfg, steps).work == [(Issue, 0), (Issue, 1)];
    assert Run(cfg, steps).work[0].0 == Run(cfg, steps).work[1].0;
  }

  lemma SoldOnceIffCreatesAreChecked(cfg: Config)
    ensures (forall steps :: NeverTwice(Run(cfg, steps).work)) <==> cfg.checkedCreate
  {
    if cfg.checkedCreate {
      forall steps ensures NeverTwice(Run(cfg, steps).work) { SoldOnce(cfg, steps); }
    } else {
      var steps := UncheckedSellsTwice(cfg);
    }
  }

  /** A replay reports whatever order it finds: one that never got past its first save, if that call stopped there. */
  lemma ReplayMayFindUnpaidOrder(cfg: Config) returns (steps: seq<Step>)
    ensures var s := Run(cfg, steps); |s.callers| == 2 && s.callers[1] == Replayed(1, false) && s.work == []
  {
    RunSnoc(cfg, [], Call);
    RunSnoc(cfg, [] + [Call], Act(0));
    RunSnoc(cfg, [] + [Call] + [Act(0)], Act(0));
    var stopped := [] + [Call] + [Act(0)] + [Act(0)];
    assert Run(cfg, [] + [Call]).callers == [LookUp];
    assert Run(cfg, [] + [Call] + [Act(0)]).callers == [SaveVersion(1)];
    assert Run(cfg, stopped) == State(Stored(1, 0), [], [SaveVersion(2)]);
    RunSnoc(cfg, stopped, Call);
    RunSnoc(cfg, stopped + [Call], Act(1));
    RunSnoc(cfg, stopped + [Call] + [Act(1)], Act(1));
    steps := stopped + [Call] + [Act(1)] + [Act(1)];
    assert Run(cfg, stopped + [Call]).callers == [SaveVersion(2), LookUp];
    assert Run(cfg, stopped + [Call] + [Act(1)]).callers == [SaveVersion(2), ReadTickets(1)];
  }

  // ----- what a retry finds

  /** How far a sale has got, by where its seller stands. */
  predicate PastSaves(c: Caller) { c.IssueTickets? || PastIssue(c) }

  predicate PastIssue(c: Caller) { c.ClaimSeat? || PastClaims(c) }

  predicate PastClaims(c: Caller) { c.Settle? || c.Sold? }

  ghost predicate SellerAt(s: State, at: Caller -> bool) {
    s.order.Stored? && s.order.seller < |s.callers| && at(s.callers[s.order.seller])
  }

  /** The sale has claimed a seat on each of its tickets. */
  ghost predicate AllClaimed(cfg: Config, s: State) {
    Issued(s.work) && forall k :: 0 <= k < cfg.quantity ==> exists p :: 0 <= p < |s.work| && s.work[p].0 == Claim(k)
  }

  lemma WorkOfSeller(cfg: Config, s: State)
    requires OneSeller(cfg, s)
    ensures Issued(s.work) <==> SellerAt(s, PastIssue)
    ensures AllClaimed(cfg, s) <==> SellerAt(s, PastClaims)
  {
    if s.order.Stored? {
      var i := s.order.seller;
      var c := s.callers[i];
      ClaimsAt(i, cfg.quantity);
      if c.ClaimSeat? {
        ClaimsAt(i, c.next);
        assert s.work[0].0 == Issue;
        assert forall p :: 0 <= p < |s.work| ==> s.work[p].0 != Claim(c.next);
      }
      if c.Settle? || c.Sold? {
        assert s.work[0].0 == Issue;
        forall k | 0 <= k < cfg.quantity ensures s.work[1 + k].0 == Claim(k) { assert Claims(i, cfg.quantity)[k] == (Claim(k), i); }
      }
    }
  }

  /**
   In every run over a store that checks creates, a retry that looks now finds an order exactly when
   one was written, and finds it paid exactly when its seller is past the last save; one that reads
   the tickets now finds them exactly when the seller is past their issue; and by then each of them
   has been claimed exactly when the seller is past the last claim.
   */
  lemma ReplayFindsIff(cfg: Config, steps: seq<Step>, i: nat)
    requires cfg.checkedCreate && i < |Run(cfg, steps).callers|
    ensures var s, after := Run(cfg, steps), Run(cfg, steps + [Act(i)]);
      && (s.callers[i].LookUp? || s.callers[i].ReadTickets? ==> after.order == s.order && after.work == s.work)
      && (s.callers[i].LookUp? ==>
            && (after.callers[i].ReadTickets? <==> s.order.Stored?)
            && (after.callers[i] == ReadTickets(PAID) <==> SellerAt(s, PastSaves)))
      && (s.callers[i].ReadTickets? ==>
            (after.callers[i] == Replayed(s.callers[i].seen, true) <==> SellerAt(s, PastIssue)))
      && (AllClaimed(cfg, s) <==> SellerAt(s, PastClaims))
  {
    RunKeepsOneSeller(cfg, steps);
    RunSnoc(cfg, steps, Act(i));
    WorkOfSeller(cfg, Run(cfg, steps));
    hide OneSeller, Run, NeverTwice, WorkDone, Issued, AllClaimed;
  }

  /** The sale is complete, and every call made since call `first` has found it so or is about to look. */
  ghost predicate Complete(cfg: Config, s: State, seller: nat, first: nat) {
    && seller < |s.callers| && s.callers[seller] == Sold && s.order == Stored(PAID, seller)
    && s.work == WorkDone(cfg, seller, Sold)
    && forall j :: first <= j < |s.callers| ==> s.callers[j] in {LookUp, ReadTickets(PAID), Replayed(PAID, true)}
  }

  lemma StepKeepsComplete(cfg: Config, s: State, step: Step, seller: nat, first: nat)
    requires cfg.checkedCreate && OneSeller(cfg, s) && Complete(cfg, s, seller, first) && seller < first <= |s.callers|
    ensures Complete(cfg, Apply(cfg, s, step), seller, first)
  {
    WorkOfSeller(cfg, s);
    if step.Act? && step.caller < |s.callers| { assert !Selling(s.callers[step.caller]) || step.caller == seller; }
  }

  lemma {:induction false} RunKeepsComplete(cfg: Config, steps: seq<Step>, more: seq<Step>, seller: nat, first: nat)
    requires cfg.checkedCreate && seller < first <= |Run(cfg, steps).callers| && Complete(cfg, Run(cfg, steps), seller, first)
    ensures first <= |Run(cfg, steps + more).callers| && Complete(cfg, Run(cfg, steps + more), seller, first)
    decreases |more|
  {
    hide OneSeller, Complete, Run;
    if more == [] {
      assert steps + more == steps;
    } else {
      var before, last := more[..|more| - 1], more[|more| - 1];
      assert steps + more == steps + before + [last];
      RunKeepsComplete(cfg, steps, before, seller, first);
      RunSnoc(cfg, steps + before, last);
      RunKeepsOneSeller(cfg, steps + before);
      StepKeepsComplete(cfg, Run(cfg, steps + before), last, seller, first);
    }
  }

  /** Once a call has returned the sale, every retry made afterwards finds the paid order and its tickets, all of them claimed. */
  lemma {:induction false} RetryAfterSaleFindsIt(cfg: Config, steps: seq<Step>, more: seq<Step>, seller: nat)
    requires cfg.checkedCreate && seller < |Run(cfg, steps).callers| && Run(cfg, steps).callers[seller] == Sold
    ensures var first, s := |Run(cfg, steps).callers|, Run(cfg, steps + more);
      && first <= |s.callers| && AllClaimed(cfg, s)
      && forall j :: first <= j < |s.callers| ==> s.callers[j] in {LookUp, ReadTickets(PAID), Replayed(PAID, true)}
  {
    RunKeepsOneSeller(cfg, steps);
    RunKeepsComplete(cfg, steps, more, seller, |Run(cfg, steps).callers|);
    RunKeepsOneSeller(cfg, steps + more);
    WorkOfSeller(cfg, Run(cfg, steps + more));
  }

  // ----- a sale that is left to go on

  function Acts(i: nat, n: nat): seq<Step> { if n == 0 then [] else [Act(i)] + Acts(i, n - 1) }

  /** `n` more steps of call `i`. */
  function Goes(cfg: Config, s: State, i: nat, n: nat): State
    decreases n
  {
    if n == 0 then s else Goes(cfg, Apply(cfg, s, Act(i)), i, n - 1)
  }

  lemma {:induction false} RunGoes(cfg: Config, steps: seq<Step>, i: nat, n: nat)
    ensures Run(cfg, steps + Acts(i, n)) == Goes(cfg, Run(cfg, steps), i, n)
    decreases n
  {
    hide Apply, Run;
    if n == 0 {
      assert steps + [] == steps;
    } else {
      assert steps + Acts(i, n) == steps + [Act(i)] + Acts(i, n - 1);
      RunSnoc(cfg, steps, Act(i));
      RunGoes(cfg, steps + [Act(i)], i, n - 1);
    }
  }

  function Standing(s: State, i: nat, c: Caller): State
    requires i < |s.callers|
  {
    s.(callers := s.callers[i := c])
  }

  lemma SettlesAndSells(cfg: Config, s: State, i: nat)
    requires i < |s.callers| && s.callers[i] == Settle
    ensures Goes(cfg, s, i, 1) == Standing(s.(work := s.work + [(Settlement, i)]), i, Sold)
  {}

  lemma {:induction false} ClaimsTheRest(cfg: Config, s: State, i: nat, k: nat)
    requires i < |s.callers| && s.callers[i] == ClaimSeat(k) && k < cfg.quantity && s.work == [(Issue, i)] + Claims(i, k)
    ensures Goes(cfg, s, i, cfg.quantity - k + 1)
         == Standing(s.(work := [(Issue, i)] + Claims(i, cfg.quantity) + [(Settlement, i)]), i, Sold)
    decreases cfg.quantity - k
  {
    var next := if k + 1 < cfg.quantity then ClaimSeat(k + 1) else Settle;
    var s1 := Standing(s.(work := [(Issue, i)] + Claims(i, k + 1)), i, next);
    assert s.work + [(Claim(k), i)] == [(Issue, i)] + Claims(i, k + 1);
    assert Apply(cfg, s, Act(i)) == s1;
    if k + 1 < cfg.quantity {
      ClaimsTheRest(cfg, s1, i, k + 1);
    } else {
      SettlesAndSells(cfg, s1, i);
    }
  }

  lemma IssuesClaimsAndSettles(cfg: Config, s: State, i: nat)
    requires i < |s.callers| && s.callers[i] == IssueTickets && s.work == []
    ensures Goes(cfg, s, i, cfg.quantity + 2)
         == Standing(s.(work := [(Issue, i)] + Claims(i, cfg.quantity) + [(Settlement, i)]), i, Sold)
  {
    var s1 := Standing(s.(work := [(Issue, i)]), i, if cfg.quantity == 0 then Settle else ClaimSeat(0));
    assert Apply(cfg, s, Act(i)) == s1;
    assert [(Issue, i)] + Claims(i, 0) == [(Issue, i)];
    if cfg.quantity == 0 { SettlesAndSells(cfg, s1, i); } else { ClaimsTheRest(cfg, s1, i, 0); }
  }

  /** A sale that nobody races is completed, with either store: paid, its tickets issued, each claimed, and settled. */
  lemma LoneSaleCompletes(cfg: Config)
    ensures Run(cfg, [Call] + Acts(0, cfg.quantity + 6))
         == State(Stored(PAID, 0), [(Issue, 0)] + Claims(0, cfg.quantity) + [(Settlement, 0)], [Sold])
  {
    var s := State(NoOrder, [], [LookUp]);
    OneCall(cfg);
    RunGoes(cfg, [Call], 0, cfg.quantity + 6);
    hide Run, Goes, Claims;
    var s1 := State(NoOrder, [], [SaveVersion(1)]);
    var s2 := State(Stored(1, 0), [], [SaveVersion(2)]);
    var s3 := State(Stored(2, 0), [], [SaveVersion(3)]);
    var s4 := State(Stored(PAID, 0), [], [IssueTickets]);
    assert Apply(cfg, s, Act(0)) == s1;
    assert Apply(cfg, s1, Act(0)) == s2;
    assert Apply(cfg, s2, Act(0)) == s3;
    assert Apply(cfg, s3, Act(0)) == s4;
    FourGoes(cfg, s, s1, s2, s3, s4, cfg.quantity + 2);
    IssuesClaimsAndSettles(cfg, s4, 0);
  }

  lemma OneCall(cfg: Config)
    ensures Run(cfg, [Call]) == State(NoOrder, [], [LookUp])
  {
    assert [Call][..0] == [];
  }

  lemma FourGoes(cfg: Config, s: State, s1: State, s2: State, s3: State, s4: State, n: nat)
    requires Apply(cfg, s, Act(0)) == s1 && Apply(cfg, s1, Act(0)) == s2 && Apply(cfg, s2, Act(0)) == s3 && Apply(cfg, s3, Act(0)) == s4
    ensures Goes(cfg, s, 0, n + 4) == Goes(cfg, s4, 0, n)
  {
    hide Apply;
    assert Goes(cfg, s, 0, n + 4) == Goes(cfg, s1, 0, n + 3);
    assert Goes(cfg, s1, 0, n + 3) == Goes(cfg, s2, 0, n + 2);
    assert Goes(cfg, s2, 0, n + 2) == Goes(cfg, s3, 0, n + 1);
  }

  /** A call that finds the next version already written stops there; the order, its tickets and claims stay as they are. */
  lemma LostSaveStops(cfg: Config, s: State, i: nat)
    requires cfg.checkedCreate && i < |s.callers| && s.callers[i].SaveVersion? && VersionOf(s.order) + 1 != s.callers[i].version
    ensures Apply(cfg, s, Act(i)) == Standing(s, i, Conflict) == Apply(cfg, Standing(s, i, Conflict), Act(i))
  {}
}
