/**
 Cart holds, the paid orders they turn into, and the per-user cap of a ticket tier, which
 counts both. Calls are serial here; the race of two confirmations is the subject of checkout.dfy.
 */
module Holds {
  import opened Common

  datatype Line = Line(tier: Id, quantity: nat)

  /** A converted hold names the order it became, by its place. */
  datatype HoldStatus = Active | Converted(order: nat) | Released

  datatype Hold = Hold(key: string, event: Id, user: Id, lines: seq<Line>, status: HoldStatus, expiresAt: int)

  datatype Order = Order(payment: Id, event: Id, user: Id, lines: seq<Line>, paid: bool)

  /** A hold is known by its place in the order of creation. */
  datatype Cart = Cart(holds: seq<Hold>, orders: seq<Order>)

  /** Whose tickets of which tier are counted. */
  datatype Share = Share(user: Id, event: Id, tier: Id)

  /** `maxPerUser` of the tiers that have one; zero means no cap. */
  type Caps = map<Id, nat>

  predicate Capped(caps: Caps, tier: Id) { tier in caps && caps[tier] != 0 }

  function Quantity(lines: seq<Line>, tier: Id): nat {
    if lines == [] then 0
    else Quantity(lines[..|lines| - 1], tier) + if lines[|lines| - 1].tier == tier then lines[|lines| - 1].quantity else 0
  }

  /** What one hold contributes: nothing once it is converted, released, or at its expiry. */
  function HeldBy(h: Hold, s: Share, now: int): nat {
    if h.event == s.event && h.user == s.user && h.status == Active && h.expiresAt > now then Quantity(h.lines, s.tier) else 0
  }

  function Held(holds: seq<Hold>, s: Share, now: int): nat {
    if holds == [] then 0 else Held(holds[..|holds| - 1], s, now) + HeldBy(holds[|holds| - 1], s, now)
  }

  function PaidBy(o: Order, s: Share): nat {
    if o.event == s.event && o.user == s.user && o.paid then Quantity(o.lines, s.tier) else 0
  }

  function Paid(orders: seq<Order>, s: Share): nat {
    if orders == [] then 0 else Paid(orders[..|orders| - 1], s) + PaidBy(orders[|orders| - 1], s)
  }

  /** The check made for one line of a new hold; every line is checked by itself. */
  predicate Exceeds(c: Cart, caps: Caps, event: Id, user: Id, line: Line, now: int) {
    var s := Share(user, event, line.tier);
    Capped(caps, line.tier) && Held(c.holds, s, now) + Paid(c.orders, s) + line.quantity > caps[line.tier]
  }

  predicate Refused(c: Cart, caps: Caps, event: Id, user: Id, lines: seq<Line>, now: int) {
    exists i :: 0 <= i < |lines| && Exceeds(c, caps, event, user, lines[i], now)
  }

  predicate KeyTaken(holds: seq<Hold>, key: string) { exists i :: 0 <= i < |holds| && holds[i].key == key }

  function AfterHold(c: Cart, caps: Caps, key: string, event: Id, user: Id, lines: seq<Line>, ttl: int, now: int): Cart {
    if KeyTaken(c.holds, key) || Refused(c, caps, event, user, lines, now) then c
    else c.(holds := c.holds + [Hold(key, event, user, lines, Active, now + ttl)])
  }

  function WithStatus(holds: seq<Hold>, i: nat, status: HoldStatus): seq<Hold>
    requires i < |holds|
  {
    holds[i := holds[i].(status := status)]
  }

  predicate PaymentUsed(orders: seq<Order>, payment: Id) { exists i :: 0 <= i < |orders| && orders[i].payment == payment }

  /** Whether a hold is too old to be confirmed; the code still accepts it in the millisecond it expires. */
  predicate TooLate(h: Hold, now: int, strict: bool) { if strict then now >= h.expiresAt else now > h.expiresAt }

  function OrderFor(h: Hold, payment: Id): Order { Order(payment, h.event, h.user, h.lines, true) }

  function AfterConfirm(c: Cart, i: nat, payment: Id, captured: bool, now: int, strict: bool): Cart {
    if PaymentUsed(c.orders, payment) || i >= |c.holds| || c.holds[i].status != Active then c
    else if TooLate(c.holds[i], now, strict) then c.(holds := WithStatus(c.holds, i, Released))
    else if !captured then c
    else Cart(WithStatus(c.holds, i, Converted(|c.orders|)), c.orders + [OrderFor(c.holds[i], payment)])
  }

  /** What a confirmation under a new payment answers: a converted hold converges on its order. */
  function ConfirmReply(c: Cart, i: nat, payment: Id, captured: bool, now: int): Result<Order, HoldError> {
    if i >= |c.holds| then Failure(NoSuchHold)
    else
      var h := c.holds[i];
      if h.status.Converted? && h.status.order < |c.orders| then Success(c.orders[h.status.order])
      else if h.status != Active then Failure(NotActive)
      else if TooLate(h, now, false) then Failure(HoldExpired)
      else if !captured then Failure(NotCaptured)
      else Success(OrderFor(h, payment))
  }

  /**
   On the fields: an order is added exactly for a captured payment under no order yet, of a hold that
   is active and not past its expiry (with a strict check, not at it either); an active hold that is
   too late is released; and nothing else changes anything.
   */
  lemma ConfirmIff(c: Cart, i: nat, payment: Id, captured: bool, now: int, strict: bool)
    ensures var c' := AfterConfirm(c, i, payment, captured, now, strict);
      var open := (forall k :: 0 <= k < |c.orders| ==> c.orders[k].payment != payment) && i < |c.holds| && c.holds[i].status == Active;
      if open && (now < c.holds[i].expiresAt || (now == c.holds[i].expiresAt && !strict)) && captured then
        var h := c.holds[i];
        && c'.orders == c.orders + [Order(payment, h.event, h.user, h.lines, true)]
        && c'.holds == c.holds[i := h.(status := Converted(|c.orders|))]
      else if open && (now > c.holds[i].expiresAt || (now == c.holds[i].expiresAt && strict)) then
        c' == c.(holds := c.holds[i := c.holds[i].(status := Released)])
      else c' == c
  {}

  datatype HoldError = CapReached | NoSuchHold | NotActive | HoldExpired | NotCaptured

  class CheckoutService {
    const caps: Caps
    var holds: seq<Hold>
    var orders: seq<Order>

    ghost function View(): Cart
      reads this
    {
      Cart(holds, orders)
    }

    constructor (caps: Caps)
      ensures View() == Cart([], []) && this.caps == caps
    {
      this.caps, holds, orders := caps, [], [];
    }

    /** `now + ttl` is the expiry of a new hold; a repeated key finds the hold it made. */
    method CreateHold(key: string, event: Id, user: Id, lines: seq<Line>, ttl: int, now: int) returns (r: Result<nat, HoldError>)
      modifies this`holds
      ensures View() == AfterHold(old(View()), caps, key, event, user, lines, ttl, now)
      ensures r.Failure? <==> !KeyTaken(old(holds), key) && Refused(old(View()), caps, event, user, lines, now)
      ensures r.Success? ==> r.value < |holds| && holds[r.value].key == key
    {
      var existing := 0;
      while existing < |holds|
        invariant 0 <= existing <= |holds|
        invariant forall j :: 0 <= j < existing ==> holds[j].key != key
      {
        if holds[existing].key == key { return Success(existing); }
        existing := existing + 1;
      }
      for i := 0 to |lines|
        invariant forall j :: 0 <= j < i ==> !Exceeds(View(), caps, event, user, lines[j], now)
      {
        var line := lines[i];
        if Capped(caps, line.tier) {
          var alreadyHeld := Held(holds, Share(user, event, line.tier), now);
          var alreadyBought := Paid(orders, Share(user, event, line.tier));
          if alreadyHeld + alreadyBought + line.quantity > caps[line.tier] { return Failure(CapReached); }
        }
      }
      r := Success(|holds|);
      holds := holds + [Hold(key, event, user, lines, Active, now + ttl)];
    }

    method ConfirmPayment(i: nat, payment: Id, captured: bool, now: int) returns (r: Result<Order, HoldError>)
      modifies this
      ensures View() == AfterConfirm(old(View()), i, payment, captured, now, false)
      ensures PaymentUsed(old(orders), payment) ==> r.Success? && r.value in old(orders) && r.value.payment == payment
      ensures !PaymentUsed(old(orders), payment) ==> r == ConfirmReply(old(View()), i, payment, captured, now)
    {
      var existing := 0;
      while existing < |orders|
        invariant 0 <= existing <= |orders|
        invariant forall j :: 0 <= j < existing ==> orders[j].payment != payment
      {
        if orders[existing].payment == payment { return Success(orders[existing]); }
        existing := existing + 1;
      }
      if i >= |holds| { return Failure(NoSuchHold); }
      var hold := holds[i];
      if hold.status.Converted? && hold.status.order < |orders| { return Success(orders[hold.status.order]); }
      if hold.status != Active { return Failure(NotActive); }
      if now > hold.expiresAt {
        holds := WithStatus(holds, i, Released);
        return Failure(HoldExpired);
      }
      if !captured { return Failure(NotCaptured); }
      var order := OrderFor(hold, payment);
      orders := orders + [order];
      holds := WithStatus(holds, i, Converted(|orders| - 1));
      r := Success(order);
    }
  }

  // ----- runs

  datatype Op =
    | Reserve(key: string, event: Id, user: Id, lines: seq<Line>, ttl: int)
    | Confirm(hold: nat, payment: Id, captured: bool)
    | Release(hold: nat)
    | Sweep
    | Refund(order: nat)

  datatype Call = Call(op: Op, at: int)

  /** Releases every active hold at or past its expiry. */
  function Swept(holds: seq<Hold>, now: int): (r: seq<Hold>)
    ensures |r| == |holds|
    ensures forall i :: 0 <= i < |r| ==> r[i] == if holds[i].status == Active && holds[i].expiresAt <= now then holds[i].(status := Released) else holds[i]
  {
    seq(|holds|, i requires 0 <= i < |holds| =>
      if holds[i].status == Active && holds[i].expiresAt <= now then holds[i].(status := Released) else holds[i])
  }

  function Perform(c: Cart, caps: Caps, strict: bool, call: Call): Cart {
    match call.op
    case Reserve(key, event, user, lines, ttl) => AfterHold(c, caps, key, event, user, lines, ttl, call.at)
    case Confirm(hold, payment, captured) => AfterConfirm(c, hold, payment, captured, call.at, strict)
    case Release(hold) => if hold < |c.holds| then c.(holds := WithStatus(c.holds, hold, Released)) else c
    case Sweep => c.(holds := Swept(c.holds, call.at))
    case Refund(order) => if order < |c.orders| then c.(orders := c.orders[order := c.orders[order].(paid := false)]) else c
  }

  function Run(caps: Caps, strict: bool, calls: seq<Call>): Cart
    decreases |calls|
  {
    if calls == [] then Cart([], []) else Perform(Run(caps, strict, calls[..|calls| - 1]), caps, strict, calls[|calls| - 1])
  }

  ghost predicate DistinctTiers(lines: seq<Line>) { forall i, j :: 0 <= i < j < |lines| ==> lines[i].tier != lines[j].tier }

  /** The clock never runs backwards and has not passed `now`; a basket names a tier once. */
  ghost predicate Regular(calls: seq<Call>, now: int) {
    && (forall i, j :: 0 <= i < j < |calls| ==> calls[i].at <= calls[j].at)
    && (forall i :: 0 <= i < |calls| ==> calls[i].at <= now && (calls[i].op.Reserve? ==> DistinctTiers(calls[i].op.lines)))
  }

  ghost predicate WithinCap(c: Cart, caps: Caps, s: Share, now: int) {
    Capped(caps, s.tier) ==> Held(c.holds, s, now) + Paid(c.orders, s) <= caps[s.tier]
  }

  lemma HeldSnoc(holds: seq<Hold>, h: Hold, s: Share, now: int)
    ensures Held(holds + [h], s, now) == Held(holds, s, now) + HeldBy(h, s, now)
  {
    assert (holds + [h])[..|holds|] == holds;
  }

  lemma PaidSnoc(orders: seq<Order>, o: Order, s: Share)
    ensures Paid(orders + [o], s) == Paid(orders, s) + PaidBy(o, s)
  {
    assert (orders + [o])[..|orders|] == orders;
  }

  /** Exactly the paid orders of the user at the event count, with all they order of the tier. */
  lemma OneOrderMore(orders: seq<Order>, payment: Id, event: Id, user: Id, lines: seq<Line>, paid: bool, s: Share)
    ensures Paid([], s) == 0
    ensures Paid(orders + [Order(payment, event, user, lines, paid)], s)
         == Paid(orders, s) + if paid && event == s.event && user == s.user then Quantity(lines, s.tier) else 0
  {
    PaidSnoc(orders, Order(payment, event, user, lines, paid), s);
  }

  /** Exactly the active holds of the user at the event that are not at their expiry count. */
  lemma OneHoldMore(holds: seq<Hold>, key: string, event: Id, user: Id, lines: seq<Line>, status: HoldStatus, expiresAt: int, s: Share, now: int)
    ensures Held([], s, now) == 0
    ensures Held(holds + [Hold(key, event, user, lines, status, expiresAt)], s, now)
         == Held(holds, s, now) + if status == Active && now < expiresAt && event == s.event && user == s.user then Quantity(lines, s.tier) else 0
  {
    HeldSnoc(holds, Hold(key, event, user, lines, status, expiresAt), s, now);
  }

  /** A basket orders of a tier what its lines for that tier add up to. */
  lemma OneMoreLine(lines: seq<Line>, tier: Id, quantity: nat, other: Id)
    ensures Quantity([], other) == 0
    ensures Quantity(lines + [Line(tier, quantity)], other) == Quantity(lines, other) + if tier == other then quantity else 0
  {
    assert (lines + [Line(tier, quantity)])[..|lines|] == lines;
  }

  /** A tier without a cap, or with a cap of zero, refuses nothing. */
  lemma UncappedIsNotRefused(c: Cart, caps: Caps, event: Id, user: Id, line: Line, now: int)
    requires line.tier in caps ==> caps[line.tier] == 0
    ensures !Exceeds(c, caps, event, user, line, now)
  {}

  /** A released hold stops counting, and so does a refunded order; everything else counts as before. */
  lemma ReleaseAndRefundFree(c: Cart, caps: Caps, i: nat, s: Share, at: int, now: int)
    ensures i < |c.holds| ==> Held(Perform(c, caps, false, Call(Release(i), at)).holds, s, now) == Held(c.holds, s, now) - HeldBy(c.holds[i], s, now)
    ensures i < |c.orders| ==> Paid(Perform(c, caps, false, Call(Refund(i), at)).orders, s) == Paid(c.orders, s) - PaidBy(c.orders[i], s)
  {
    if i < |c.holds| { HeldUpdate(c.holds, i, c.holds[i].(status := Released), s, now); }
    if i < |c.orders| { PaidUpdate(c.orders, i, c.orders[i].(paid := false), s); }
  }

  lemma {:induction false} HeldUpdate(holds: seq<Hold>, i: nat, h: Hold, s: Share, now: int)
    requires i < |holds|
    ensures Held(holds[i := h], s, now) == Held(holds, s, now) - HeldBy(holds[i], s, now) + HeldBy(h, s, now)
  {
    var n := |holds| - 1;
    if i == n {
      assert holds[i := h][..n] == holds[..n];
    } else {
      assert holds[i := h][..n] == holds[..n][i := h];
      HeldUpdate(holds[..n], i, h, s, now);
    }
  }

  lemma {:induction false} HeldShrinks(holds: seq<Hold>, holds': seq<Hold>, s: Share, now: int, now': int)
    requires |holds| == |holds'| && forall i :: 0 <= i < |holds| ==> HeldBy(holds'[i], s, now') <= HeldBy(holds[i], s, now)
    ensures Held(holds', s, now') <= Held(holds, s, now)
  {
    if holds != [] { HeldShrinks(holds[..|holds| - 1], holds'[..|holds| - 1], s, now, now'); }
  }

  lemma {:induction false} PaidUpdate(orders: seq<Order>, i: nat, o: Order, s: Share)
    requires i < |orders|
    ensures Paid(orders[i := o], s) == Paid(orders, s) - PaidBy(orders[i], s) + PaidBy(o, s)
  {
    var n := |orders| - 1;
    if i == n {
      assert orders[i := o][..n] == orders[..n];
    } else {
      assert orders[i := o][..n] == orders[..n][i := o];
      PaidUpdate(orders[..n], i, o, s);
    }
  }

  lemma {:induction false} NotOrdered(lines: seq<Line>, tier: Id)
    requires forall i :: 0 <= i < |lines| ==> lines[i].tier != tier
    ensures Quantity(lines, tier) == 0
  {
    if lines != [] { NotOrdered(lines[..|lines| - 1], tier); }
  }

  /** A basket that names each tier once orders of a tier what its one line says. */
  lemma {:induction false} OneLineEach(lines: seq<Line>, k: nat)
    requires DistinctTiers(lines) && k < |lines|
    ensures Quantity(lines, lines[k].tier) == lines[k].quantity
  {
    var n := |lines| - 1;
    if k == n { NotOrdered(lines[..n], lines[k].tier); } else { OneLineEach(lines[..n], k); }
  }

  lemma ReserveKeepsCap(c: Cart, caps: Caps, key: string, event: Id, user: Id, lines: seq<Line>, ttl: int, s: Share, now: int)
    requires WithinCap(c, caps, s, now) && DistinctTiers(lines)
    ensures WithinCap(AfterHold(c, caps, key, event, user, lines, ttl, now), caps, s, now)
  {
    var h := Hold(key, event, user, lines, Active, now + ttl);
    HeldSnoc(c.holds, h, s, now);
    if k :| 0 <= k < |lines| && lines[k].tier == s.tier {
      OneLineEach(lines, k);
      assert s.event == event && s.user == user ==> s == Share(user, event, lines[k].tier);
    } else {
      NotOrdered(lines, s.tier);
    }
  }

  lemma ConfirmKeepsCap(c: Cart, caps: Caps, i: nat, payment: Id, captured: bool, s: Share, now: int)
    requires WithinCap(c, caps, s, now)
    ensures WithinCap(AfterConfirm(c, i, payment, captured, now, true), caps, s, now)
  {
    if i < |c.holds| {
      HeldUpdate(c.holds, i, c.holds[i].(status := Released), s, now);
      HeldUpdate(c.holds, i, c.holds[i].(status := Converted(|c.orders|)), s, now);
      PaidSnoc(c.orders, OrderFor(c.holds[i], payment), s);
    }
  }

  lemma CallKeepsCap(c: Cart, caps: Caps, call: Call, s: Share)
    requires WithinCap(c, caps, s, call.at) && (call.op.Reserve? ==> DistinctTiers(call.op.lines))
    ensures WithinCap(Perform(c, caps, true, call), caps, s, call.at)
  {
    match call.op
    case Reserve(key, event, user, lines, ttl) => ReserveKeepsCap(c, caps, key, event, user, lines, ttl, s, call.at);
    case Confirm(hold, payment, captured) => ConfirmKeepsCap(c, caps, hold, payment, captured, s, call.at);
    case Release(hold) => if hold < |c.holds| { HeldUpdate(c.holds, hold, c.holds[hold].(status := Released), s, call.at); }
    case Sweep => HeldShrinks(c.holds, Swept(c.holds, call.at), s, call.at, call.at);
    case Refund(order) => if order < |c.orders| { PaidUpdate(c.orders, order, c.orders[order].(paid := false), s); }
  }

  /** If a hold could no longer be confirmed at its expiry, paid and held tickets would never exceed the cap. */
  lemma {:induction false} StrictExpiryKeepsCap(caps: Caps, calls: seq<Call>, s: Share, now: int)
    requires Regular(calls, now)
    ensures WithinCap(Run(caps, true, calls), caps, s, now)
    decreases |calls|
  {
    if calls != [] {
      var init, last := calls[..|calls| - 1], calls[|calls| - 1];
      var c, c' := Run(caps, true, init), Run(caps, true, calls);
      StrictExpiryKeepsCap(caps, init, s, last.at);
      CallKeepsCap(c, caps, last, s);
      HeldShrinks(c'.holds, c'.holds, s, last.at, now);
    }
  }

  // ----- the expiry as the code has it

  /** No payment is confirmed in the very millisecond its hold expires. */
  ghost predicate Timely(caps: Caps, calls: seq<Call>) {
    forall k :: 0 <= k < |calls| && calls[k].op.Confirm? ==> TimelyAt(Run(caps, false, calls[..k]), calls[k])
  }

  predicate TimelyAt(c: Cart, call: Call)
    requires call.op.Confirm?
  {
    call.op.hold < |c.holds| && c.holds[call.op.hold].status == Active ==> c.holds[call.op.hold].expiresAt != call.at
  }

  lemma {:induction false} TimelyRunsAgree(caps: Caps, calls: seq<Call>)
    requires Timely(caps, calls)
    ensures Run(caps, false, calls) == Run(caps, true, calls)
    decreases |calls|
  {
    if calls != [] {
      var n := |calls| - 1;
      var init := calls[..n];
      forall k | 0 <= k < |init| && init[k].op.Confirm? ensures TimelyAt(Run(caps, false, init[..k]), init[k]) {
        assert init[..k] == calls[..k] && init[k] == calls[k];
      }
      TimelyRunsAgree(caps, init);
      assert calls[n].op.Confirm? ==> TimelyAt(Run(caps, false, calls[..n]), calls[n]);
    }
  }

  /** Over any run in which no confirmation lands on an expiry, a user's paid and held tickets stay within the cap. */
  lemma TimelyRunsKeepCap(caps: Caps, calls: seq<Call>, s: Share, now: int)
    requires Regular(calls, now) && Timely(caps, calls)
    ensures WithinCap(Run(caps, false, calls), caps, s, now)
  {
    TimelyRunsAgree(caps, calls);
    StrictExpiryKeepsCap(caps, calls, s, now);
  }

  // ----- exactly when a call keeps the caps

  ghost predicate WithinCaps(c: Cart, caps: Caps, now: int) { forall s :: WithinCap(c, caps, s, now) }

  /** As many more tickets as `lines` orders of this tier fit under the cap. */
  predicate Fits(c: Cart, caps: Caps, s: Share, lines: seq<Line>, now: int) {
    Capped(caps, s.tier) ==> Held(c.holds, s, now) + Paid(c.orders, s) + Quantity(lines, s.tier) <= caps[s.tier]
  }

  /** Every tier a basket names fits, counted over the basket as a whole. */
  predicate BasketFits(c: Cart, caps: Caps, event: Id, user: Id, lines: seq<Line>, now: int) {
    forall i :: 0 <= i < |lines| ==> Fits(c, caps, Share(user, event, lines[i].tier), lines, now)
  }

  predicate Accepted(c: Cart, caps: Caps, key: string, event: Id, user: Id, lines: seq<Line>, ttl: int, now: int) {
    ttl > 0 && !KeyTaken(c.holds, key) && !Refused(c, caps, event, user, lines, now)
  }

  /** A payment that is confirmed in the very millisecond in which its hold no longer counts. */
  predicate ConfirmedAtExpiry(c: Cart, i: nat, payment: Id, captured: bool, now: int) {
    && !PaymentUsed(c.orders, payment) && captured
    && i < |c.holds| && c.holds[i].status == Active && c.holds[i].expiresAt == now
  }

  /** What a caller can check before a call: two kinds of call add tickets that nothing has counted. */
  predicate RoomFor(c: Cart, caps: Caps, call: Call) {
    match call.op
    case Reserve(key, event, user, lines, ttl) =>
      Accepted(c, caps, key, event, user, lines, ttl, call.at) ==> BasketFits(c, caps, event, user, lines, call.at)
    case Confirm(i, payment, captured) =>
      ConfirmedAtExpiry(c, i, payment, captured, call.at) ==>
        BasketFits(c, caps, c.holds[i].event, c.holds[i].user, c.holds[i].lines, call.at)
    case _ => true
  }

  lemma AcceptedShareIff(c: Cart, caps: Caps, key: string, event: Id, user: Id, lines: seq<Line>, ttl: int, s: Share, now: int)
    requires WithinCap(c, caps, s, now) && Accepted(c, caps, key, event, user, lines, ttl, now)
    ensures WithinCap(AfterHold(c, caps, key, event, user, lines, ttl, now), caps, s, now)
       <==> (s.user == user && s.event == event ==> Fits(c, caps, s, lines, now))
  {
    HeldSnoc(c.holds, Hold(key, event, user, lines, Active, now + ttl), s, now);
  }

  lemma ConfirmedShareIff(c: Cart, caps: Caps, i: nat, payment: Id, captured: bool, s: Share, now: int)
    requires WithinCap(c, caps, s, now) && ConfirmedAtExpiry(c, i, payment, captured, now)
    ensures WithinCap(AfterConfirm(c, i, payment, captured, now, false), caps, s, now)
       <==> (s.user == c.holds[i].user && s.event == c.holds[i].event ==> Fits(c, caps, s, c.holds[i].lines, now))
  {
    HeldUpdate(c.holds, i, c.holds[i].(status := Converted(|c.orders|)), s, now);
    PaidSnoc(c.orders, OrderFor(c.holds[i], payment), s);
  }

  /** A tier the basket does not name fits if it did before. */
  lemma BasketFitsEveryShare(c: Cart, caps: Caps, event: Id, user: Id, lines: seq<Line>, now: int)
    requires WithinCaps(c, caps, now)
    ensures BasketFits(c, caps, event, user, lines, now)
       <==> forall s: Share :: s.user == user && s.event == event ==> Fits(c, caps, s, lines, now)
  {
    if BasketFits(c, caps, event, user, lines, now) {
      forall s: Share | s.user == user && s.event == event ensures Fits(c, caps, s, lines, now) {
        assert WithinCap(c, caps, s, now);
        if k :| 0 <= k < |lines| && lines[k].tier == s.tier {
          assert s == Share(user, event, lines[k].tier);
        } else {
          NotOrdered(lines, s.tier);
        }
      }
    }
  }

  /** An accepted basket keeps the caps if and only if it fits as a whole. */
  lemma AcceptedKeepsCapsIff(c: Cart, caps: Caps, key: string, event: Id, user: Id, lines: seq<Line>, ttl: int, now: int)
    requires WithinCaps(c, caps, now) && Accepted(c, caps, key, event, user, lines, ttl, now)
    ensures WithinCaps(AfterHold(c, caps, key, event, user, lines, ttl, now), caps, now)
       <==> BasketFits(c, caps, event, user, lines, now)
  {
    BasketFitsEveryShare(c, caps, event, user, lines, now);
    var c' := AfterHold(c, caps, key, event, user, lines, ttl, now);
    forall s: Share
      ensures WithinCap(c', caps, s, now) <==> (s.user == user && s.event == event ==> Fits(c, caps, s, lines, now))
    {
      AcceptedShareIff(c, caps, key, event, user, lines, ttl, s, now);
    }
    hide WithinCap, Fits, BasketFits, AfterHold;
  }

  /** A payment confirmed at the expiry keeps the caps if and only if the hold's tickets still fit. */
  lemma ConfirmedAtExpiryKeepsCapsIff(c: Cart, caps: Caps, i: nat, payment: Id, captured: bool, now: int)
    requires WithinCaps(c, caps, now) && ConfirmedAtExpiry(c, i, payment, captured, now)
    ensures WithinCaps(AfterConfirm(c, i, payment, captured, now, false), caps, now)
       <==> BasketFits(c, caps, c.holds[i].event, c.holds[i].user, c.holds[i].lines, now)
  {
    var h := c.holds[i];
    BasketFitsEveryShare(c, caps, h.event, h.user, h.lines, now);
    var c' := AfterConfirm(c, i, payment, captured, now, false);
    forall s: Share
      ensures WithinCap(c', caps, s, now) <==> (s.user == h.user && s.event == h.event ==> Fits(c, caps, s, h.lines, now))
    {
      ConfirmedShareIff(c, caps, i, payment, captured, s, now);
    }
    hide WithinCap, Fits, BasketFits, AfterConfirm;
  }

  /** Of the other confirmations none exceeds a cap. */
  lemma OtherConfirmationsKeepCaps(c: Cart, caps: Caps, i: nat, payment: Id, captured: bool, now: int)
    requires WithinCaps(c, caps, now) && !ConfirmedAtExpiry(c, i, payment, captured, now)
    ensures WithinCaps(AfterConfirm(c, i, payment, captured, now, false), caps, now)
  {
    var c' := AfterConfirm(c, i, payment, captured, now, false);
    forall s ensures WithinCap(c', caps, s, now) {
      assert WithinCap(c, caps, s, now);
      if i < |c.holds| {
        HeldUpdate(c.holds, i, c.holds[i].(status := Released), s, now);
        HeldUpdate(c.holds, i, c.holds[i].(status := Converted(|c.orders|)), s, now);
        PaidSnoc(c.orders, OrderFor(c.holds[i], payment), s);
      }
    }
  }

  /** One call keeps every cap of every user if and only if there is room for it. */
  lemma CallKeepsCapsIff(c: Cart, caps: Caps, call: Call)
    requires WithinCaps(c, caps, call.at)
    ensures WithinCaps(Perform(c, caps, false, call), caps, call.at) <==> RoomFor(c, caps, call)
  {
    match call.op
    case Reserve(key, event, user, lines, ttl) =>
      if Accepted(c, caps, key, event, user, lines, ttl, call.at) {
        AcceptedKeepsCapsIff(c, caps, key, event, user, lines, ttl, call.at);
      } else {
        forall s ensures WithinCap(AfterHold(c, caps, key, event, user, lines, ttl, call.at), caps, s, call.at) {
          assert WithinCap(c, caps, s, call.at);
          HeldSnoc(c.holds, Hold(key, event, user, lines, Active, call.at + ttl), s, call.at);
        }
      }
    case Confirm(i, payment, captured) =>
      if ConfirmedAtExpiry(c, i, payment, captured, call.at) {
        ConfirmedAtExpiryKeepsCapsIff(c, caps, i, payment, captured, call.at);
      } else {
        OtherConfirmationsKeepCaps(c, caps, i, payment, captured, call.at);
      }
    case _ =>
      forall s ensures WithinCap(Perform(c, caps, false, call), caps, s, call.at) {
        assert WithinCap(c, caps, s, call.at);
        CallKeepsCap(c, caps, call, s);
      }
  }

  /** At no moment of the run, and not until the next call either, is a user above a cap. */
  ghost predicate AlwaysWithinCaps(caps: Caps, calls: seq<Call>)
    decreases |calls|
  {
    calls == [] ||
    (AlwaysWithinCaps(caps, calls[..|calls| - 1]) && forall now :: calls[|calls| - 1].at <= now ==> WithinCaps(Run(caps, false, calls), caps, now))
  }

  /** There was room for every call when it was made. */
  ghost predicate AlwaysRoom(caps: Caps, calls: seq<Call>)
    decreases |calls|
  {
    calls == [] ||
    (AlwaysRoom(caps, calls[..|calls| - 1]) && RoomFor(Run(caps, false, calls[..|calls| - 1]), caps, calls[|calls| - 1]))
  }

  lemma LaterWithinCaps(c: Cart, caps: Caps, at: int, now: int)
    requires WithinCaps(c, caps, at) && at <= now
    ensures WithinCaps(c, caps, now)
  {
    forall s ensures WithinCap(c, caps, s, now) {
      assert WithinCap(c, caps, s, at);
      HeldShrinks(c.holds, c.holds, s, at, now);
    }
  }

  /**
   For every run whatever its baskets and times, the clock not running backwards: paid and held
   tickets never exceed a cap if and only if there was room for every call when it was made.
   */
  lemma {:induction false} RunKeepsCapsIff(caps: Caps, calls: seq<Call>)
    requires forall i, j :: 0 <= i < j < |calls| ==> calls[i].at <= calls[j].at
    ensures AlwaysWithinCaps(caps, calls) <==> AlwaysRoom(caps, calls)
    decreases |calls|
  {
    hide WithinCap, RoomFor, Perform;
    if calls != [] {
      var n := |calls| - 1;
      var init, last := calls[..n], calls[n];
      var c, c' := Run(caps, false, init), Run(caps, false, calls);
      RunKeepsCapsIff(caps, init);
      if AlwaysWithinCaps(caps, init) {
        if n > 0 { assert init[n - 1].at <= last.at; } else { EmptyCartWithinCaps(caps, last.at); }
        CallKeepsCapsIff(c, caps, last);
        if WithinCaps(c', caps, last.at) {
          forall now | last.at <= now ensures WithinCaps(c', caps, now) { LaterWithinCaps(c', caps, last.at, now); }
        }
      }
    }
  }

  lemma EmptyCartWithinCaps(caps: Caps, now: int)
    ensures WithinCaps(Cart([], []), caps, now)
  {}

  // ----- exactly which baskets are safe in every cart

  /** No capped tier stands on two lines that both order something. */
  predicate OneLinePerCappedTier(caps: Caps, lines: seq<Line>) {
    forall i, j :: 0 <= i < j < |lines| && lines[i].tier == lines[j].tier && Capped(caps, lines[i].tier) ==>
      lines[i].quantity == 0 || lines[j].quantity == 0
  }

  /** A basket that no cart accepts. */
  predicate AlwaysRefused(caps: Caps, lines: seq<Line>) {
    exists i :: 0 <= i < |lines| && Capped(caps, lines[i].tier) && lines[i].quantity > caps[lines[i].tier]
  }

  lemma RefusedInEveryCart(c: Cart, caps: Caps, event: Id, user: Id, lines: seq<Line>, now: int)
    requires AlwaysRefused(caps, lines)
    ensures Refused(c, caps, event, user, lines, now)
  {
    var i :| 0 <= i < |lines| && Capped(caps, lines[i].tier) && lines[i].quantity > caps[lines[i].tier];
    assert Exceeds(c, caps, event, user, lines[i], now);
  }

  ghost predicate SafeBasket(caps: Caps, event: Id, user: Id, lines: seq<Line>) {
    forall c, key, ttl, now :: WithinCaps(c, caps, now) ==> WithinCaps(AfterHold(c, caps, key, event, user, lines, ttl, now), caps, now)
  }

  lemma {:induction false} LargestLine(lines: seq<Line>, tier: Id) returns (k: nat)
    requires exists i :: 0 <= i < |lines| && lines[i].tier == tier
    ensures k < |lines| && lines[k].tier == tier
    ensures forall i :: 0 <= i < |lines| && lines[i].tier == tier ==> lines[i].quantity <= lines[k].quantity
  {
    var n := |lines| - 1;
    if exists i :: 0 <= i < n && lines[..n][i].tier == tier {
      k := LargestLine(lines[..n], tier);
      assert forall i :: 0 <= i < n ==> lines[..n][i] == lines[i];
      if lines[n].tier == tier && lines[n].quantity > lines[k].quantity { k := n; }
    } else {
      assert forall i :: 0 <= i < n ==> lines[..n][i] == lines[i];
      k := n;
    }
  }

  lemma {:induction false} LineCounts(lines: seq<Line>, i: nat)
    requires i < |lines|
    ensures lines[i].quantity <= Quantity(lines, lines[i].tier)
  {
    var n := |lines| - 1;
    if i < n { LineCounts(lines[..n], i); }
  }

  lemma {:induction false} BothLinesCount(lines: seq<Line>, i: nat, j: nat)
    requires i < j < |lines| && lines[i].tier == lines[j].tier
    ensures lines[i].quantity + lines[j].quantity <= Quantity(lines, lines[i].tier)
  {
    var n := |lines| - 1;
    if j < n { BothLinesCount(lines[..n], i, j); } else { LineCounts(lines[..n], i); }
  }

  /** What such a basket orders of a capped tier, one of its lines orders alone. */
  lemma {:induction false} OneLineOrdersAll(caps: Caps, lines: seq<Line>, tier: Id) returns (k: nat)
    requires OneLinePerCappedTier(caps, lines) && Capped(caps, tier)
    requires exists i :: 0 <= i < |lines| && lines[i].tier == tier
    ensures k < |lines| && lines[k].tier == tier && lines[k].quantity == Quantity(lines, tier)
  {
    var n := |lines| - 1;
    var init := lines[..n];
    assert forall i :: 0 <= i < n ==> init[i] == lines[i];
    if exists i :: 0 <= i < n && init[i].tier == tier {
      k := OneLineOrdersAll(caps, init, tier);
      if lines[n].tier == tier && lines[n].quantity > 0 { k := n; }
    } else {
      NotOrdered(init, tier);
      k := n;
    }
  }

  lemma SafeBasketAccepted(c: Cart, caps: Caps, key: string, event: Id, user: Id, lines: seq<Line>, ttl: int, now: int)
    requires OneLinePerCappedTier(caps, lines) && Accepted(c, caps, key, event, user, lines, ttl, now)
    ensures BasketFits(c, caps, event, user, lines, now)
  {
    forall i | 0 <= i < |lines| && Capped(caps, lines[i].tier) ensures Fits(c, caps, Share(user, event, lines[i].tier), lines, now) {
      var k := OneLineOrdersAll(caps, lines, lines[i].tier);
      assert !Exceeds(c, caps, event, user, lines[k], now);
    }
  }

  /** The cart that is fullest while line `k` alone still fits. */
  function AlmostFull(caps: Caps, event: Id, user: Id, line: Line): Cart
    requires Capped(caps, line.tier) && line.quantity <= caps[line.tier]
  {
    Cart([], [Order("p", event, user, [Line(line.tier, caps[line.tier] - line.quantity)], true)])
  }

  lemma AlmostFullCounts(caps: Caps, event: Id, user: Id, line: Line, s: Share)
    requires Capped(caps, line.tier) && line.quantity <= caps[line.tier]
    ensures Paid(AlmostFull(caps, event, user, line).orders, s)
         == if s == Share(user, event, line.tier) then caps[line.tier] - line.quantity else 0
  {
    var o := AlmostFull(caps, event, user, line).orders[0];
    QuantityOfOne(o.lines[0], s.tier);
    assert s == Share(s.user, s.event, s.tier);
    assert [o][..0] == [];
  }

  lemma QuantityOfOne(line: Line, tier: Id)
    ensures Quantity([line], tier) == if line.tier == tier then line.quantity else 0
  {
    assert [line][..0] == [];
  }

  lemma UnsafeBasketBreaksCap(caps: Caps, event: Id, user: Id, lines: seq<Line>, i: nat, j: nat)
    requires i < j < |lines| && lines[i].tier == lines[j].tier && Capped(caps, lines[i].tier)
    requires lines[i].quantity > 0 && lines[j].quantity > 0 && !AlwaysRefused(caps, lines)
    ensures !SafeBasket(caps, event, user, lines)
  {
    var tier := lines[i].tier;
    var k := LargestLine(lines, tier);
    var c := AlmostFull(caps, event, user, lines[k]);
    BothLinesCount(lines, i, j);
    assert Quantity(lines, tier) > lines[k].quantity by {
      if k < j { BothLinesCount(lines, k, j); } else if i < k { BothLinesCount(lines, i, k); }
    }
    forall s ensures WithinCap(c, caps, s, 0) && Paid(c.orders, s) == if s == Share(user, event, tier) then caps[tier] - lines[k].quantity else 0 {
      AlmostFullCounts(caps, event, user, lines[k], s);
    }
    assert Accepted(c, caps, "", event, user, lines, 1, 0);
    AcceptedKeepsCapsIff(c, caps, "", event, user, lines, 1, 0);
    assert !Fits(c, caps, Share(user, event, lines[i].tier), lines, 0);
  }

  /**
   Exactly these baskets keep every cap whatever the user already holds and owns: those that no
   cart accepts, and those that order no capped tier on two lines.
   */
  lemma SafeBasketIff(caps: Caps, event: Id, user: Id, lines: seq<Line>)
    ensures SafeBasket(caps, event, user, lines) <==> AlwaysRefused(caps, lines) || OneLinePerCappedTier(caps, lines)
  {
    if AlwaysRefused(caps, lines) || OneLinePerCappedTier(caps, lines) {
      forall c, key, ttl, now | WithinCaps(c, caps, now)
        ensures WithinCaps(AfterHold(c, caps, key, event, user, lines, ttl, now), caps, now)
      {
        CallKeepsCapsIff(c, caps, Call(Reserve(key, event, user, lines, ttl), now));
        if AlwaysRefused(caps, lines) {
          RefusedInEveryCart(c, caps, event, user, lines, now);
        } else if Accepted(c, caps, key, event, user, lines, ttl, now) {
          SafeBasketAccepted(c, caps, key, event, user, lines, ttl, now);
        }
      }
    } else {
      var i, j :| 0 <= i < j < |lines| && lines[i].tier == lines[j].tier && Capped(caps, lines[i].tier)
        && lines[i].quantity > 0 && lines[j].quantity > 0;
      UnsafeBasketBreaksCap(caps, event, user, lines, i, j);
    }
  }

  // ----- a converted hold and its order

  /** Every converted hold names an order for its own tickets and owner. */
  ghost predicate ConvertedTrace(c: Cart) {
    forall i :: 0 <= i < |c.holds| && c.holds[i].status.Converted? ==> BecameOrder(c, i)
  }

  predicate BecameOrder(c: Cart, i: nat)
    requires i < |c.holds| && c.holds[i].status.Converted?
  {
    var h := c.holds[i];
    h.status.order < |c.orders|
    && var o := c.orders[h.status.order]; o == OrderFor(h, o.payment).(paid := o.paid)
  }

  /** In every run a confirmation of a converted hold, under whatever payment, finds the order the hold became. */
  lemma {:induction false} ConvertedHoldFindsItsOrder(caps: Caps, strict: bool, calls: seq<Call>)
    ensures ConvertedTrace(Run(caps, strict, calls))
    decreases |calls|
  {
    if calls != [] {
      var init, last := calls[..|calls| - 1], calls[|calls| - 1];
      ConvertedHoldFindsItsOrder(caps, strict, init);
      CallKeepsTrace(Run(caps, strict, init), caps, strict, last);
    }
  }

  lemma CallKeepsTrace(c: Cart, caps: Caps, strict: bool, call: Call)
    requires ConvertedTrace(c)
    ensures ConvertedTrace(Perform(c, caps, strict, call))
  {
    hide Refused, KeyTaken, PaymentUsed;
    var c' := Perform(c, caps, strict, call);
    forall i | 0 <= i < |c'.holds| && c'.holds[i].status.Converted? ensures BecameOrder(c', i) {
      if i < |c.holds| && c.holds[i].status.Converted? { assert BecameOrder(c, i); }
    }
  }

  // ----- inputs that break the cap

  lemma RunOfThree(caps: Caps, strict: bool, a: Call, b: Call, c: Call)
    ensures Run(caps, strict, [a, b, c]) == Perform(Perform(Perform(Cart([], []), caps, strict, a), caps, strict, b), caps, strict, c)
  {
    assert [a, b, c][..2] == [a, b] && [a, b][..1] == [a] && [a][..0] == [];
    assert Run(caps, strict, [a]) == Perform(Cart([], []), caps, strict, a);
    assert Run(caps, strict, [a, b]) == Perform(Run(caps, strict, [a]), caps, strict, b);
  }

  /** A hold of one ticket made at `at`, for ten milliseconds. */
  function OneTicket(key: string, at: int): Hold { Hold(key, "e", "u", [Line("t", 1)], Active, at + 10) }

  function ReserveOne(key: string, at: int): Call { Call(Reserve(key, "e", "u", [Line("t", 1)], 10), at) }

  /** One ticket is granted under a cap of one as long as none is held or bought. */
  lemma OneTicketGranted(holds: seq<Hold>, key: string, at: int)
    requires Held(holds, Share("u", "e", "t"), at) == 0 && !KeyTaken(holds, key)
    ensures Perform(Cart(holds, []), map["t" := 1], false, ReserveOne(key, at)) == Cart(holds + [OneTicket(key, at)], [])
  {}

  lemma OneTicketCounts(o: Order, h: Hold, s: Share, now: int)
    requires s == Share("u", "e", "t") && HeldBy(h, s, now) == PaidBy(o, s) == 1
    ensures forall g :: HeldBy(g, s, now) == 0 ==> Held([g, h], s, now) + Paid([o], s) == 2
  {
    forall g | HeldBy(g, s, now) == 0 ensures Held([g, h], s, now) == 1 {
      assert [g, h][..1] == [g] && [g][..0] == [];
      assert Held([g], s, now) == 0;
    }
    assert [o][..0] == [];
  }

  lemma OneTicketEach(key: string, at: int)
    ensures HeldBy(OneTicket(key, at), Share("u", "e", "t"), at) == 1
    ensures HeldBy(OneTicket(key, at), Share("u", "e", "t"), at + 10) == 0
    ensures PaidBy(OrderFor(OneTicket(key, at), "p"), Share("u", "e", "t")) == 1
  {
    assert [Line("t", 1)][..0] == [];
    assert Quantity([Line("t", 1)], "t") == 1;
  }

  lemma BothGranted(caps: Caps)
    requires caps == map["t" := 1]
    ensures Perform(Perform(Cart([], []), caps, false, ReserveOne("a", 0)), caps, false, ReserveOne("b", 10))
         == Cart([OneTicket("a", 0), OneTicket("b", 10)], [])
  {
    var a, s := OneTicket("a", 0), Share("u", "e", "t");
    OneTicketEach("a", 0);
    OneTicketGranted([], "a", 0);
    HeldSnoc([], a, s, 10);
    assert [] + [a] == [a];
    hide HeldBy, Quantity, Perform;
    OneTicketGranted([a], "b", 10);
  }

  lemma FirstConfirmed(caps: Caps)
    ensures Perform(Cart([OneTicket("a", 0), OneTicket("b", 10)], []), caps, false, Call(Confirm(0, "p", true), 10))
         == Cart([OneTicket("a", 0).(status := Converted(0)), OneTicket("b", 10)], [OrderFor(OneTicket("a", 0), "p")])
  {}

  /**
   A hold of one ticket expires; in that millisecond its owner takes another hold, which no longer
   counts the first, and then the payment of the first is confirmed.
   */
  lemma ConfirmingAtExpiryBreaksCap(caps: Caps, calls: seq<Call>, s: Share)
    requires caps == map["t" := 1] && s == Share("u", "e", "t")
    requires calls == [ReserveOne("a", 0), ReserveOne("b", 10), Call(Confirm(0, "p", true), 10)]
    ensures Regular(calls, 10) && !WithinCap(Run(caps, false, calls), caps, s, 10)
  {
    assert Regular(calls, 10);
    hide Regular, Held, Paid, Run, Quantity, Perform;
    var a, b := OneTicket("a", 0), OneTicket("b", 10);
    RunOfThree(caps, false, calls[0], calls[1], calls[2]);
    assert calls == [calls[0], calls[1], calls[2]];
    BothGranted(caps);
    FirstConfirmed(caps);
    OneTicketEach("a", 0);
    OneTicketEach("b", 10);
    OneTicketCounts(OrderFor(a, "p"), b, s, 10);
    assert HeldBy(a.(status := Converted(0)), s, 10) == 0;
  }

  /** A basket that names a capped tier twice passes line by line and takes twice the quantity. */
  lemma NamingATierTwiceBreaksCap(caps: Caps, tier: Id, quantity: nat, ttl: nat, now: int)
    requires Capped(caps, tier) && quantity <= caps[tier] < 2 * quantity && ttl > 0
    ensures var lines := [Line(tier, quantity), Line(tier, quantity)];
      !WithinCap(AfterHold(Cart([], []), caps, "k", "e", "u", lines, ttl, now), caps, Share("u", "e", tier), now)
  {
    var lines := [Line(tier, quantity), Line(tier, quantity)];
    assert lines[..1] == [lines[0]] && [lines[0]][..0] == [];
    assert Quantity([lines[0]], tier) == quantity;
    assert Quantity(lines, tier) == 2 * quantity;
    var h := Hold("k", "e", "u", lines, Active, now + ttl);
    HeldSnoc([], h, Share("u", "e", tier), now);
    assert [] + [h] == [h];
    assert AfterHold(Cart([], []), caps, "k", "e", "u", lines, ttl, now).holds == [h];
  }
}
