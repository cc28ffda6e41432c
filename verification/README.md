# Verification of the ticketing backend's protocols

A Dafny model of the stateful parts of the backend whose correctness its comments argue for: admission
at the door, payment confirmation, per-user caps, the outbox event bus, request identity, rate limiting,
prepaid wallets, scanner sessions, admin authority, signed tokens and dashboard trends. Each module
follows the code it cites, branch by branch and constant by constant; the theorems are about all inputs,
all interleavings or all runs.

`dafny verify dfyconfig.toml` checks everything.

## The modules

| file | what it models |
|---|---|
| `admission.dfy` | the decision behind every admission, as one atomic claim |
| `door.dfy` | the door as a step system: scanners, couples, offline devices, managers and sales, with crashes between claim and ledger row |
| `offline.dfy` | replaying offline scans |
| `door_orders.dfy` | concurrent retries of one door sale over its order |
| `checkout.dfy` | webhook and redirect racing to confirm one payment, one awaited call at a time |
| `hold_race.dfy` | several payments racing over one hold |
| `holds.dfy` | holds, orders and the per-user cap, with serial calls |
| `outbox.dfy`, `event_bus.dfy` | the outbox as a value and how it drains; the store and the bus as classes, with failing and appending handlers |
| `text.dfy`, `canonical.dfy` | UTF-16 text; the request serializer |
| `rate_limit.dfy` | the sliding window and its bounded map |
| `wallet.dfy`, `velocity.dfy`, `door_sales.dfy` | wallet money and reconciliation; the debit limit as a bound on every minute; walk-in and dine-in sales |
| `sessions.dfy` | door codes, sessions and bound devices |
| `admin.dfy` | admin roles under dual control |
| `tokens.dfy` | ticket QR, wallet QR message and couple confirmation |
| `calendar.dfy`, `trends.dfy` | dates as texts; trend buckets |
| `common.dfy` | options, results and other shared definitions |

Protocols whose point is concurrency are step systems: a run is any sequence of steps of any number of
callers, and a caller that is never scheduled again is one that crashed. Services that change stores call
by call are classes whose methods are proved against functions on values; what holds over runs is then
proved about those functions, or kept as `Valid()`.

## What the proofs found

Several statements in the code's comments and tests do not hold as written. Each is kept as the code has
it, with the exact condition under which it does hold.

* **Creates are not compare-and-set on Firestore.** `compare-and-set.ts` writes version 1 unconditionally
  and calls two concurrent creates of one id unrealistic, while order ids are derived from payments and
  keys exactly so that they collide. `Checkout.SafeIffCreatesAreChecked` and
  `DoorOrders.SoldOnceIffCreatesAreChecked`: the races are safe if and only if creates are checked.
* **A retried door sale may report an order that was never paid** (`DoorOrders.ReplayMayFindUnpaidOrder`),
  although the code says its guest has paid and walked in. In every run a retry finds the order paid exactly
  when the selling call is past its last save, the tickets exactly when it is past their issue, and the
  tickets claimed exactly when it is past the last claim (`DoorOrders.ReplayFindsIff`); after a call that
  returned the sale every retry finds all three (`DoorOrders.RetryAfterSaleFindsIt`).
* **One hold can become two orders** when two captured payments race over it: the conversion that the code
  calls the single point of contention is unconditional. From any state a payment can still become an order
  if and only if one of its calls is past the hold's status check or the hold is active for a captured payment
  of its total (`HoldRace.MayBecomeOrderIff`), so a hold is safe in every run if and only if the provider
  captured at most one payment of its total (`HoldRace.OneOrderIff`).
* **Couples can be split** by exactly the paths that claim one seat of the ticket without asking for the
  other: offline entries and manual check-in (`Door.CoupleEntersTogether`, `Door.SplitsCoupleIff`).
* **Reconciliation subtracts debits that are stored negative.** A clean wallet is reported as soon as it
  has a net debit (`Wallet.ReportedIff`, `Wallet.CleanWalletIsReported`); with magnitudes it would not be.
* **Opening credits overwrite each other** in the in-memory store, because they are created without an id;
  a balance matches its log only while its opening credit is on record (`Wallet.BalanceIsOnRecordIff`).
* **The per-user cap leaks in two places**: at the millisecond a hold expires, where it no longer counts and
  can still be confirmed (`Holds.ConfirmingAtExpiryBreaksCap`), and for a basket that names a tier twice, whose
  lines are checked one by one (`Holds.NamingATierTwiceBreaksCap`). A run keeps every cap if and only if each
  accepted basket, and each hold confirmed in that millisecond, still fits when counted as a whole
  (`Holds.RunKeepsCapsIff`); the baskets that are safe in every cart are named by `Holds.SafeBasketIff`.
* **A session expiring in the millisecond its code is revoked** is still accepted in it
  (`Sessions.AcceptedAfterRevocationIff`), and unbinding closes only a device's first hundred sessions
  (`Sessions.ClosedByUnbindingIff`).
* **Approvals are not consumed** by their execution (`Admins.ApprovalIsNeverSpent`): an approved provisioning
  can be executed again exactly while its person is no active admin, an approved role change exactly while its
  target exists and the last-super check lets it (`Admins.ProvisionedAgainIff`, `Admins.RoleChangedAgainIff`).
* **A confirmation whose device id contains a bar never verifies** (`Tokens.MintedTokenVerifiesIff`).
* **Monthly trends are always zero** (`Trends.MonthBucketsStayEmpty`), so a monthly chart accounts for its
  range if and only if that holds nothing (`Trends.MonthConservesIff`).
* **As many drains as a row has attempts empty the outbox only** while one listing reaches every pending row
  (`Outbox.CapDrainsSufficeIff`). The bus's comment that its dedupe survives restarts does not match its
  field, which lives in memory; the model follows the field.
* **The serializer confuses `[undefined]` with `[]`** and nothing else (`Canonical.TextDetermines`), so a value
  is told apart from every other one if and only if it contains neither (`Canonical.InjectiveAtIff`). JSON
  bodies contain no `undefined`, and among them it confuses nothing (`Canonical.PrintsAlikeIffSame`).

## Model

| member | source | states |
|---|---|---|
| Admission.AdmitSeats | packages/core/src/domain/models/entitlement.ts:293-346 | A claim of any number of seats takes all of them or none: it goes through exactly if the ticket is of this event, not void, has that many seats left, and stands at the expected count; and every refusal says why |
| Admission.SeatedSound | packages/core/src/domain/models/entitlement.ts:155-172 | A seated ticket never exceeds its allowance and is redeemed exactly when it is full |
| Admission.ScanEntitlementIff | packages/core/src/domain/models/entitlement.ts:155-172 | Admitting one person fails exactly on a void or a full ticket, and is otherwise seating one |
| Door.ClaimConserves | packages/core/src/infrastructure/memory/memory-repositories.ts:639-650 | An atomic claim moves seats from the ticket into a row still to be written, losing none |
| Door.RecordConserves | packages/core/src/application/door/scanner-service.ts:514-570 | Writing the row of a claim moves its seats into the ledger, losing none |
| Door.RunConserves | packages/core/src/application/door/scanner-service.ts:887-902 | In every run of scans, confirmations, offline entries, check-ins, sales, overrides and denials, in any interleaving and with crashes, a ticket's count is its consumed ledger seats plus the claims not yet written, and at most its allowance |
| Door.LedgerWithinAllowance | packages/core/src/application/door/door-ops-service.ts:657-692 | From an empty venue, whatever writers do, the ledger never shows more admissions on a ticket than the ticket allows |
| Door.OverridesAndDenialsAreInert | packages/core/src/application/door/scanner-service.ts:998-1018 | An override or a staff denial changes no ticket and no count of consumed seats |
| Door.RunMonotone | packages/core/src/domain/models/entitlement.ts:155-182 | Seats are never given back and a void ticket stays void and unmoved, over every run |
| Door.CoupleEntersTogether | packages/core/src/application/door/scanner-service.ts:849-887 | In every run, in any interleaving, with any replay of tokens, with door sales and whatever happens to other tickets and events, an unused couple ticket has count 0 or 2, never 1, as long as no offline entry and no manual check-in asks for a seat of this ticket at its event |
| Door.SplitsCoupleIff | packages/core/src/application/door/scanner-service.ts:1420-1483 | From an unused couple ticket, any step followed by the claim it started leaves the count at 1 if and only if it is an offline entry or a manual check-in for this ticket at its event |
| Door.SpentAdmitsNobody | packages/core/src/application/door/scanner-service.ts:1268-1271 | A ticket used up admits nobody in any later run, whatever is replayed |
| Door.ScanThenConfirmAdmitsBoth | packages/core/src/application/door/scanner-service.ts:1224-1282 | Scan, timely confirmation, claim and row admit exactly two and record two |
| Door.OnePersonIffSeat | packages/core/src/application/door/scanner-service.ts:887-902 | A scan of anything but an untouched couple, an offline entry or a manual check-in, carried through, lets exactly one person in and records it if the ticket exists, is of this event, is not void and has a seat left; otherwise no ticket moves and a denial is recorded, unless it was a manual check-in |
| Door.CoupleIsAskedFirst | packages/core/src/application/door/scanner-service.ts:849-886 | Scanning an untouched couple lets nobody in and mints exactly one confirmation, for both seats and thirty seconds |
| Door.ConfirmationIff | packages/core/src/application/door/scanner-service.ts:1224-1282 | A confirmation presented in time at its own event, session and device lets all its people in if staff confirmed and the ticket stands where it stood with the seats left, and is a denial otherwise; presented in any other way it does nothing |
| Door.SaleLetsItsGuestIn | packages/core/src/application/door/door-ticket-sale-service.ts:217-255 | A door sale lets the guest in on the ticket it has issued and uses it up |
| Door.UnreadableIsDenied | packages/core/src/application/door/scanner-service.ts:827-846 | What cannot be read admits nobody and is recorded as a denial without a ticket |
| Door.IssuedSeats | packages/core/src/domain/models/entitlement.ts:113-146 | A newly issued ticket has all its seats, at its event only, and is not issued again |
| Door.VoidedSeats | packages/core/src/domain/models/entitlement.ts:155-182 | A voided ticket has no seat anywhere, and no other ticket is touched |
| Door.DeniedThenOverridden | packages/core/src/application/door/scanner-service.ts:998-1018 | An override marks a denied row only, once, and counts at least one person on it |
| Offline.DoorStore.ClaimAdmission | packages/core/src/infrastructure/memory/memory-repositories.ts:639-650 | The claim of the store decides on the stored ticket and stores the outcome, or changes nothing |
| Offline.DoorStore.SyncOfflineScans | packages/core/src/application/door/scanner-service.ts:1420-1483 | A replay leaves the tickets and the ledger that its entries, taken one by one, lead to; one row per entry; synced plus conflicts equals the entries |
| Offline.SyncsMinimum | packages/core/src/application/door/scanner-service.ts:1420-1483 | With r seats left and k entries naming a ticket exactly min(r, k) are synced, whatever else is in the batch |
| Offline.OrderDoesNotMatter | packages/core/src/application/door/scanner-service.ts:1420-1483 | Any permutation of the entries syncs the same number on every ticket and leaves the same counts |
| Offline.ReportedTotalsAgree | packages/core/src/application/door/scanner-service.ts:1420-1483 | The reported synced total is the same for every permutation of the entries |
| Offline.BatchesDoNotMatter | packages/core/src/application/door/scanner-service.ts:1420-1483 | Splitting the entries over batches changes nothing about how many are synced |
| DoorOrders.SoldOnce | packages/core/src/application/door/door-ticket-sale-service.ts:148-283 | Whatever retries of one door sale race over a store that checks creates, tickets are issued, each is claimed and the sale is settled at most once, by the call that wrote the order first, and only on a paid order |
| DoorOrders.UncheckedSellsTwice | packages/core/src/infrastructure/firestore/compare-and-set.ts:20-35 | With unchecked creates two calls issue the same tickets twice |
| DoorOrders.SoldOnceIffCreatesAreChecked | packages/core/src/application/door/door-ticket-sale-service.ts:207-215 | No run sells twice if and only if the order store refuses a first version under a taken id |
| DoorOrders.ReplayMayFindUnpaidOrder | packages/core/src/application/door/door-ticket-sale-service.ts:150-162 | One such run: a retry after a call that stopped at its first save reports an order that was never paid and has no tickets |
| DoorOrders.ReplayFindsIff | packages/core/src/application/door/door-ticket-sale-service.ts:150-162 | In every run over a store that checks creates, a retry that looks up the order finds one exactly if it was written, and paid exactly if its seller is past the last save; one that then reads the tickets finds them exactly if the seller is past their issue; and each has been claimed exactly if it is past the last claim |
| DoorOrders.RetryAfterSaleFindsIt | packages/core/src/application/door/door-ticket-sale-service.ts:148-162 | Once a call returned the sale, whatever else runs, every call made afterwards finds the order paid and its tickets issued, all of them claimed |
| DoorOrders.LoneSaleCompletes | packages/core/src/application/door/door-ticket-sale-service.ts:148-283 | A sale that nobody races is completed with either store: paid, its tickets issued, each of them claimed, and settled |
| DoorOrders.LostSaveStops | packages/core/src/application/door/door-ticket-sale-service.ts:207-215 | A call that finds the next version already written stops and changes nothing |
| Checkout.RunPaid | packages/core/src/application/checkout/checkout-service.ts:442-454 | In every run, with either store, nothing is fulfilled and no order handed on that the provider did not capture in full |
| Checkout.OthersAgree | packages/core/src/application/checkout/checkout-service.ts:493-511 | A step of one caller never contradicts what another caller holds, over a store that checks creates |
| Checkout.WorkAdvances | packages/core/src/application/checkout/checkout-service.ts:512-541 | The fulfilment done is always exactly as far as the order's creator has got |
| Checkout.ConfirmedOnce | packages/core/src/application/checkout/checkout-service.ts:390-542 | For any number of callers in any interleaving: one order, its creator alone converts the hold, redeems, issues and settles, nothing twice, and everyone who returns returns that order, paid for in full |
| Checkout.LoneCallerIsAnswered | packages/core/src/application/checkout/checkout-service.ts:390-542 | Whatever is stored and captured: a lone caller that reads an active hold at any time up to its expiry, with a payment captured for its total, returns an order of that total with all work done and the hold converted; read after the expiry the hold is released; otherwise nothing changes, and the caller is told which it was |
| Checkout.CreatorFinishes | packages/core/src/application/checkout/checkout-service.ts:512-542 | In any state whatsoever the creator of an order, if it goes on, does all the work in order and returns its order |
| Checkout.LateCallerReturnsIt | packages/core/src/application/checkout/checkout-service.ts:402-426 | Once there is an order, a caller that looks it up, finds the hold converted or loses the save returns that order and changes nothing |
| Checkout.UncheckedConfirmsTwice | packages/core/src/infrastructure/firestore/compare-and-set.ts:20-35 | When first versions are written unchecked, two callers both convert the hold |
| Checkout.SafeIffCreatesAreChecked | packages/core/src/application/checkout/checkout-service.ts:493-511 | Every interleaving is safe if and only if the order store checks its creates |
| Checkout.OnlyPaidOrdersReturn | packages/core/src/application/checkout/checkout-service.ts:442-454 | With either store an order returned, or any work done, was captured for exactly its total |
| Checkout.OrderNeverReplaced | packages/core/src/infrastructure/memory/memory-repositories.ts:52-64 | Over a checking store the first order written under a payment is never replaced |
| HoldRace.MayBecomeOrderIff | packages/core/src/application/checkout/checkout-service.ts:413-512 | Several payments over one hold, with either store: from any state some run turns the hold into an order for a payment that has none if and only if one of its calls is past the status check, or the hold is active and the provider captured its total |
| HoldRace.OneOrderIff | packages/core/src/application/checkout/checkout-service.ts:408-512 | In every run the hold becomes at most one order if and only if the provider captured at most one payment of its total |
| HoldRace.OrdersSettle | packages/core/src/application/checkout/checkout-service.ts:413-428 | Once the hold is no longer active and no call is past the check, no run adds or removes an order |
| HoldRace.ActiveHoldSaves | packages/core/src/application/checkout/checkout-service.ts:427-512 | A fresh call for a payment captured in full saves its order at any time up to the expiry of an active hold |
| HoldRace.ExpiredHoldIsReleased | packages/core/src/application/checkout/checkout-service.ts:429-432 | After the expiry the first call that reads the hold releases it and saves nothing |
| HoldRace.ConvergesOnOrder | packages/core/src/application/checkout/checkout-service.ts:418-426 | A call that finds the hold converted returns the order it was converted to, whatever its own payment |
| Holds.CheckoutService.CreateHold | packages/core/src/application/checkout/checkout-service.ts:130-219 | A repeated key finds its hold; otherwise the hold is refused exactly if some line exceeds its tier's cap with what the user holds and owns, and stored if not |
| Holds.CheckoutService.ConfirmPayment | packages/core/src/application/checkout/checkout-service.ts:390-512 | A confirmation turns the hold into a paid order of the same lines, releases it if it is past its expiry, or changes nothing; a used payment and a converted hold answer with their order, and every refusal is characterised |
| Holds.ConfirmIff | packages/core/src/application/checkout/checkout-service.ts:402-512 | On the fields: an order is added exactly for a captured, unused payment of an active hold that is not past its expiry; a hold that is past it is released; nothing else changes anything |
| Holds.OneHoldMore | packages/core/src/infrastructure/memory/memory-repositories.ts:505-516 | Exactly the active holds of the user at the event that have not reached their expiry count, with all they hold of the tier |
| Holds.OneOrderMore | packages/core/src/application/checkout/checkout-service.ts:186-190 | Exactly the paid orders of the user at the event count, with all they order of the tier |
| Holds.ReleaseAndRefundFree | packages/core/src/infrastructure/memory/memory-repositories.ts:467-470 | A released hold and a refunded order stop counting, and nothing else changes its count |
| Holds.UncappedIsNotRefused | packages/core/src/application/checkout/checkout-service.ts:178 | A tier without a cap, or with a cap of zero, refuses nothing |
| Holds.ReserveKeepsCap | packages/core/src/application/checkout/checkout-service.ts:170-196 | A hold naming each tier once keeps paid plus held tickets of every tier within its cap |
| Holds.StrictExpiryKeepsCap | packages/core/src/application/checkout/checkout-service.ts:170-219 | If confirmation stopped at the expiry, every run of holds, confirmations, releases, sweeps and refunds would keep every user within the cap |
| Holds.TimelyRunsKeepCap | packages/core/src/application/checkout/checkout-service.ts:410-432 | The code keeps every user within the cap over every run in which no confirmation lands on the very millisecond a hold expires |
| Holds.ConfirmingAtExpiryBreaksCap | packages/core/src/application/checkout/checkout-service.ts:429-432 | At that millisecond the old hold no longer counts and can still be confirmed: a run that exceeds a cap of one |
| Holds.RunKeepsCapsIff | packages/core/src/application/checkout/checkout-service.ts:170-432 | For every run, whatever its baskets and times, the clock not running backwards: no moment finds any user above a cap if and only if each accepted basket and each hold confirmed in its expiry millisecond fitted as a whole when the call was made |
| Holds.AcceptedKeepsCapsIff | packages/core/src/application/checkout/checkout-service.ts:175-195 | An accepted basket keeps the caps if and only if held plus paid plus the whole basket fits for every tier it names |
| Holds.ConfirmedAtExpiryKeepsCapsIff | packages/core/src/application/checkout/checkout-service.ts:429-432 | A payment confirmed in the millisecond its hold expires keeps the caps if and only if held plus paid plus the hold's tickets fit |
| Holds.OtherConfirmationsKeepCaps | packages/core/src/application/checkout/checkout-service.ts:402-432 | No other confirmation takes a user above a cap |
| Holds.SafeBasketIff | packages/core/src/application/checkout/checkout-service.ts:175-195 | The baskets that keep every cap whatever the user holds and owns are exactly those no cart accepts and those that order no capped tier on two lines |
| Holds.ConvertedHoldFindsItsOrder | packages/core/src/application/checkout/checkout-service.ts:413-426 | In every run a converted hold names an order for its own buyer, event and lines, so a second confirmation under whatever payment finds that order |
| Outbox.DrainMakesProgress | packages/core/src/application/events/event-bus.ts:68-121 | Without new appends, a drain of an outbox with pending rows strictly lowers the attempts left over all pending rows |
| Outbox.EnoughDrainsEmptyTheOutbox | packages/core/src/application/events/event-bus.ts:68-121 | As many drains as attempts are left leave nothing pending, whatever the handlers do |
| Outbox.CapDrainsSuffice | packages/core/src/infrastructure/memory/memory-outbox-store.ts:55-60 | If one listing reaches every pending row, no row survives as many drains as a row has attempts |
| Outbox.FailingChain | packages/core/src/infrastructure/memory/memory-outbox-store.ts:55-60 | With more pending rows than one listing returns there are failing drains that leave a row untouched |
| Outbox.CapDrainsSufficeIff | packages/core/src/application/events/event-bus.ts:68-121 | That many drains are guaranteed to empty a fresh outbox if and only if no more rows are pending than one listing returns |
| EventBus.MemoryOutboxStore.Append | packages/core/src/infrastructure/memory/memory-outbox-store.ts:20-32 | A new event is pending at the end; an id appended again restarts its row in place |
| EventBus.MemoryOutboxStore.BumpAttempts | packages/core/src/infrastructure/memory/memory-outbox-store.ts:47-53 | An attempt is counted, and the store itself fails the row at its limit |
| EventBus.MemoryOutboxStore.List | packages/core/src/infrastructure/memory/memory-outbox-store.ts:55-60 | Lists the first hundred pending rows: in order of insertion, nothing left out that stands before a listed row, and all of them if they are fewer |
| Outbox.ListableInOrder | packages/core/src/infrastructure/memory/memory-outbox-store.ts:55-60 | Of two listable rows the one inserted first is listed first |
| Outbox.ListingIsTheFront | packages/core/src/infrastructure/memory/memory-outbox-store.ts:55-60 | A listing is the front of what is listable: nothing overtakes |
| EventBus.InProcessEventBus.Subscribe | packages/core/src/application/events/event-bus.ts:57-66 | A handler is added once per type and remembers what it has already handled |
| EventBus.InProcessEventBus.Append | packages/core/src/application/events/event-bus.ts:39-43 | While a drain is under way an appended event only waits in the outbox; otherwise it is drained at once |
| EventBus.InProcessEventBus.Handle | packages/core/src/application/events/event-bus.ts:104-106 | The handler is called once and its outcome is the answer; whatever it appends lands in the outbox and nothing else changes |
| EventBus.InProcessEventBus.DispatchRow | packages/core/src/application/events/event-bus.ts:84-121 | Every handler of the type that has not succeeded on the event is called, in the order of subscription, and no other; the row counts as handled exactly if all have succeeded; what handlers append meanwhile is kept, and the row is settled accordingly |
| EventBus.InProcessEventBus.Drain | packages/core/src/application/events/event-bus.ts:68-82 | Non-reentrant; calls, for each listed row in turn, every handler of its type that has not succeeded on it; settles every listed row that was not appended again and no other, and returns how many of them reached all their handlers; a handler counts as having succeeded exactly if one of its calls did |
| EventBus.AtMostOnce | packages/core/src/application/events/event-bus.ts:98-109 | In every reachable state a handler has succeeded at most once per event id, and has been called for a row no more often than a row has attempts |
| EventBus.FateOfListedRow | packages/core/src/application/events/event-bus.ts:111-121 | After a drain a listed row is processed exactly if all handlers of its type have succeeded on it, dead-lettered exactly if not and its last attempt is used up, and else pending with one attempt less |
| EventBus.QuietDrain | packages/core/src/application/events/event-bus.ts:68-82 | A drain in which no handler appends is one drain of the outbox, so the termination results hold of it |
| EventBus.HandlerKeyInjective | packages/core/src/application/events/event-bus.ts:123-131 | Two subscriptions share a dedupe set only if they are the same handler on the same event type, whatever the types and names contain |
| Canonical.PrintsAlikeIffSame | apps/api-gateway/src/lib/v2-idempotency.ts:73-82 | Two values without an array `[undefined]` print the same text if and only if they are equal up to object key order at every depth (section 3 of RFC 8259 for the text) |
| Canonical.EscapeCancel | apps/api-gateway/src/lib/v2-idempotency.ts:73-82 | Escaped strings can be read back: two quoted texts agree only on equal strings, lone surrogates included |
| Canonical.EscapeUnitIff | apps/api-gateway/src/lib/v2-idempotency.ts:73-82 | What `JSON.stringify` escapes and how (section 7 of RFC 8259): quotation mark, backslash, controls and surrogates, by the short escape that stands for them or by the four hexadecimal digits of their value |
| Canonical.PairsStayWhole | apps/api-gateway/src/lib/v2-idempotency.ts:73-82 | A surrogate is left alone exactly if it is half of a pair |
| Canonical.TextDetermines | apps/api-gateway/src/lib/v2-idempotency.ts:73-82 | For all values, what the text determines: the value up to key order and with every `[undefined]` array read as empty |
| Canonical.InjectiveAtIff | apps/api-gateway/src/lib/v2-idempotency.ts:73-82 | A value is told apart from every other value if and only if no array in it is empty or exactly `[undefined]` |
| Canonical.ReorderedFieldsPrintAlike | apps/api-gateway/src/lib/v2-idempotency.ts:58-61 | A retry that reorders fields prints the same text |
| Canonical.HashesAgreeIff | apps/api-gateway/src/lib/v2-idempotency.ts:62-70 | Two requests are the same to the idempotency store exactly if method, path, path parameters and body agree, whatever queries follow the paths |
| Canonical.BeforeQueryIsPath | apps/api-gateway/src/lib/v2-idempotency.ts:67 | What is kept of a url is its path: everything before the first question mark |
| RateLimit.RateLimiter.Touch | apps/api-gateway/src/plugins/rate-limit.ts:81-92 | A touched key becomes the last one; a full map loses its first key, and only when the touched key was not in it |
| RateLimit.RateLimiter.Hit | apps/api-gateway/src/plugins/rate-limit.ts:97-129 | A request is admitted exactly if fewer hits than the limit are inside the window, and the map changes accordingly |
| RateLimit.PrunedAgreesWithHistory | apps/api-gateway/src/plugins/rate-limit.ts:104 | The pruned list filtered to the window equals the whole history filtered to it |
| RateLimit.HitKeepsBoth | apps/api-gateway/src/plugins/rate-limit.ts:103-127 | After any request the pruned list still agrees with the history, and any limit+1 accepted hits in a row span a window |
| RateLimit.EveryWindowIsWithinBudget | apps/api-gateway/src/plugins/rate-limit.ts:97-129 | With a clock that never runs backwards, every window of the class's length, wherever it ends, holds at most the limit of accepted hits of a key since it was inserted |
| RateLimit.EvictionIsLeastRecentlyTouched | apps/api-gateway/src/plugins/rate-limit.ts:81-94 | In every reachable state the map is bounded, a tracked or fitting key evicts nobody, and otherwise exactly one key goes, none touched longer ago |
| RateLimit.AdvertisedWaitSuffices | apps/api-gateway/src/plugins/rate-limit.ts:106-125 | A refused caller who returns after the advertised seconds is admitted, whatever other keys do in between, evictions included |
| RateLimit.ShorterWaitIsRefused | apps/api-gateway/src/plugins/rate-limit.ts:108-111 | No shorter wait would do, and the advertised seconds are the fewest whole ones that suffice |
| RateLimit.KeyTextDeterminesKey | apps/api-gateway/src/plugins/rate-limit.ts:137-147 | Keys of different classes never collide, whatever the parts contain, so a bucket meets one budget only |
| Wallet.CoverWallets.CreateWallet | packages/core/src/application/cover-wallet/cover-wallet-service.ts:323-373 | Refused exactly for a foreign or missing event or an existing wallet; else the wallet starts with its opening balance and an opening credit is filed |
| Wallet.CoverWallets.CreditWallet | packages/core/src/application/cover-wallet/cover-wallet-service.ts:435-478 | Refused for a missing, foreign or inactive wallet; a used key changes nothing; else balance and log move together |
| Wallet.CoverWallets.DebitWallet | packages/core/src/application/cover-wallet/cover-wallet-service.ts:480-535 | The same for a debit, which is also refused over the velocity limits or the balance, and terminates the wallet exactly if it empties it |
| Wallet.GuardIff | packages/core/src/application/cover-wallet/cover-wallet-service.ts:435-445 | Money moves only on an existing, active wallet of the organization, and the refusal says which is missing |
| Wallet.DebitGoesThroughIff | packages/core/src/application/cover-wallet/cover-wallet-service.ts:480-510 | A new debit goes through exactly for an active wallet of the organization that can pay, if its device has made fewer than three in each window that is checked |
| Wallet.TwoDebitsGoThrough | packages/core/src/application/cover-wallet/cover-wallet-service.ts:480-535 | Two debits under different keys, together within the balance and not too fast, both go through |
| Wallet.CoverWallets.RefundWallet | packages/core/src/application/cover-wallet/cover-wallet-service.ts:537-578 | The same for a refund |
| Wallet.CoverWallets.AdjustWallet | packages/core/src/application/cover-wallet/cover-wallet-service.ts:580-624 | The same for a signed adjustment, refused if it would make the balance negative |
| Wallet.CoverWallets.ChargePreset | packages/core/src/application/cover-wallet/cover-wallet-service.ts:1112-1147 | The amount charged is the venue's price of an available item within the wallet's bounds, never the caller's, and never more than the balance |
| Wallet.PriceIff | packages/core/src/domain/models/cover-wallet.ts:74-100 | A charge has a price exactly if the first item of its id is available, at least one is taken and the sum is within the bounds and a safe integer; the price is that sum |
| Wallet.FindItemIff | packages/core/src/domain/models/cover-wallet.ts:74-81 | The first item of an id is found, and nothing only if there is none |
| Wallet.CoverWallets.SetStatus | packages/core/src/application/cover-wallet/cover-wallet-service.ts:626-695 | Freezing needs an active wallet, unfreezing a frozen one, terminating one that has not ended; balances stay |
| Wallet.PostKeepsAccounts | packages/core/src/infrastructure/memory/memory-cover-wallet-repository.ts:132-293 | Every wallet's balance stays non-negative and equals its opening balance plus all later committed transactions |
| Wallet.FreshKeyStaysUnique | packages/core/src/application/cover-wallet/cover-wallet-service.ts:447-453 | A posting under a key that was not used before leaves every key used at most once; each operation on a wallet keeps that, so a key moves money at most once |
| Wallet.PostKeepsUnhurried | packages/core/src/application/cover-wallet/cover-wallet-service.ts:492-502 | A debit that passed the check of its minute, and any other transaction, keeps a log in which every debit by a device did; every operation of the service and of the door keeps such a log |
| Velocity.EveryMinuteIff | packages/core/src/application/cover-wallet/cover-wallet-service.ts:492-502 | On a clock that does not run backwards, checking each debit against the minute before it is exactly keeping every closed minute, wherever it begins, within three debits per device; with any clock the check keeps it |
| Wallet.BalanceIsOnRecordIff | packages/core/src/infrastructure/memory/memory-cover-wallet-repository.ts:434-437 | A balance equals the signed sum of its transactions on record if and only if its opening credit is still among them or was zero |
| Wallet.NewestIsOnRecord | packages/core/src/application/cover-wallet/cover-wallet-service.ts:347-366 | Opening credits are filed without an id, so in the shared slot only the newest wallet's is on record |
| Wallet.CoverWallets.SumPage | packages/core/src/application/cover-wallet/cover-wallet-service.ts:804-829 | One wallet's expected balance and period sums are those of its committed transactions |
| Wallet.PageIsFront | packages/core/src/application/cover-wallet/cover-wallet-service.ts:803 | Reconciliation reads the front of the log of a wallet, all of it up to ten thousand transactions |
| Wallet.CoverWallets.RunReconciliation | packages/core/src/application/cover-wallet/cover-wallet-service.ts:802-850 | The report names, in order, exactly the selected wallets whose balance is not the expected one, with the period totals |
| Wallet.MismatchIff | packages/core/src/application/cover-wallet/cover-wallet-service.ts:831-843 | A wallet is in the report if and only if it was selected with a balance that is not the expected one |
| Wallet.Discrepancy | packages/core/src/application/cover-wallet/cover-wallet-service.ts:804-832 | How far a reachable balance is from the expected one: lost opening credit plus adjustments plus twice the negative debits |
| Wallet.ReportedIff | packages/core/src/application/cover-wallet/cover-wallet-service.ts:820-832 | A reachable wallet whose transactions fit one page is reported if and only if that sum is not zero; so with debits stored negative, as both adapters do, any net debit makes a clean wallet a mismatch |
| Wallet.MagnitudesReconcile | packages/core/src/application/cover-wallet/cover-wallet-service.ts:802-850 | With debits stored as magnitudes, opening credits filed one by one and no adjustment, a run reports nothing on any reachable state |
| Wallet.CleanWalletIsReported | packages/core/src/infrastructure/memory/memory-cover-wallet-repository.ts:220-229 | The stores as shipped: a wallet opened with 500 and charged 100 is reported with 600 expected and 400 actual |
| DoorSales.DoorService.CreateSale | packages/core/src/application/door/door-service.ts:121-253 | A repeated key returns its sale; else the sale is stored and the seller's active wallet debited exactly if it can pay, which the log then shows |
| DoorSales.DoorService.VoidSale | packages/core/src/application/door/door-service.ts:276-312 | Only an open sale; gives back exactly what the log says was debited, if an active wallet is there to take it |
| DoorSales.DoorService.RefundSale | packages/core/src/application/door/door-service.ts:314-359 | Only an open sale and at most its amount; gives back at most what was debited |
| DoorSales.RefundKeepsRepaidIff | packages/core/src/application/door/door-service.ts:255-274 | A refund that names a sale, posted at the door or at the wallet desk, keeps every sale within what it took if and only if returned plus amount is within the debit, and an open sale is given nothing; `refundWallet` does not check this |
| DoorSales.OtherTrafficKeepsRepaid | packages/core/src/application/door/door-service.ts:255-268 | Any other wallet transaction that is not a refund naming a sale, whoever posts it, leaves that true |
| DoorSales.DoorService.NeverMintsBalance | packages/core/src/application/door/door-service.ts:255-274 | Over any run of door sales, voids and refunds a sale never gives back more than was debited for it, and nothing if its debit was skipped; a wallet-desk refund naming the sale is outside this |
| Sessions.ScannerService.OpenSession | packages/core/src/application/door/scanner-service.ts:674-748 | Refused for an unknown, foreign, inactive or expired code or a full one; replaces the device's own session; else one more session |
| Sessions.OpensIff | packages/core/src/application/door/scanner-service.ts:674-713 | A session is opened exactly under a code of this organization and event that is active, has not run out and has room or the device already |
| Sessions.OpenedSessionWorks | packages/core/src/application/door/scanner-service.ts:714-748 | In every run the session opened lets a bound device scan for twelve hours and not longer, and not at all without the permission |
| Sessions.CreatedCodeOpens | packages/core/src/application/door/scanner-service.ts:591-628 | A new code opens a session on any device |
| Sessions.EndedSessionIsOut | packages/core/src/application/door/scanner-service.ts:769-790 | An ended session is out at once, and every other session stays as it was |
| Sessions.GateOpensIff | packages/core/src/application/door/scanner-service.ts:750-811 | The gate of scans, confirmations and denials opens exactly for an unrevoked session that has not run out, of this event and organization, that may scan, on a device that is on |
| Sessions.DeviceIsOnIff | packages/core/src/application/door/scanner-service.ts:1063-1154 | In every run binding turns on any device but one that was turned off, and reauthorizing every stored one, and no other device is touched |
| Sessions.ScannerService.RevokeSession | packages/core/src/application/door/scanner-service.ts:769-790 | Revokes one session of the caller's organization |
| Sessions.ScannerService.RevokeEventCode | packages/core/src/application/door/scanner-service.ts:631-661 | Revokes the code and exactly the sessions it has live |
| Sessions.ScannerService.BindDevice | packages/core/src/application/door/scanner-service.ts:1063-1100 | Binds a new or active device; one that was unbound is refused |
| Sessions.ScannerService.UnbindDevice | packages/core/src/application/door/scanner-service.ts:1168-1199 | Turns the device off and closes its sessions on one page of a hundred |
| Sessions.ScannerService.ReauthorizeDevice | packages/core/src/application/door/scanner-service.ts:1127-1154 | Turns a stored device on again |
| Sessions.OneLiveSessionPerDevice | packages/core/src/application/door/scanner-service.ts:700-706 | Over any run of serial calls a code has at most one live session per device |
| Sessions.DeviceCapHolds | packages/core/src/application/door/scanner-service.ts:700-709 | Over any run of serial calls a code without reuse has at most its number of devices live |
| Sessions.RevokedCodeStaysClosed | packages/core/src/application/door/scanner-service.ts:636-648 | Once a code is revoked it has no live session at any later time, whatever is called |
| Sessions.AcceptedAfterRevocationIff | packages/core/src/infrastructure/memory/memory-event-code-repository.ts:182-187 | Right after a revocation a session of the code is still accepted if and only if it was and expires in that very millisecond |
| Sessions.UnboundDeviceStaysOut | packages/core/src/application/door/scanner-service.ts:361-371 | After a device is unbound every check that scans, confirmations and denials begin with fails on it, until it is reauthorized |
| Sessions.OnlyReauthorizingLetsBackIn | packages/core/src/application/door/scanner-service.ts:1067-1072 | Binding an unbound device does not turn it on; reauthorizing does |
| Sessions.ClosedByUnbindingIff | packages/core/src/application/door/scanner-service.ts:1179-1185 | Unbinding closes an accepted session if and only if it is of this organization, on the device, and has fewer than a hundred sessions of the device before it |
| Admins.AdminAuthorityService.Propose | packages/core/src/domain/models/admin-authority.ts:199-222 | Exactly an active admin who may initiate a tier-3 action, with a reason, raises a proposal |
| Admins.MayInitiateIff | packages/core/src/domain/models/admin-authority.ts:26-110 | Supers may initiate everything, admins, ops and finance everything but the five actions under dual control, support only pausing and resuming events |
| Admins.BlankIff | packages/core/src/domain/models/admin-authority.ts:199-222 | A reason is refused exactly if it holds nothing but white space |
| Admins.AdminAuthorityService.Resolve | packages/core/src/domain/models/admin-authority.ts:231-253 | Exactly a pending proposal, by another active admin who may initiate it |
| Admins.AdminAuthorityService.Cancel | packages/core/src/domain/models/admin-authority.ts:270-282 | Exactly a pending proposal, by its proposer |
| Admins.AdminAuthorityService.ProvisionAdmin | packages/core/src/application/admin/admin-authority-service.ts:271-312 | Exactly an approved provisioning executed by an active super for someone who is no active admin; all details are the proposal's |
| Admins.RoleFieldIff | packages/core/src/application/admin/admin-authority-service.ts:414-450 | A role is read from a proposal exactly where its name was written as text |
| Admins.TextFieldIff | packages/core/src/application/admin/admin-authority-service.ts:414-450 | Any other field is read exactly where a text that is not empty was written |
| Admins.GranteeIff | packages/core/src/application/admin/admin-authority-service.ts:414-450 | A provisioning grants to the person it names if it also has an email, a role change to its target, and nothing else grants anything |
| Admins.AdminAuthorityService.UpdateAdminRole | packages/core/src/application/admin/admin-authority-service.ts:319-363 | Exactly an approved role change executed by an active super, and no demotion of a super unless the page counted shows two |
| Admins.AdminAuthorityService.RevokeAdmin | packages/core/src/application/admin/admin-authority-service.ts:370-399 | Exactly by another active super; the caller stays one |
| Admins.AnotherSuper | packages/core/src/application/admin/admin-authority-service.ts:342-348 | Two active supers on one page, whichever admins it shows, leave one besides the demoted, so no run of calls ends without an active super |
| Admins.CountSupersIs | packages/core/src/application/admin/admin-authority-service.ts:342-348 | The number compared is that of the active supers on the page |
| Admins.AdminAuthorityService.RolesTraceToApprovals | packages/core/src/application/admin/admin-authority-service.ts:271-363 | In every reachable state a role that is not an original one is what an approved proposal of the matching action says, resolved by someone other than its proposer |
| Admins.ApprovalIsNeverSpent | packages/core/src/domain/models/admin-authority.ts:284-287 | The plainest case: who provisioned and revoked an admin can provision them again alone |
| Admins.ProvisionedAgainIff | packages/core/src/domain/models/admin-authority.ts:284-287 | An approved provisioning can be executed again at any later time exactly by an active super while the person it names is no active admin |
| Admins.RoleChangedAgainIff | packages/core/src/domain/models/admin-authority.ts:284-287 | An approved role change can be executed again at any later time, undoing newer ones, exactly by an active super while the target is stored and, for a demoted super, the page shows another |
| Tokens.SplitJoin | packages/core/src/application/door/scanner-service.ts:438-440 | Splitting undoes joining fields that do not contain the separator |
| Tokens.ParseIntOfDecimal | packages/core/src/application/door/scanner-service.ts:480-481 | Parsing what was printed gives the number back |
| Tokens.ParseIntReads | packages/core/src/application/door/scanner-service.ts:480-481 | White space, at most one sign and some digits are read as the number the digits write, whatever follows; without a digit there nothing is read |
| Tokens.BareIff | packages/core/src/application/door/scanner-service.ts:474-478 | A payload is taken for a bare ticket id unless it has exactly three parts and none is empty |
| Tokens.OpaqueIdIsItself | packages/core/src/application/door/scanner-service.ts:466-478 | A ticket id without a colon is read as itself |
| Tokens.MintedQrDecodesIff | packages/core/src/application/door/scanner-service.ts:474-495 | A minted ticket QR decodes to its own id exactly while the current window is within two of the minting |
| Tokens.MintedQrLasts | packages/core/src/application/door/scanner-service.ts:474-495 | In milliseconds, whatever the phase of the windows, a minted QR decodes to its own id at every age up to a minute and at none from a minute and a half on |
| Tokens.MintedQrBetween | packages/core/src/application/door/scanner-service.ts:474-495 | At every age in between some QR still decodes and some no longer does |
| Tokens.AcceptedQrWasMinted | packages/core/src/application/door/scanner-service.ts:483-494 | With the keyed hash (RFC 2104) idealised as injective, an accepted payload names the ticket its signature was minted for, from 60 seconds ahead to 90 behind |
| Tokens.SignatureUsableIff | packages/core/src/application/door/scanner-service.ts:483-493 | For exactly that span some payload with a minted signature is accepted |
| Tokens.PurposesAreDisjoint | packages/core/src/application/cover-wallet/cover-wallet-service.ts:1005-1014 | Ticket, wallet and confirmation signatures are never interchangeable |
| Tokens.BarFreeIff | packages/core/src/application/door/scanner-service.ts:439-440 | A confirmation body splits into its seven fields exactly if no field contains a bar |
| Tokens.MintedTokenVerifiesIff | packages/core/src/application/door/scanner-service.ts:398-461 | A minted confirmation yields exactly its claims until it expires if and only if no field contains a bar, and else nothing |
| Tokens.AcceptedTokenWasMinted | packages/core/src/application/door/scanner-service.ts:429-461 | Any accepted token with the signature of a minted one yields the minted claims |
| Calendar.CivilAscends | packages/core/src/application/analytics/analytics-service.ts:127-130 | Later days have later dates |
| Calendar.CivilIff | packages/core/src/application/analytics/analytics-service.ts:127-130 | The n-th day has exactly the date that the Gregorian rule of leap years gives it |
| Calendar.UnixEpoch | packages/core/src/application/analytics/analytics-service.ts:77 | 1 January 1970 is the day it should be |
| Calendar.DayTextOrder | packages/core/src/application/analytics/analytics-service.ts:76 | Day texts compare as strings the way their dates compare |
| Trends.BuildRange | packages/core/src/application/analytics/analytics-service.ts:71-97 | Reversed bounds are swapped and the keys are those of the clamped range from the earlier one |
| Trends.KeysAscend | packages/core/src/application/analytics/analytics-service.ts:90-97 | At every granularity the keys are strictly increasing and distinct |
| Trends.BucketMatchesIff | packages/core/src/application/analytics/analytics-service.ts:85-94 | A bucket has the key of an instant exactly if it is the hour or day of that instant |
| Trends.KeyInRangeIff | packages/core/src/application/analytics/analytics-service.ts:85-97 | For hours and days an instant is counted in some bucket exactly if it lies in the range |
| Trends.CoversUnlessClamped | packages/core/src/application/analytics/analytics-service.ts:86-97 | At every granularity the last key is that of the later bound, its last hour or its month, exactly when no more than 400 buckets were needed |
| Trends.CountOrders | packages/core/src/application/analytics/analytics-service.ts:224-232 | Every captured order lands in the bucket of its instant and nothing else changes |
| Trends.CountCheckIns | packages/core/src/application/analytics/analytics-service.ts:238-243 | Every scan of every ticket lands in the bucket of its instant |
| Trends.OneOrderMore | packages/core/src/application/analytics/analytics-service.ts:224-232 | One more order adds nothing unless its payment was captured, and then its total less what went back, and its tickets |
| Trends.OneLineMore | packages/core/src/application/analytics/analytics-service.ts:224-232 | An order holds the sum of its quantities |
| Trends.OneTicketMore | packages/core/src/application/analytics/analytics-service.ts:238-243 | One more ticket adds a check-in at each of its scans |
| Trends.SumTotals | packages/core/src/application/analytics/analytics-service.ts:251-263 | The totals count every captured order and every scan |
| Trends.GetTrends | packages/core/src/application/analytics/analytics-service.ts:201-265 | The series as a whole: keys, bucket contents and totals |
| Trends.BucketsConserve | packages/core/src/application/analytics/analytics-service.ts:224-263 | For any distinct keys the buckets and what falls outside them add up to the total |
| Trends.TrendsConserve | packages/core/src/application/analytics/analytics-service.ts:201-265 | For hours and days the buckets sum to exactly what lies in the range, and with what lies outside to the reported total, for each of the three measures |
| Trends.MonthBucketsStayEmpty | packages/core/src/application/analytics/analytics-service.ts:85-94 | At month granularity every bucket stays zero whatever was sold, because the keys have the form YYYY-MM and instants are counted under YYYY-MM-DD |
| Trends.MonthConservesIff | packages/core/src/application/analytics/analytics-service.ts:85-94 | At month granularity the buckets account for a range if and only if what lies in it adds up to nothing |

## Left out

Assumptions the model makes:

- Numbers are unbounded integers: amounts, counts and epoch milliseconds; NaN, fractions and rounding beyond 2^53 do not occur. A printed number has no exponent form.
- The keyed hash is an injective function parameter, and base64url with UTF-8 a function with a left inverse; SHA-256 ids are opaque and do not collide.
- Clocks are parameters. Where a result needs a clock that never runs backwards, it says so.
- Ids minted at random are new: wallet, sale, proposal, code and session ids are not yet in use, and no client has used `wallet-open-<id>` as a key.
- Each storage call is atomic; everything between two awaited calls is one step. The claim of a ticket is the in-memory adapter's, which the Firestore transaction mirrors.
- Racing confirmations in `checkout.dfy` are for one payment and its hold. Several payments over one hold are the subject of `hold_race.dfy`, which takes everything after the conversion as one step.
- In `door_orders.dfy` a claim is an attempt: whether the ticket lets its guest in is decided in `door.dfy`, and the sale goes on after a refusal. Issuing the tickets is one step.
- Session, wallet, hold, door sale and admin calls are serial; their checks are check-then-act in the code.
- `listPending` and the session page of an unbinding return rows in order of insertion, as the in-memory adapters do.

Contracts that state less than the code or its comments promise:

- DoorSales.OtherTrafficKeepsRepaid: leaves out refunds that name a sale, which `refundWallet` accepts; what they do is `DoorSales.RefundKeepsRepaidIff`.
- Wallet.CoverWallets.ChargePreset: names the new wallets and not which refusal is reported first, because the order of its checks is the method's own text.
- Wallet.CoverWallets.RunReconciliation: takes the selected wallets as a list instead of choosing them by wallet, user or first page of the event; the one report per day is not modelled.
- Admins.AdminAuthorityService.UpdateAdminRole: takes the first page of admins as any list without repetition, so that the result does not depend on the storage's order.
- EventBus.InProcessEventBus.Drain: handlers do not subscribe others or call the bus's mark and bump operations while it runs, and one outcome per call stands for all a handler may do.
- Offline.DoorStore.SyncOfflineScans: takes each entry's decoded ticket; decoding is `Tokens.DecodeQr`.
- Trends.GetTrends: bounds are valid dates from the year 100, since before it `Date.UTC` reads years 0 to 99 as 1900 to 1999 when months are added, to the year 10000 less the longest range; the fallback for unparseable bounds is not modelled.
- Trends.BuildRange: the same bounds.
- Holds.CheckoutService.ConfirmPayment: takes the provider's answer as one flag; an unknown payment, an uncaptured one and a wrong amount are told apart in `checkout.dfy`.
- Holds.CheckoutService.CreateHold: inventory, promo codes and pricing are not modelled, and neither are buyers without an identity.

Not modelled:

- Liveness: a payment whose creator crashed after the save is never completed, and the model claims no more than the code does.
- RSVP orders, quotes, settlement splits, commissions and leaderboards.
- Attendance report, guest list, shift start, geofencing, event cards, calendar grid and overview ratios: sums and filters without an invariant across calls.
- Event, gate, entry-type and geofence checks that come before a scan, audit records, device liveness and the stored count of active sessions, which drifts on purpose.
- The device binding of `syncOfflineScans`, `resolve` and `buildOfflineManifest`, which do not check it.
- Firestore transaction ids, which repeat within a millisecond, and that adapter's handling of a missing transaction id.
- Trimming and lower-casing of emails, and white space other than blanks, tabs and line ends in reasons; JavaScript's other white space before a parsed number.
- HTTP routing, authentication, zod contracts, scripts and the payment, mail and Firebase adapters.
