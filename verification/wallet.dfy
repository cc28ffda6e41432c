/**
 Prepaid cover wallets: every change of a balance writes one transaction, keyed by the
 client's idempotency key, and reconciliation recomputes balances from the transaction log.
 */
module Wallet {
  import opened Common

  const TXN_PAGE: nat := 10_000

  type Key = string

  datatype Status = Active | Frozen | Terminated | Closed

  datatype PresetItem = PresetItem(id: Id, amount: nat, isAvailable: bool)

  /** What a wallet may be charged for, and within what bounds. */
  datatype Rules = Rules(presetItems: seq<PresetItem>, minCharge: nat, maxCharge: nat)

  const DEFAULT_RULES := Rules([], 1, 5_000_000)

  const MAX_SAFE_INTEGER: nat := 9007199254740991

  datatype CoverWallet = CoverWallet(organization: Id, event: Id, user: Id, balance: int, opening: nat, status: Status, rules: Rules)

  datatype Kind = Credit | Debit | Refund | Adjustment

  datatype TxnStatus = Pending | Committed | Failed | Reversed

  datatype Txn = Txn(wallet: Id, kind: Kind, amount: int, status: TxnStatus, key: Key, reference: Option<Id>, referenceType: string,
                     device: Option<Id>, at: int)

  /**
   How a storage adapter writes transactions. Both adapters store a debit as a negative amount, and
   both receive a wallet's opening credit without an id, which the in-memory one files under the
   missing id, so that each opening credit replaces the one before.
   */
  datatype Adapter = Adapter(negativeDebits: bool, sharedOpeningSlot: bool, debitWindowMs: Option<nat>)

  const IN_MEMORY := Adapter(true, true, Some(120_000))

  const SERVICE_WINDOW_MS: nat := 60_000
  const MAX_RECENT_DEBITS: nat := 3

  datatype WalletError = NotFound | Forbidden | AlreadyExists | Inactive | VelocityExceeded | Insufficient | IllegalTransition
    | ItemUnavailable | OutsideLimits

  function StoredDebit(a: Adapter, amount: nat): int { if a.negativeDebits then 0 - amount as int else amount as int }

  /** The money a transaction moved, whatever the sign it is stored with. */
  function Moved(a: Adapter, t: Txn): int {
    if t.status != Committed then 0
    else if t.kind == Debit && !a.negativeDebits then -t.amount
    else t.amount
  }

  function MovedTotal(a: Adapter, ts: seq<Txn>, wallet: Id): int {
    if ts == [] then 0
    else MovedTotal(a, ts[..|ts| - 1], wallet) + if ts[|ts| - 1].wallet == wallet then Moved(a, ts[|ts| - 1]) else 0
  }

  predicate KeyUsed(ts: seq<Txn>, key: Key) { exists i :: 0 <= i < |ts| && ts[i].key == key }

  ghost predicate KeysUnique(ts: seq<Txn>) { forall i, j :: 0 <= i < j < |ts| ==> ts[i].key != ts[j].key }

  function OpeningKey(wallet: Id): Key { "wallet-open-" + wallet }

  ghost predicate HasOpening(openings: seq<Txn>, wallet: Id) { exists i :: 0 <= i < |openings| && openings[i].wallet == wallet }

  lemma MovedTotalSnoc(a: Adapter, ts: seq<Txn>, t: Txn, wallet: Id)
    ensures MovedTotal(a, ts + [t], wallet) == MovedTotal(a, ts, wallet) + if t.wallet == wallet then Moved(a, t) else 0
  {
    assert (ts + [t])[..|ts|] == ts;
  }

  lemma {:induction false} MovedTotalConcat(a: Adapter, ts: seq<Txn>, us: seq<Txn>, wallet: Id)
    ensures MovedTotal(a, ts + us, wallet) == MovedTotal(a, ts, wallet) + MovedTotal(a, us, wallet)
  {
    if us == [] {
      assert ts + us == ts;
    } else {
      assert (ts + us)[..|ts + us| - 1] == ts + us[..|us| - 1];
      MovedTotalConcat(a, ts, us[..|us| - 1], wallet);
    }
  }

  lemma {:induction false} MovesNothing(a: Adapter, ts: seq<Txn>, wallet: Id)
    requires forall i :: 0 <= i < |ts| ==> ts[i].wallet != wallet
    ensures MovedTotal(a, ts, wallet) == 0
  {
    if ts != [] { MovesNothing(a, ts[..|ts| - 1], wallet); }
  }

  // ----- what the log accounts for

  /** Everything the stores hold. */
  datatype Bank = Bank(wallets: map<Id, CoverWallet>, openings: seq<Txn>, log: seq<Txn>)

  /** A balance is never negative, and is the opening balance plus all that later transactions moved. */
  ghost predicate Accounted(a: Adapter, b: Bank, wallet: Id)
    requires wallet in b.wallets
  {
    && b.wallets[wallet].balance >= 0
    && b.wallets[wallet].balance == b.wallets[wallet].opening + MovedTotal(a, b.log, wallet)
  }

  ghost predicate AllAccounted(a: Adapter, b: Bank) {
    && (forall w | w in b.wallets :: Accounted(a, b, w))
    && (forall i :: 0 <= i < |b.log| ==> b.log[i].wallet in b.wallets)
  }

  ghost predicate IsOpening(wallets: map<Id, CoverWallet>, t: Txn) {
    && t.wallet in wallets && t.kind == Credit && t.status == Committed
    && t.amount == wallets[t.wallet].opening && t.key == OpeningKey(t.wallet)
  }

  /** The opening credits still on record: one per wallet, or only that of the newest wallet. */
  ghost predicate OpeningsOk(a: Adapter, b: Bank) {
    && (forall i :: 0 <= i < |b.openings| ==> IsOpening(b.wallets, b.openings[i]))
    && (forall i, j :: 0 <= i < j < |b.openings| ==> b.openings[i].wallet != b.openings[j].wallet)
    && (!a.sharedOpeningSlot ==> forall w | w in b.wallets :: HasOpening(b.openings, w))
  }

  /** One committed transaction on a wallet whose balance moves by the same amount. */
  lemma PostKeepsAccounts(a: Adapter, b: Bank, t: Txn, w: CoverWallet)
    requires AllAccounted(a, b) && t.wallet in b.wallets
    requires w.balance == b.wallets[t.wallet].balance + Moved(a, t) && w.balance >= 0 && w.opening == b.wallets[t.wallet].opening
    ensures AllAccounted(a, Bank(b.wallets[t.wallet := w], b.openings, b.log + [t]))
  {
    var b' := Bank(b.wallets[t.wallet := w], b.openings, b.log + [t]);
    forall id | id in b'.wallets ensures Accounted(a, b', id) {
      assert Accounted(a, b, id);
      MovedTotalSnoc(a, b.log, t, id);
    }
  }

  lemma StatusKeepsAccounts(a: Adapter, b: Bank, id: Id, w: CoverWallet)
    requires AllAccounted(a, b) && id in b.wallets
    requires w.balance == b.wallets[id].balance && w.opening == b.wallets[id].opening
    ensures AllAccounted(a, Bank(b.wallets[id := w], b.openings, b.log))
  {
    var b' := Bank(b.wallets[id := w], b.openings, b.log);
    forall i | i in b'.wallets ensures Accounted(a, b', i) { assert Accounted(a, b, i); }
  }

  lemma UpdateKeepsOpenings(a: Adapter, b: Bank, id: Id, w: CoverWallet)
    requires OpeningsOk(a, b) && id in b.wallets && w.opening == b.wallets[id].opening
    ensures OpeningsOk(a, Bank(b.wallets[id := w], b.openings, b.log))
  {}

  function Opening(id: Id, w: CoverWallet, now: int): Txn {
    Txn(id, Credit, w.opening, Committed, OpeningKey(id), None, "wallet_activation", None, now)
  }

  function OpeningsAfter(a: Adapter, openings: seq<Txn>, t: Txn): seq<Txn> {
    if a.sharedOpeningSlot then [t] else openings + [t]
  }

  lemma OpenKeepsAccounts(a: Adapter, b: Bank, id: Id, w: CoverWallet, openings: seq<Txn>)
    requires AllAccounted(a, b) && id !in b.wallets && w.balance == w.opening
    ensures AllAccounted(a, Bank(b.wallets[id := w], openings, b.log))
  {
    var b' := Bank(b.wallets[id := w], openings, b.log);
    forall i | i in b'.wallets ensures Accounted(a, b', i) {
      if i == id { MovesNothing(a, b.log, id); } else { assert Accounted(a, b, i); }
    }
  }

  lemma OpenKeepsOpenings(a: Adapter, b: Bank, id: Id, w: CoverWallet, now: int)
    requires OpeningsOk(a, b) && id !in b.wallets
    ensures OpeningsOk(a, Bank(b.wallets[id := w], OpeningsAfter(a, b.openings, Opening(id, w, now)), b.log))
  {
    var t := Opening(id, w, now);
    var openings := OpeningsAfter(a, b.openings, t);
    assert openings[|openings| - 1].wallet == id;
    forall i | i in b.wallets && !a.sharedOpeningSlot ensures HasOpening(openings, i) {
      var k :| 0 <= k < |b.openings| && b.openings[k].wallet == i;
      assert openings[k].wallet == i;
    }
  }

  // ----- what the log shows of a balance

  /** The opening credits on record are worth the opening balance, or nothing if another wallet's took the place. */
  lemma {:induction false} OpeningsMove(a: Adapter, wallets: map<Id, CoverWallet>, openings: seq<Txn>, wallet: Id)
    requires wallet in wallets
    requires forall i :: 0 <= i < |openings| ==> IsOpening(wallets, openings[i])
    requires forall i, j :: 0 <= i < j < |openings| ==> openings[i].wallet != openings[j].wallet
    ensures MovedTotal(a, openings, wallet) == if HasOpening(openings, wallet) then wallets[wallet].opening else 0
  {
    if openings != [] {
      var init, last := openings[..|openings| - 1], openings[|openings| - 1];
      OpeningsMove(a, wallets, init, wallet);
      if last.wallet == wallet {
        MovesNothing(a, init, wallet);
      } else {
        assert forall i :: 0 <= i < |init| ==> init[i] == openings[i];
      }
    }
  }

  /** What the stored transactions of a wallet add up to. */
  ghost function OnRecord(a: Adapter, b: Bank, wallet: Id): int { MovedTotal(a, b.openings + b.log, wallet) }

  /**
   A balance equals the signed sum of its committed transactions on record if and only if the
   wallet's opening credit is still among them, or was zero; otherwise it exceeds the sum by it.
   */
  lemma BalanceIsOnRecordIff(a: Adapter, b: Bank, wallet: Id)
    requires AllAccounted(a, b) && OpeningsOk(a, b) && wallet in b.wallets
    ensures b.wallets[wallet].balance == OnRecord(a, b, wallet) <==> HasOpening(b.openings, wallet) || b.wallets[wallet].opening == 0
    ensures !a.sharedOpeningSlot ==> b.wallets[wallet].balance == OnRecord(a, b, wallet)
    ensures b.wallets[wallet].balance == OnRecord(a, b, wallet) + if HasOpening(b.openings, wallet) then 0 else b.wallets[wallet].opening
  {
    assert Accounted(a, b, wallet);
    OpeningsMove(a, b.wallets, b.openings, wallet);
    MovedTotalConcat(a, b.openings, b.log, wallet);
  }

  // ----- reconciliation

  function CommittedTotal(ts: seq<Txn>, kind: Kind, wallet: Id): int {
    if ts == [] then 0
    else
      var t := ts[|ts| - 1];
      CommittedTotal(ts[..|ts| - 1], kind, wallet) + if t.wallet == wallet && t.status == Committed && t.kind == kind then t.amount else 0
  }

  /** The balance reconciliation expects: credits and refunds count as stored, and a stored debit is subtracted. */
  function Expected(ts: seq<Txn>, wallet: Id): int {
    CommittedTotal(ts, Credit, wallet) - CommittedTotal(ts, Debit, wallet) + CommittedTotal(ts, Refund, wallet)
  }

  function OfWallet(ts: seq<Txn>, wallet: Id): (r: seq<Txn>)
    ensures |r| <= |ts| && forall i :: 0 <= i < |r| ==> r[i].wallet == wallet
  {
    if ts == [] then []
    else OfWallet(ts[..|ts| - 1], wallet) + if ts[|ts| - 1].wallet == wallet then [ts[|ts| - 1]] else []
  }

  /** The one page of a wallet's transactions that reconciliation reads. */
  function Page(ts: seq<Txn>, wallet: Id): (r: seq<Txn>)
    ensures forall i :: 0 <= i < |r| ==> r[i].wallet == wallet
  {
    var all := OfWallet(ts, wallet);
    if |all| <= TXN_PAGE then all else all[..TXN_PAGE]
  }

  /** The page is the front of the wallet's transactions, all of them up to ten thousand. */
  lemma PageIsFront(ts: seq<Txn>, wallet: Id)
    ensures Page(ts, wallet) <= OfWallet(ts, wallet)
    ensures |Page(ts, wallet)| == if |OfWallet(ts, wallet)| <= 10_000 then |OfWallet(ts, wallet)| else 10_000
  {}

  datatype Mismatch = Mismatch(wallet: Id, expected: int, actual: int)

  /** The wallets, in order, whose balance is not the expected one. */
  function Mismatches(ws: seq<(Id, int)>, ts: seq<Txn>): seq<Mismatch> {
    if ws == [] then []
    else
      var (id, balance) := ws[|ws| - 1];
      var expected := Expected(Page(ts, id), id);
      Mismatches(ws[..|ws| - 1], ts) + if balance != expected then [Mismatch(id, expected, balance)] else []
  }

  lemma CommittedSnoc(ts: seq<Txn>, t: Txn, kind: Kind, wallet: Id)
    ensures CommittedTotal(ts + [t], kind, wallet)
         == CommittedTotal(ts, kind, wallet) + if t.wallet == wallet && t.status == Committed && t.kind == kind then t.amount else 0
  {
    assert (ts + [t])[..|ts|] == ts;
  }

  lemma {:induction false} CommittedOfWallet(ts: seq<Txn>, kind: Kind, wallet: Id)
    ensures CommittedTotal(OfWallet(ts, wallet), kind, wallet) == CommittedTotal(ts, kind, wallet)
  {
    if ts != [] {
      CommittedOfWallet(ts[..|ts| - 1], kind, wallet);
      CommittedSnoc(OfWallet(ts[..|ts| - 1], wallet), ts[|ts| - 1], kind, wallet);
      assert ts[|ts| - 1].wallet != wallet ==> OfWallet(ts, wallet) == OfWallet(ts[..|ts| - 1], wallet);
    }
  }

  lemma {:induction false} MovedByKind(a: Adapter, ts: seq<Txn>, wallet: Id)
    ensures MovedTotal(a, ts, wallet)
         == CommittedTotal(ts, Credit, wallet) + CommittedTotal(ts, Refund, wallet) + CommittedTotal(ts, Adjustment, wallet)
          + if a.negativeDebits then CommittedTotal(ts, Debit, wallet) else -CommittedTotal(ts, Debit, wallet)
  {
    if ts != [] { MovedByKind(a, ts[..|ts| - 1], wallet); }
  }

  /** How far the balance is from what reconciliation expects, when one page holds all transactions of the wallet. */
  lemma Discrepancy(a: Adapter, b: Bank, wallet: Id)
    requires AllAccounted(a, b) && OpeningsOk(a, b) && wallet in b.wallets
    requires |OfWallet(b.openings + b.log, wallet)| <= TXN_PAGE
    ensures var ts := b.openings + b.log;
      b.wallets[wallet].balance - Expected(Page(ts, wallet), wallet)
        == (if HasOpening(b.openings, wallet) then 0 else b.wallets[wallet].opening)
         + CommittedTotal(ts, Adjustment, wallet)
         + (if a.negativeDebits then 2 * CommittedTotal(ts, Debit, wallet) else 0)
  {
    var ts := b.openings + b.log;
    BalanceIsOnRecordIff(a, b, wallet);
    MovedByKind(a, ts, wallet);
    CommittedOfWallet(ts, Credit, wallet);
    CommittedOfWallet(ts, Debit, wallet);
    CommittedOfWallet(ts, Refund, wallet);
  }

  // ----- the service and its stores

  datatype Receipt = Receipt(wallet: CoverWallet, txn: Txn)

  function Guard(wallets: map<Id, CoverWallet>, wallet: Id, organization: Id): Option<WalletError> {
    if wallet !in wallets then Some(NotFound)
    else if wallets[wallet].organization != organization then Some(Forbidden)
    else if wallets[wallet].status != Active then Some(Inactive)
    else None
  }

  function FirstWithKey(ts: seq<Txn>, key: Key): (r: Option<Txn>)
    ensures r.Some? <==> KeyUsed(ts, key)
    ensures r.Some? ==> r.value in ts && r.value.key == key
  {
    if ts == [] then None
    else
      var init := FirstWithKey(ts[..|ts| - 1], key);
      if init.Some? then init
      else if ts[|ts| - 1].key == key then Some(ts[|ts| - 1]) else None
  }

  function RecentDebits(ts: seq<Txn>, device: Id, since: int): (n: nat)
    ensures n <= |ts|
  {
    if ts == [] then 0
    else
      var t := ts[|ts| - 1];
      RecentDebits(ts[..|ts| - 1], device, since) + if t.device == Some(device) && t.kind == Debit && t.at >= since then 1 else 0
  }

  predicate TooManyDebits(ts: seq<Txn>, device: Option<Id>, window: Option<nat>, now: int) {
    device.Some? && window.Some? && RecentDebits(ts, device.value, now - window.value) >= MAX_RECENT_DEBITS
  }

  predicate DeviceDebit(t: Txn) { t.kind == Debit && t.device.Some? }

  /** Every debit by a device was posted while fewer than the limit were recent. */
  ghost predicate Unhurried(log: seq<Txn>) {
    forall k :: 0 <= k < |log| && DeviceDebit(log[k]) ==> !TooManyDebits(log[..k], log[k].device, Some(SERVICE_WINDOW_MS), log[k].at)
  }

  lemma {:induction false} RecentDebitsConcat(ts: seq<Txn>, us: seq<Txn>, device: Id, since: int)
    ensures RecentDebits(ts + us, device, since) == RecentDebits(ts, device, since) + RecentDebits(us, device, since)
  {
    if us == [] {
      assert ts + us == ts;
    } else {
      assert (ts + us)[..|ts + us| - 1] == ts + us[..|us| - 1];
      RecentDebitsConcat(ts, us[..|us| - 1], device, since);
    }
  }

  /** The service's check, which only debits by a device have to pass. */
  predicate InTime(ts: seq<Txn>, t: Txn) { DeviceDebit(t) ==> !TooManyDebits(ts, t.device, Some(SERVICE_WINDOW_MS), t.at) }

  /** A transaction that passes the check keeps the log unhurried. */
  lemma PostKeepsUnhurried(openings: seq<Txn>, log: seq<Txn>, t: Txn)
    requires InTime(openings + log, t)
    ensures Unhurried(log) ==> Unhurried(log + [t])
  {
    if Unhurried(log) {
      forall k | 0 <= k <= |log| && DeviceDebit((log + [t])[k])
        ensures !TooManyDebits((log + [t])[..k], (log + [t])[k].device, Some(SERVICE_WINDOW_MS), (log + [t])[k].at)
      {
        assert (log + [t])[..k] == log[..k];
        if k == |log| {
          assert log[..k] == log;
          RecentDebitsConcat(openings, log, t.device.value, t.at - SERVICE_WINDOW_MS);
        }
      }
    }
  }

  lemma PostKeepsLog(openings: seq<Txn>, log: seq<Txn>, t: Txn)
    ensures KeysUnique(openings + log) && !KeyUsed(openings + log, t.key) ==> KeysUnique(openings + (log + [t]))
    ensures InTime(openings + log, t) && Unhurried(log) ==> Unhurried(log + [t])
  {
    if !KeyUsed(openings + log, t.key) { FreshKeyStaysUnique(openings, log, t); }
    if InTime(openings + log, t) { PostKeepsUnhurried(openings, log, t); }
  }

  function FindItem(items: seq<PresetItem>, id: Id): (r: Option<PresetItem>)
    ensures r.Some? ==> r.value in items && r.value.id == id
  {
    if items == [] then None else if items[0].id == id then Some(items[0]) else FindItem(items[1..], id)
  }

  /** The venue's price for a charge, or nothing if the item or the total is not allowed. */
  function PriceForCharge(rules: Rules, item: Id, quantity: int): (r: Option<nat>)
    ensures r.Some? ==> rules.minCharge <= r.value <= rules.maxCharge
  {
    var found := FindItem(rules.presetItems, item);
    if found.None? || !found.value.isAvailable || quantity < 1 || quantity > MAX_SAFE_INTEGER then None
    else
      var total := found.value.amount * quantity;
      if total > MAX_SAFE_INTEGER || total < rules.minCharge || total > rules.maxCharge then None else Some(total)
  }

  /** The item at `i` is the first of that id. */
  predicate IsFirstWithId(items: seq<PresetItem>, id: Id, i: int) {
    0 <= i < |items| && items[i].id == id && forall j :: 0 <= j < i ==> items[j].id != id
  }

  lemma FirstShifts(items: seq<PresetItem>, id: Id, i: int)
    requires items != [] && items[0].id != id
    ensures IsFirstWithId(items, id, i) <==> IsFirstWithId(items[1..], id, i - 1)
  {
    var rest := items[1..];
    assert forall k :: 0 < k < |items| ==> items[k] == rest[k - 1];
    if IsFirstWithId(rest, id, i - 1) {
      forall j | 0 <= j < i ensures items[j].id != id { if j > 0 { assert items[j] == rest[j - 1]; } }
    }
    if IsFirstWithId(items, id, i) {
      forall j | 0 <= j < i - 1 ensures rest[j].id != id { assert items[j + 1] == rest[j]; }
    }
  }

  lemma {:induction false} FindItemIsFirst(items: seq<PresetItem>, id: Id) returns (i: int)
    ensures FindItem(items, id).Some? <==> IsFirstWithId(items, id, i)
    ensures IsFirstWithId(items, id, i) ==> items[i] == FindItem(items, id).value
    ensures !IsFirstWithId(items, id, i) ==> forall j :: 0 <= j < |items| ==> items[j].id != id
  {
    if items == [] {
      i := 0;
    } else if items[0].id == id {
      i := 0;
    } else {
      i := FindItemIsFirst(items[1..], id);
      i := i + 1;
      FirstShifts(items, id, i);
      assert items == [items[0]] + items[1..];
    }
  }

  /** The first item of that id is found, and nothing only if there is none. */
  lemma FindItemIff(items: seq<PresetItem>, id: Id, item: PresetItem)
    ensures FindItem(items, id) == Some(item) <==> exists i :: IsFirstWithId(items, id, i) && items[i] == item
    ensures FindItem(items, id) == None <==> forall i :: 0 <= i < |items| ==> items[i].id != id
  {
    var i := FindItemIsFirst(items, id);
    hide FindItem;
    forall k | IsFirstWithId(items, id, k) && IsFirstWithId(items, id, i) ensures k == i {}
  }

  /**
   A charge has a price exactly if the first item of its id is available, at least one is taken, and
   their sum is within the wallet's bounds; all numbers are safe integers, and the price is that sum.
   */
  lemma PriceIff(rules: Rules, item: Id, quantity: int, price: nat)
    ensures PriceForCharge(rules, item, quantity) == Some(price) <==>
      exists i :: IsFirstWithId(rules.presetItems, item, i) && rules.presetItems[i].isAvailable && 1 <= quantity <= 9007199254740991
               && price == rules.presetItems[i].amount * quantity
               && rules.minCharge <= price <= rules.maxCharge && price <= 9007199254740991
  {
    var k := FindItemIsFirst(rules.presetItems, item);
    hide FindItem;
    forall i | IsFirstWithId(rules.presetItems, item, i) && IsFirstWithId(rules.presetItems, item, k) ensures i == k {}
  }

  /** Every wallet is found by its event and user, and only it. */
  ghost predicate Owned(wallets: map<Id, CoverWallet>, byEventAndUser: map<(Id, Id), Id>) {
    && (forall pair | pair in byEventAndUser ::
          && byEventAndUser[pair] in wallets
          && (wallets[byEventAndUser[pair]].event, wallets[byEventAndUser[pair]].user) == pair)
    && (forall w | w in wallets :: (wallets[w].event, wallets[w].user) in byEventAndUser
                                   && byEventAndUser[(wallets[w].event, wallets[w].user)] == w)
  }

  lemma OpenKeepsOwned(wallets: map<Id, CoverWallet>, byEventAndUser: map<(Id, Id), Id>, id: Id, w: CoverWallet)
    requires Owned(wallets, byEventAndUser) && id !in wallets && (w.event, w.user) !in byEventAndUser
    ensures Owned(wallets[id := w], byEventAndUser[(w.event, w.user) := id])
  {}

  lemma UpdateKeepsOwned(wallets: map<Id, CoverWallet>, byEventAndUser: map<(Id, Id), Id>, id: Id, w: CoverWallet)
    requires Owned(wallets, byEventAndUser) && id in wallets && w.event == wallets[id].event && w.user == wallets[id].user
    ensures Owned(wallets[id := w], byEventAndUser)
  {}

  /** After a wallet is opened its credit is on record; with a shared slot, nobody else's is. */
  lemma NewestIsOnRecord(a: Adapter, openings: seq<Txn>, id: Id, w: CoverWallet, now: int)
    ensures var after := OpeningsAfter(a, openings, Opening(id, w, now));
      HasOpening(after, id) && (a.sharedOpeningSlot ==> forall other | other != id :: !HasOpening(after, other))
  {
    var after := OpeningsAfter(a, openings, Opening(id, w, now));
    assert after[|after| - 1].wallet == id;
  }

  lemma EveryTxnHasItsWallet(a: Adapter, b: Bank, t: Txn)
    requires AllAccounted(a, b) && OpeningsOk(a, b) && t in b.openings + b.log
    ensures t.wallet in b.wallets
  {}

  lemma OpenKeepsKeys(a: Adapter, openings: seq<Txn>, log: seq<Txn>, t: Txn)
    requires !KeyUsed(openings + log, t.key)
    ensures KeysUnique(openings + log) ==> KeysUnique(OpeningsAfter(a, openings, t) + log)
  {
    var before, after := openings + log, OpeningsAfter(a, openings, t) + log;
    if KeysUnique(before) {
      var n, k := |openings|, |OpeningsAfter(a, openings, t)|;
      assert forall i :: 0 <= i < |before| ==> before[i].key != t.key;
      assert forall i :: k <= i < |after| ==> after[i] == before[i - k + n];
      assert !a.sharedOpeningSlot ==> forall i :: 0 <= i < n ==> after[i] == before[i];
    }
  }

  lemma FreshKeyStaysUnique(openings: seq<Txn>, log: seq<Txn>, t: Txn)
    requires !KeyUsed(openings + log, t.key)
    ensures KeysUnique(openings + log) ==> KeysUnique(openings + (log + [t]))
  {
    var ts := openings + log;
    assert openings + (log + [t]) == ts + [t];
    assert forall i :: 0 <= i < |ts| ==> ts[i].key != t.key;
  }

  /** Money moves only on an existing, active wallet of the caller's organization. */
  lemma GuardIff(wallets: map<Id, CoverWallet>, wallet: Id, organization: Id)
    ensures Guard(wallets, wallet, organization) == None
       <==> wallet in wallets && wallets[wallet].organization == organization && wallets[wallet].status == Active
    ensures Guard(wallets, wallet, organization) == Some(NotFound) <==> wallet !in wallets
    ensures Guard(wallets, wallet, organization) == Some(Forbidden) <==> wallet in wallets && wallets[wallet].organization != organization
  {}

  /** A wallet emptied by a debit is terminated by it. */
  function Debited(w: CoverWallet, amount: nat): CoverWallet {
    w.(balance := w.balance - amount, status := if w.balance == amount then Terminated else w.status)
  }

  function AdapterRefuses(a: Adapter, b: Bank, id: Id, amount: nat, device: Option<Id>, now: int): Option<WalletError> {
    if id !in b.wallets then Some(NotFound)
    else if b.wallets[id].balance < amount then Some(Insufficient)
    else if TooManyDebits(b.openings + b.log, device, a.debitWindowMs, now) then Some(VelocityExceeded)
    else None
  }

  function DebitRefused(a: Adapter, b: Bank, id: Id, organization: Id, amount: nat, key: Key, device: Option<Id>, now: int)
    : Option<WalletError>
  {
    if Guard(b.wallets, id, organization).Some? then Guard(b.wallets, id, organization)
    else if TooManyDebits(b.openings + b.log, device, Some(SERVICE_WINDOW_MS), now) then Some(VelocityExceeded)
    else if KeyUsed(b.openings + b.log, key) then None
    else AdapterRefuses(a, b, id, amount, device, now)
  }

  /** A debit goes through exactly for an active wallet of the organization that can pay, within the limit of its device. */
  lemma DebitGoesThroughIff(a: Adapter, b: Bank, id: Id, organization: Id, amount: nat, key: Key, device: Option<Id>, now: int)
    requires !KeyUsed(b.openings + b.log, key)
    ensures DebitRefused(a, b, id, organization, amount, key, device, now) == None
       <==> && id in b.wallets && b.wallets[id].organization == organization && b.wallets[id].status == Active
            && amount <= b.wallets[id].balance
            && (device.Some? ==>
                  && RecentDebits(b.openings + b.log, device.value, now - SERVICE_WINDOW_MS) < 3
                  && (a.debitWindowMs.Some? ==> RecentDebits(b.openings + b.log, device.value, now - a.debitWindowMs.value) < 3))
  {}

  /** Two debits under different keys, together within the balance, both go through, if no device is too fast. */
  lemma TwoDebitsGoThrough(a: Adapter, b: Bank, id: Id, organization: Id, amount: nat, key: Key, device: Option<Id>, now: int,
                           t: Txn, amount': nat, key': Key, device': Option<Id>, now': int)
    requires !KeyUsed(b.openings + b.log, key) && !KeyUsed(b.openings + b.log, key') && key != key'
    requires DebitRefused(a, b, id, organization, amount, key, device, now) == None
    requires t.key == key && amount < b.wallets[id].balance && amount + amount' <= b.wallets[id].balance
    requires device'.Some? ==> forall since :: RecentDebits(b.openings + (b.log + [t]), device'.value, since) < 3
    ensures var w := b.wallets[id].(balance := b.wallets[id].balance - amount);
      DebitRefused(a, Bank(b.wallets[id := w], b.openings, b.log + [t]), id, organization, amount', key', device', now') == None
  {
    var ts := b.openings + (b.log + [t]);
    DebitGoesThroughIff(a, b, id, organization, amount, key, device, now);
    assert ts == b.openings + b.log + [t];
    assert !KeyUsed(ts, key');
    hide RecentDebits;
    DebitGoesThroughIff(a, Bank(b.wallets[id := b.wallets[id].(balance := b.wallets[id].balance - amount)], b.openings, b.log + [t]),
                        id, organization, amount', key', device', now');
  }

  /** Freezing needs an active wallet and unfreezing a frozen one; closing is always possible. */
  predicate MayBecome(from: Status, to: Status) {
    match to
    case Frozen => from == Active
    case Active => from == Frozen
    case Terminated => from != Terminated && from != Closed
    case Closed => true
  }

  datatype Report = Report(expected: int, credits: int, debits: int, refunds: int, mismatches: seq<Mismatch>)

  function Balances(wallets: map<Id, CoverWallet>, ids: seq<Id>): (r: seq<(Id, int)>)
    requires forall i :: 0 <= i < |ids| ==> ids[i] in wallets
    ensures |r| == |ids| && forall i :: 0 <= i < |r| ==> r[i] == (ids[i], wallets[ids[i]].balance)
  {
    seq(|ids|, i requires 0 <= i < |ids| => (ids[i], wallets[ids[i]].balance))
  }

  function TotalOf(ids: seq<Id>, ts: seq<Txn>, kind: Kind): int {
    if ids == [] then 0
    else
      var last := ids[|ids| - 1];
      TotalOf(ids[..|ids| - 1], ts, kind) + CommittedTotal(Page(ts, last), kind, last)
  }

  lemma CommittedPrefix(ts: seq<Txn>, j: nat, wallet: Id)
    requires j < |ts|
    ensures forall kind ::
      CommittedTotal(ts[..j + 1], kind, wallet)
        == CommittedTotal(ts[..j], kind, wallet) + if ts[j].wallet == wallet && ts[j].status == Committed && ts[j].kind == kind then ts[j].amount else 0
  {
    assert ts[..j + 1] == ts[..j] + [ts[j]];
    forall kind { CommittedSnoc(ts[..j], ts[j], kind, wallet); }
  }

  ghost predicate Known(wallets: map<Id, CoverWallet>, ids: seq<Id>) { forall i :: 0 <= i < |ids| ==> ids[i] in wallets }

  /** A report that takes in these wallets. */
  ghost predicate Summed(wallets: map<Id, CoverWallet>, ids: seq<Id>, ts: seq<Txn>, r: Report) {
    && Known(wallets, ids) && r.mismatches == Mismatches(Balances(wallets, ids), ts)
    && r.credits == TotalOf(ids, ts, Credit) && r.debits == TotalOf(ids, ts, Debit) && r.refunds == TotalOf(ids, ts, Refund)
    && r.expected == r.credits - r.debits + r.refunds
  }

  /** The report with one more wallet, whose page adds up to `credits`, `debits` and `refunds`. */
  function WithWallet(r: Report, id: Id, balance: int, credits: int, debits: int, refunds: int): Report {
    var expected := credits - debits + refunds;
    Report(r.expected + expected, r.credits + credits, r.debits + debits, r.refunds + refunds,
           if balance != expected then r.mismatches + [Mismatch(id, expected, balance)] else r.mismatches)
  }

  lemma WithWalletIs(r: Report, id: Id, balance: int, credits: int, debits: int, refunds: int)
    ensures var expected := credits - debits + refunds;
      WithWallet(r, id, balance, credits, debits, refunds)
        == Report(r.expected + expected, r.credits + credits, r.debits + debits, r.refunds + refunds,
                  if balance != expected then r.mismatches + [Mismatch(id, expected, balance)] else r.mismatches)
  {}

  lemma NothingSummed(wallets: map<Id, CoverWallet>, ids: seq<Id>, ts: seq<Txn>)
    ensures Summed(wallets, ids[..0], ts, Report(0, 0, 0, 0, []))
  {}

  lemma OneMoreWallet(wallets: map<Id, CoverWallet>, ids: seq<Id>, i: nat, ts: seq<Txn>, r: Report)
    requires i < |ids| && ids[i] in wallets && Summed(wallets, ids[..i], ts, r)
    ensures var (id, page) := (ids[i], Page(ts, ids[i]));
      Summed(wallets, ids[..i + 1], ts, WithWallet(r, id, wallets[id].balance, CommittedTotal(page, Credit, id),
                                                   CommittedTotal(page, Debit, id), CommittedTotal(page, Refund, id)))
  {
    hide Page, CommittedTotal, Balances, Mismatches, TotalOf;
    OneMoreBalance(wallets, ids, i, ts);
    OneMoreTotal(ids, i, ts, Credit);
    OneMoreTotal(ids, i, ts, Debit);
    OneMoreTotal(ids, i, ts, Refund);
  }

  lemma OneMoreBalance(wallets: map<Id, CoverWallet>, ids: seq<Id>, i: nat, ts: seq<Txn>)
    requires i < |ids| && ids[i] in wallets && Known(wallets, ids[..i])
    ensures Known(wallets, ids[..i + 1])
    ensures var (id, balance) := (ids[i], wallets[ids[i]].balance); var expected := Expected(Page(ts, id), id);
      Mismatches(Balances(wallets, ids[..i + 1]), ts)
        == Mismatches(Balances(wallets, ids[..i]), ts) + if balance != expected then [Mismatch(id, expected, balance)] else []
  {
    hide Page, Expected;
    assert ids[..i + 1][..i] == ids[..i];
    assert forall k :: 0 <= k < i ==> ids[..i][k] == ids[..i + 1][k];
    assert Balances(wallets, ids[..i + 1])[..i] == Balances(wallets, ids[..i]);
  }

  lemma OneMoreTotal(ids: seq<Id>, i: nat, ts: seq<Txn>, kind: Kind)
    requires i < |ids|
    ensures TotalOf(ids[..i + 1], ts, kind) == TotalOf(ids[..i], ts, kind) + CommittedTotal(Page(ts, ids[i]), kind, ids[i])
  {
    assert ids[..i + 1][..i] == ids[..i];
  }

  lemma AllSummed(wallets: map<Id, CoverWallet>, ids: seq<Id>, ts: seq<Txn>, r: Report)
    requires Summed(wallets, ids[..|ids|], ts, r)
    ensures Known(wallets, ids) && r.mismatches == Mismatches(Balances(wallets, ids), ts)
    ensures r.credits == TotalOf(ids, ts, Credit) && r.debits == TotalOf(ids, ts, Debit) && r.refunds == TotalOf(ids, ts, Refund)
    ensures r.expected == r.credits - r.debits + r.refunds
  {
    assert ids[..|ids|] == ids;
  }

  lemma PostKeepsStores(a: Adapter, b: Bank, byEventAndUser: map<(Id, Id), Id>, t: Txn, w: CoverWallet)
    requires AllAccounted(a, b) && OpeningsOk(a, b) && Owned(b.wallets, byEventAndUser) && t.wallet in b.wallets
    requires w.balance == b.wallets[t.wallet].balance + Moved(a, t) && w.balance >= 0
    requires w.(balance := 0, status := Active) == b.wallets[t.wallet].(balance := 0, status := Active)
    ensures var b' := Bank(b.wallets[t.wallet := w], b.openings, b.log + [t]);
      AllAccounted(a, b') && OpeningsOk(a, b') && Owned(b'.wallets, byEventAndUser)
  {
    PostKeepsAccounts(a, b, t, w);
    UpdateKeepsOpenings(a, b, t.wallet, w);
    UpdateKeepsOwned(b.wallets, byEventAndUser, t.wallet, w);
    hide AllAccounted, Owned;
  }

  class CoverWallets {
    const adapter: Adapter
    var wallets: map<Id, CoverWallet>
    var byEventAndUser: map<(Id, Id), Id>
    var openings: seq<Txn>
    var log: seq<Txn>

    ghost function View(): Bank
      reads this
    {
      Bank(wallets, openings, log)
    }

    ghost predicate Valid()
      reads this
    {
      AllAccounted(adapter, View()) && OpeningsOk(adapter, View()) && Owned(wallets, byEventAndUser)
    }

    constructor (adapter: Adapter)
      ensures Valid() && this.adapter == adapter && View() == Bank(map[], [], []) && byEventAndUser == map[]
    {
      this.adapter, wallets, byEventAndUser, openings, log := adapter, map[], map[], [], [];
    }

    /** `id` is minted at random. */
    method CreateWallet(id: Id, event: Id, eventOrganization: Option<Id>, user: Id, organization: Id, opening: nat, now: int)
      returns (r: Result<CoverWallet, WalletError>)
      requires Valid() && id !in wallets
      modifies this
      ensures Valid()
      ensures KeysUnique(old(openings + log)) && !KeyUsed(old(openings + log), OpeningKey(id)) ==> KeysUnique(openings + log)
      ensures r.Failure? <==> eventOrganization != Some(organization) || (event, user) in old(byEventAndUser)
      ensures r.Failure? ==> View() == old(View())
      ensures r.Success? ==> byEventAndUser == old(byEventAndUser)[(event, user) := id]
      ensures r.Success? ==>
        && r.value == CoverWallet(organization, event, user, opening, opening, Active, DEFAULT_RULES)
        && wallets == old(wallets)[id := r.value] && log == old(log)
        && openings == OpeningsAfter(adapter, old(openings), Opening(id, r.value, now))
    {
      hide AllAccounted, OpeningsOk, Owned, KeysUnique, OpeningsAfter;
      if eventOrganization == None { return Failure(NotFound); }
      if eventOrganization.value != organization { return Failure(Forbidden); }
      if (event, user) in byEventAndUser { return Failure(AlreadyExists); }
      var wallet := CoverWallet(organization, event, user, opening, opening, Active, DEFAULT_RULES);
      Open(id, wallet, now);
      r := Success(wallet);
    }

    /** Stores a new wallet and files its opening credit. */
    method Open(id: Id, wallet: CoverWallet, now: int)
      requires Valid() && id !in wallets && (wallet.event, wallet.user) !in byEventAndUser && wallet.balance == wallet.opening
      modifies this
      ensures Valid() && log == old(log)
      ensures wallets == old(wallets)[id := wallet]
      ensures byEventAndUser == old(byEventAndUser)[(wallet.event, wallet.user) := id]
      ensures openings == OpeningsAfter(adapter, old(openings), Opening(id, wallet, now))
      ensures KeysUnique(old(openings + log)) && !KeyUsed(old(openings + log), OpeningKey(id)) ==> KeysUnique(openings + log)
    {
      var txn := Opening(id, wallet, now);
      OpenKeepsAccounts(adapter, View(), id, wallet, OpeningsAfter(adapter, openings, txn));
      OpenKeepsOpenings(adapter, View(), id, wallet, now);
      OpenKeepsOwned(wallets, byEventAndUser, id, wallet);
      if !KeyUsed(openings + log, OpeningKey(id)) { OpenKeepsKeys(adapter, openings, log, txn); }
      hide AllAccounted, OpeningsOk, Owned, KeysUnique, OpeningsAfter;
      wallets, byEventAndUser := wallets[id := wallet], byEventAndUser[(wallet.event, wallet.user) := id];
      openings := OpeningsAfter(adapter, openings, txn);
    }

    /** The adapters' credit, debit, refund and adjustment: wallet and transaction change together. */
    method Post(txn: Txn, wallet: CoverWallet)
      requires Valid() && txn.wallet in wallets && txn.status == Committed
      requires wallet.balance == wallets[txn.wallet].balance + Moved(adapter, txn) && wallet.balance >= 0
      requires wallet.(balance := 0, status := Active) == wallets[txn.wallet].(balance := 0, status := Active)
      modifies this`wallets, this`log
      ensures Valid()
      ensures wallets == old(wallets)[txn.wallet := wallet] && log == old(log) + [txn]
      ensures KeysUnique(old(openings + log)) && !KeyUsed(old(openings + log), txn.key) ==> KeysUnique(openings + log)
      ensures InTime(old(openings + log), txn) && Unhurried(old(log)) ==> Unhurried(log)
    {
      hide AllAccounted, OpeningsOk, Owned, KeysUnique, KeyUsed, Unhurried, InTime, Moved;
      PostKeepsLog(openings, log, txn);
      PostKeepsStores(adapter, View(), byEventAndUser, txn, wallet);
      wallets, log := wallets[txn.wallet := wallet], log + [txn];
    }

    /** What a mutation leaves behind: nothing if it was refused or is a retry, one transaction otherwise. */
    twostate predicate Posted(txn: Txn, wallet: CoverWallet)
      reads this
    {
      wallets == old(wallets)[txn.wallet := wallet] && log == old(log) + [txn] && openings == old(openings)
    }

    method CreditWallet(id: Id, organization: Id, amount: nat, reference: Option<Id>, referenceType: string, key: Key, now: int)
      returns (r: Result<Receipt, WalletError>)
      requires Valid()
      modifies this`wallets, this`log
      ensures Valid() && (KeysUnique(old(openings + log)) ==> KeysUnique(openings + log))
      ensures Unhurried(old(log)) ==> Unhurried(log)
      ensures
        var refused, retried := Guard(old(wallets), id, organization), KeyUsed(old(openings + log), key);
        if refused.Some? then r == Failure(refused.value) && View() == old(View())
        else if retried then r.Success? && r.value.txn.key == key && View() == old(View())
        else
          && Posted(Txn(id, Credit, amount, Committed, key, reference, referenceType, None, now),
                    old(wallets)[id].(balance := old(wallets)[id].balance + amount))
          && r == Success(Receipt(wallets[id], log[|log| - 1]))
    {
      var refused := Guard(wallets, id, organization);
      if refused.Some? { return Failure(refused.value); }
      var existing := FirstWithKey(openings + log, key);
      if existing.Some? {
        r := Existing(existing.value);
        return;
      }
      var txn := Txn(id, Credit, amount, Committed, key, reference, referenceType, None, now);
      var wallet := wallets[id].(balance := wallets[id].balance + amount);
      Post(txn, wallet);
      r := Success(Receipt(wallet, txn));
    }

    /** A retry finds the wallet of the transaction its key wrote. */
    method Existing(txn: Txn) returns (r: Result<Receipt, WalletError>)
      requires Valid() && txn in openings + log
      ensures r == Success(Receipt(wallets[txn.wallet], txn)) && txn.wallet in wallets
    {
      EveryTxnHasItsWallet(adapter, View(), txn);
      r := Success(Receipt(wallets[txn.wallet], txn));
    }

    /** The adapter's debit; it does not look at the key. */
    method Debit(id: Id, amount: nat, reference: Option<Id>, referenceType: string, key: Key, device: Option<Id>, now: int)
      returns (r: Result<Receipt, WalletError>)
      requires Valid()
      modifies this`wallets, this`log
      ensures Valid()
      ensures KeysUnique(old(openings + log)) && !KeyUsed(old(openings + log), key) ==> KeysUnique(openings + log)
      ensures !TooManyDebits(old(openings + log), device, Some(SERVICE_WINDOW_MS), now) && Unhurried(old(log)) ==> Unhurried(log)
      ensures
        var refused := AdapterRefuses(adapter, old(View()), id, amount, device, now);
        if refused.Some? then r == Failure(refused.value) && View() == old(View())
        else
          && Posted(Txn(id, Kind.Debit, StoredDebit(adapter, amount), Committed, key, reference, referenceType, device, now),
                    old(wallets)[id].(balance := old(wallets)[id].balance - amount,
                                      status := if old(wallets)[id].balance == amount then Terminated else old(wallets)[id].status))
          && r == Success(Receipt(wallets[id], log[|log| - 1]))
    {
      hide AllAccounted, OpeningsOk, Owned, KeysUnique, RecentDebits, Unhurried;
      if id !in wallets { return Failure(NotFound); }
      if wallets[id].balance < amount { return Failure(Insufficient); }
      if TooManyDebits(openings + log, device, adapter.debitWindowMs, now) { return Failure(VelocityExceeded); }
      var txn := Txn(id, Kind.Debit, StoredDebit(adapter, amount), Committed, key, reference, referenceType, device, now);
      var wallet := Debited(wallets[id], amount);
      Post(txn, wallet);
      r := Success(Receipt(wallet, txn));
    }

    method DebitWallet(id: Id, organization: Id, amount: nat, reference: Option<Id>, referenceType: string, key: Key,
                       device: Option<Id>, now: int)
      returns (r: Result<Receipt, WalletError>)
      requires Valid()
      modifies this`wallets, this`log
      ensures Valid() && (KeysUnique(old(openings + log)) ==> KeysUnique(openings + log))
      ensures Unhurried(old(log)) ==> Unhurried(log)
      ensures
        var refused := DebitRefused(adapter, old(View()), id, organization, amount, key, device, now);
        if refused.Some? then r == Failure(refused.value) && View() == old(View())
        else if KeyUsed(old(openings + log), key) then r.Success? && r.value.txn.key == key && View() == old(View())
        else
          && Posted(Txn(id, Kind.Debit, StoredDebit(adapter, amount), Committed, key, reference, referenceType, device, now),
                    old(wallets)[id].(balance := old(wallets)[id].balance - amount,
                                      status := if old(wallets)[id].balance == amount then Terminated else old(wallets)[id].status))
          && r == Success(Receipt(wallets[id], log[|log| - 1]))
    {
      var refused := Guard(wallets, id, organization);
      if refused.Some? { return Failure(refused.value); }
      if TooManyDebits(openings + log, device, Some(SERVICE_WINDOW_MS), now) { return Failure(VelocityExceeded); }
      var existing := FirstWithKey(openings + log, key);
      if existing.Some? {
        r := Existing(existing.value);
        return;
      }
      r := Debit(id, amount, reference, referenceType, key, device, now);
    }

    /** The adapter's refund; like the debit, it does not look at the key. */
    method Refund(id: Id, amount: nat, reference: Id, key: Key, now: int) returns (r: Result<Receipt, WalletError>)
      requires Valid()
      modifies this`wallets, this`log
      ensures Valid()
      ensures KeysUnique(old(openings + log)) && !KeyUsed(old(openings + log), key) ==> KeysUnique(openings + log)
      ensures Unhurried(old(log)) ==> Unhurried(log)
      ensures
        if id !in old(wallets) then r == Failure(NotFound) && View() == old(View())
        else
          && Posted(Txn(id, Kind.Refund, amount, Committed, key, Some(reference), "refund", None, now),
                    old(wallets)[id].(balance := old(wallets)[id].balance + amount))
          && r == Success(Receipt(wallets[id], log[|log| - 1]))
    {
      assert id in wallets ==> Accounted(adapter, View(), id);
      hide AllAccounted, OpeningsOk, Owned, KeysUnique, KeyUsed, Unhurried, TooManyDebits, RecentDebits;
      if id !in wallets { return Failure(NotFound); }
      var txn := Txn(id, Kind.Refund, amount, Committed, key, Some(reference), "refund", None, now);
      var wallet := wallets[id].(balance := wallets[id].balance + amount);
      Post(txn, wallet);
      r := Success(Receipt(wallet, txn));
    }

    method RefundWallet(id: Id, organization: Id, amount: nat, reference: Id, key: Key, now: int)
      returns (r: Result<Receipt, WalletError>)
      requires Valid()
      modifies this`wallets, this`log
      ensures Valid() && (KeysUnique(old(openings + log)) ==> KeysUnique(openings + log))
      ensures Unhurried(old(log)) ==> Unhurried(log)
      ensures
        var refused := Guard(old(wallets), id, organization);
        if refused.Some? then r == Failure(refused.value) && View() == old(View())
        else if KeyUsed(old(openings + log), key) then r.Success? && r.value.txn.key == key && View() == old(View())
        else
          && Posted(Txn(id, Kind.Refund, amount, Committed, key, Some(reference), "refund", None, now),
                    old(wallets)[id].(balance := old(wallets)[id].balance + amount))
          && r == Success(Receipt(wallets[id], log[|log| - 1]))
    {
      var refused := Guard(wallets, id, organization);
      if refused.Some? { return Failure(refused.value); }
      var existing := FirstWithKey(openings + log, key);
      if existing.Some? {
        r := Existing(existing.value);
        return;
      }
      r := Refund(id, amount, reference, key, now);
    }

    method AdjustWallet(id: Id, organization: Id, amount: int, key: Key, now: int) returns (r: Result<Receipt, WalletError>)
      requires Valid()
      modifies this`wallets, this`log
      ensures Valid() && (KeysUnique(old(openings + log)) ==> KeysUnique(openings + log))
      ensures Unhurried(old(log)) ==> Unhurried(log)
      ensures
        var refused := Guard(old(wallets), id, organization);
        if refused.Some? then r == Failure(refused.value) && View() == old(View())
        else if old(wallets)[id].balance + amount < 0 then r == Failure(Insufficient) && View() == old(View())
        else if KeyUsed(old(openings + log), key) then r.Success? && r.value.txn.key == key && View() == old(View())
        else
          && Posted(Txn(id, Adjustment, amount, Committed, key, None, "adjustment", None, now),
                    old(wallets)[id].(balance := old(wallets)[id].balance + amount))
          && r == Success(Receipt(wallets[id], log[|log| - 1]))
    {
      var refused := Guard(wallets, id, organization);
      if refused.Some? { return Failure(refused.value); }
      if wallets[id].balance + amount < 0 { return Failure(Insufficient); }
      var existing := FirstWithKey(openings + log, key);
      if existing.Some? {
        r := Existing(existing.value);
        return;
      }
      var txn := Txn(id, Adjustment, amount, Committed, key, None, "adjustment", None, now);
      var wallet := wallets[id].(balance := wallets[id].balance + amount);
      Post(txn, wallet);
      r := Success(Receipt(wallet, txn));
    }

    /** Charges one item of the venue's list; the amount is never the caller's. */
    method ChargePreset(id: Id, organization: Id, item: Id, quantity: int, key: Key, device: Option<Id>, now: int)
      returns (r: Result<Receipt, WalletError>)
      requires Valid()
      modifies this`wallets, this`log
      ensures Valid() && (KeysUnique(old(openings + log)) ==> KeysUnique(openings + log))
      ensures Unhurried(old(log)) ==> Unhurried(log)
      ensures r.Failure? || KeyUsed(old(openings + log), key) ==> View() == old(View())
      ensures r.Success? && !KeyUsed(old(openings + log), key) ==>
        && id in old(wallets)
        && PriceForCharge(old(wallets)[id].rules, item, quantity).Some?
        && var price := PriceForCharge(old(wallets)[id].rules, item, quantity).value;
        && price <= old(wallets)[id].balance
        && wallets == old(wallets)[id := old(wallets)[id].(balance := old(wallets)[id].balance - price,
                                                           status := if old(wallets)[id].balance == price then Terminated else old(wallets)[id].status)]
    {
      hide AllAccounted, OpeningsOk, Owned, KeysUnique, KeyUsed, Unhurried, DebitRefused;
      if id !in wallets { return Failure(NotFound); }
      var wallet := wallets[id];
      if wallet.organization != organization { return Failure(Forbidden); }
      var found := FindItem(wallet.rules.presetItems, item);
      if found.None? || !found.value.isAvailable { return Failure(ItemUnavailable); }
      var amount := PriceForCharge(wallet.rules, item, quantity);
      if amount.None? { return Failure(OutsideLimits); }
      if wallet.balance < amount.value { return Failure(Insufficient); }
      r := DebitWallet(id, organization, amount.value, Some(item), "cover_preset_item", key, device, now);
    }

    method SetStatus(id: Id, organization: Id, to: Status) returns (r: Result<CoverWallet, WalletError>)
      requires Valid()
      modifies this`wallets
      ensures Valid()
      ensures
        if id !in old(wallets) then r == Failure(NotFound) && wallets == old(wallets)
        else if old(wallets)[id].organization != organization then r == Failure(Forbidden) && wallets == old(wallets)
        else if !((to == Frozen && old(wallets)[id].status == Active) || (to == Active && old(wallets)[id].status == Frozen)
                  || (to == Terminated && old(wallets)[id].status in {Active, Frozen}) || to == Closed) then
          r == Failure(IllegalTransition) && wallets == old(wallets)
        else wallets == old(wallets)[id := old(wallets)[id].(status := to)] && r == Success(wallets[id])
    {
      hide AllAccounted, OpeningsOk, Owned;
      if id !in wallets { return Failure(NotFound); }
      if wallets[id].organization != organization { return Failure(Forbidden); }
      if !MayBecome(wallets[id].status, to) { return Failure(IllegalTransition); }
      var wallet := wallets[id].(status := to);
      StatusKeepsAccounts(adapter, View(), id, wallet);
      UpdateKeepsOpenings(adapter, View(), id, wallet);
      UpdateKeepsOwned(wallets, byEventAndUser, id, wallet);
      wallets := wallets[id := wallet];
      r := Success(wallet);
    }

    /** One wallet's share of a reconciliation, summed over its page of the log. */
    method SumPage(txns: seq<Txn>, wallet: Id) returns (expectedBalance: int, periodCredits: int, periodDebits: int, periodRefunds: int)
      requires forall i :: 0 <= i < |txns| ==> txns[i].wallet == wallet
      ensures periodCredits == CommittedTotal(txns, Kind.Credit, wallet)
      ensures periodDebits == CommittedTotal(txns, Kind.Debit, wallet)
      ensures periodRefunds == CommittedTotal(txns, Kind.Refund, wallet)
      ensures expectedBalance == Expected(txns, wallet) == periodCredits - periodDebits + periodRefunds
    {
      expectedBalance, periodCredits, periodDebits, periodRefunds := 0, 0, 0, 0;
      for j := 0 to |txns|
        invariant periodCredits == CommittedTotal(txns[..j], Kind.Credit, wallet)
        invariant periodDebits == CommittedTotal(txns[..j], Kind.Debit, wallet)
        invariant periodRefunds == CommittedTotal(txns[..j], Kind.Refund, wallet)
        invariant expectedBalance == Expected(txns[..j], wallet)
      {
        var txn := txns[j];
        CommittedPrefix(txns, j, wallet);
        if txn.status == Committed {
          match txn.kind
          case Credit =>
            expectedBalance, periodCredits := expectedBalance + txn.amount, periodCredits + txn.amount;
          case Debit =>
            expectedBalance, periodDebits := expectedBalance - txn.amount, periodDebits + txn.amount;
          case Refund =>
            expectedBalance, periodRefunds := expectedBalance + txn.amount, periodRefunds + txn.amount;
          case Adjustment =>
        }
      }
      assert txns[..|txns|] == txns;
    }

    /** Recomputes the balance of each selected wallet from its page of the log. */
    method RunReconciliation(ids: seq<Id>) returns (report: Report)
      requires forall i :: 0 <= i < |ids| ==> ids[i] in wallets
      ensures report.mismatches == Mismatches(Balances(wallets, ids), openings + log)
      ensures report.credits == TotalOf(ids, openings + log, Kind.Credit)
      ensures report.debits == TotalOf(ids, openings + log, Kind.Debit)
      ensures report.refunds == TotalOf(ids, openings + log, Kind.Refund)
      ensures report.expected == report.credits - report.debits + report.refunds
    {
      hide *;
      var mismatches: seq<Mismatch>, totalCredits, totalDebits, totalRefunds, totalExpected := [], 0, 0, 0, 0;
      NothingSummed(wallets, ids, openings + log);
      for i := 0 to |ids|
        invariant Summed(wallets, ids[..i], openings + log, Report(totalExpected, totalCredits, totalDebits, totalRefunds, mismatches))
      {
        var wallet := ids[i];
        OneMoreWallet(wallets, ids, i, openings + log, Report(totalExpected, totalCredits, totalDebits, totalRefunds, mismatches));
        var expectedBalance, periodCredits, periodDebits, periodRefunds := SumPage(Page(openings + log, wallet), wallet);
        var actualBalance := wallets[wallet].balance;
        WithWalletIs(Report(totalExpected, totalCredits, totalDebits, totalRefunds, mismatches), wallet, actualBalance,
                     periodCredits, periodDebits, periodRefunds);
        if actualBalance != expectedBalance {
          mismatches := mismatches + [Mismatch(wallet, expectedBalance, actualBalance)];
        }
        totalCredits, totalDebits, totalRefunds := totalCredits + periodCredits, totalDebits + periodDebits, totalRefunds + periodRefunds;
        totalExpected := totalExpected + expectedBalance;
      }
      report := Report(totalExpected, totalCredits, totalDebits, totalRefunds, mismatches);
      AllSummed(wallets, ids, openings + log, report);
    }
  }

  // ----- what reconciliation finds

  predicate Reports(ms: seq<Mismatch>, wallet: Id) { exists m :: m in ms && m.wallet == wallet }

  ghost predicate Off(ws: seq<(Id, int)>, ts: seq<Txn>, wallet: Id) {
    exists w :: w in ws && w.0 == wallet && w.1 != Expected(Page(ts, wallet), wallet)
  }

  /** The report names exactly the wallets whose balance is not the expected one. */
  lemma {:induction false} MismatchIff(ws: seq<(Id, int)>, ts: seq<Txn>, wallet: Id)
    ensures Reports(Mismatches(ws, ts), wallet) <==> Off(ws, ts, wallet)
  {
    if ws != [] {
      var init, last := ws[..|ws| - 1], ws[|ws| - 1];
      MismatchIff(init, ts, wallet);
      assert ws == init + [last];
      var found := if last.1 != Expected(Page(ts, last.0), last.0) then [Mismatch(last.0, Expected(Page(ts, last.0), last.0), last.1)] else [];
      assert Mismatches(ws, ts) == Mismatches(init, ts) + found;
      hide Mismatches, Expected, Page;
      ReportsConcat(Mismatches(init, ts), found, wallet);
      OffSnoc(init, last, ts, wallet);
    }
  }

  lemma ReportsConcat(ms: seq<Mismatch>, ns: seq<Mismatch>, wallet: Id)
    ensures Reports(ms + ns, wallet) <==> Reports(ms, wallet) || Reports(ns, wallet)
  {
    assert forall m :: m in ms + ns <==> m in ms || m in ns;
  }

  lemma OffSnoc(ws: seq<(Id, int)>, w: (Id, int), ts: seq<Txn>, wallet: Id)
    ensures Off(ws + [w], ts, wallet) <==> Off(ws, ts, wallet) || (w.0 == wallet && w.1 != Expected(Page(ts, wallet), wallet))
  {
    assert forall v :: v in ws + [w] <==> v in ws || v == w;
  }

  /**
   A reachable wallet that reconciliation selects, and whose transactions fit one page, is reported
   if and only if its lost opening credit, its adjustments and twice its debits do not cancel out.
   */
  lemma {:induction false} ReportedIff(a: Adapter, b: Bank, ids: seq<Id>, wallet: Id)
    requires AllAccounted(a, b) && OpeningsOk(a, b) && wallet in ids && forall i :: 0 <= i < |ids| ==> ids[i] in b.wallets
    requires |OfWallet(b.openings + b.log, wallet)| <= TXN_PAGE
    ensures var ts := b.openings + b.log; var reported := Mismatches(Balances(b.wallets, ids), ts);
      var lost := if HasOpening(b.openings, wallet) then 0 else b.wallets[wallet].opening;
      var debits := if a.negativeDebits then 2 * CommittedTotal(ts, Kind.Debit, wallet) else 0;
      Reports(reported, wallet) <==> lost + CommittedTotal(ts, Adjustment, wallet) + debits != 0
  {
    var ts := b.openings + b.log;
    Discrepancy(a, b, wallet);
    MismatchIff(Balances(b.wallets, ids), ts, wallet);
    hide AllAccounted, OpeningsOk, CommittedTotal, Page, Mismatches, OfWallet, HasOpening, Expected;
    var i :| 0 <= i < |ids| && ids[i] == wallet;
    assert Balances(b.wallets, ids)[i].0 == wallet;
  }

  lemma NoAdjustmentsIn(a: Adapter, b: Bank)
    requires OpeningsOk(a, b) && forall i :: 0 <= i < |b.log| ==> b.log[i].kind != Adjustment
    ensures forall i :: 0 <= i < |b.openings + b.log| ==> (b.openings + b.log)[i].kind != Adjustment
  {}

  /** With debits stored as magnitudes, opening credits filed one by one, and no adjustment, a run reports nothing. */
  lemma MagnitudesReconcile(a: Adapter, b: Bank, ids: seq<Id>)
    requires AllAccounted(a, b) && OpeningsOk(a, b) && !a.negativeDebits && !a.sharedOpeningSlot
    requires forall i :: 0 <= i < |ids| ==> ids[i] in b.wallets && |OfWallet(b.openings + b.log, ids[i])| <= TXN_PAGE
    requires forall i :: 0 <= i < |b.log| ==> b.log[i].kind != Adjustment
    ensures Mismatches(Balances(b.wallets, ids), b.openings + b.log) == []
  {
    var ts := b.openings + b.log;
    var reported := Mismatches(Balances(b.wallets, ids), ts);
    NoAdjustmentsIn(a, b);
    hide AllAccounted, OpeningsOk, CommittedTotal, Page, Mismatches, OfWallet, Expected, HasOpening;
    if reported != [] {
      var wallet := reported[0].wallet;
      assert reported[0] in reported;
      MismatchIff(Balances(b.wallets, ids), ts, wallet);
      assert wallet in ids;
      NoAdjustments(ts, wallet);
      ReportedIff(a, b, ids, wallet);
    }
  }

  lemma {:induction false} NoAdjustments(ts: seq<Txn>, wallet: Id)
    requires forall i :: 0 <= i < |ts| ==> ts[i].kind != Adjustment
    ensures CommittedTotal(ts, Adjustment, wallet) == 0
  {
    if ts != [] { NoAdjustments(ts[..|ts| - 1], wallet); }
  }

  lemma {:induction false} AllOfWallet(ts: seq<Txn>, wallet: Id)
    requires forall i :: 0 <= i < |ts| ==> ts[i].wallet == wallet
    ensures OfWallet(ts, wallet) == ts
  {
    if ts != [] { AllOfWallet(ts[..|ts| - 1], wallet); }
  }

  lemma CommittedPair(c: Txn, d: Txn, kind: Kind, wallet: Id)
    requires c.wallet == d.wallet == wallet && c.status == d.status == Committed
    ensures CommittedTotal([c] + [d], kind, wallet) == (if c.kind == kind then c.amount else 0) + if d.kind == kind then d.amount else 0
  {
    assert [] + [c] == [c];
    CommittedSnoc([], c, kind, wallet);
    CommittedSnoc([c], d, kind, wallet);
  }

  lemma OneCreditOneDebit(c: Txn, d: Txn, balance: int)
    requires c.kind == Credit && d.kind == Debit && c.status == d.status == Committed && c.wallet == d.wallet
    ensures Mismatches([(c.wallet, balance)], [c] + [d])
         == if balance != c.amount - d.amount then [Mismatch(c.wallet, c.amount - d.amount, balance)] else []
  {
    var ts, w := [c] + [d], c.wallet;
    AllOfWallet(ts, w);
    CommittedPair(c, d, Credit, w);
    CommittedPair(c, d, Debit, w);
    CommittedPair(c, d, Refund, w);
    hide CommittedTotal, OfWallet;
    assert [(w, balance)][..0] == [];
  }

  /** The stores as shipped: a wallet opened with 500 and charged 100 is reported, though its balance is right. */
  method CleanWalletIsReported() returns (report: Report)
    ensures report.mismatches == [Mismatch("w", 600, 400)]
  {
    hide AllAccounted, OpeningsOk, Owned, Mismatches, KeysUnique, KeyUsed, Unhurried, RecentDebits, TotalOf, CommittedTotal;
    var service := new CoverWallets(IN_MEMORY);
    var created := service.CreateWallet("w", "e", Some("o"), "u", "o", 500, 0);
    var charged := service.Debit("w", 100, None, "bar", "k", None, 1);
    OneCreditOneDebit(service.openings[0], service.log[0], 400);
    assert Balances(service.wallets, ["w"]) == [("w", 400)];
    assert service.openings + service.log == [service.openings[0]] + [service.log[0]];
    report := service.RunReconciliation(["w"]);
  }
}
