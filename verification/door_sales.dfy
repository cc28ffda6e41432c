/**
 Walk-in and dine-in sales at the door, their debit of the seller's cover wallet, and the
 wallet credit a void or a refund gives back.
 */
module DoorSales {
  import opened Common
  import opened Wallet

  datatype Category = WalkIn | DineIn

  datatype SaleStatus = Open | Voided | Refunded

  datatype Sale = Sale(category: Category, event: Id, organization: Id, createdBy: Id, amount: nat, key: Key, status: SaleStatus)

  datatype SaleError = NoSuchEvent | WrongOrganization | TierNotConfigured | NoSuchSale | NotActive | ExceedsSale

  predicate DebitOf(t: Txn, sale: Id) {
    t.reference == Some(sale) && t.referenceType == "door_sale" && t.kind == Debit && t.status == Committed
  }

  predicate RefundOf(t: Txn, sale: Id) {
    t.reference == Some(sale) && t.referenceType == "refund" && t.kind == Refund && t.status == Committed
  }

  /** What the wallet was really debited for the sale: the log decides, not the sale's amount. */
  function DebitedFor(ts: seq<Txn>, sale: Id): nat {
    if ts == [] then 0
    else DebitedFor(ts[..|ts| - 1], sale) + if DebitOf(ts[|ts| - 1], sale) then Abs(ts[|ts| - 1].amount) else 0
  }

  /** What wallets were credited back for the sale. */
  function ReturnedFor(ts: seq<Txn>, sale: Id): nat {
    if ts == [] then 0
    else ReturnedFor(ts[..|ts| - 1], sale) + if RefundOf(ts[|ts| - 1], sale) then Abs(ts[|ts| - 1].amount) else 0
  }

  lemma OneMoreTxn(openings: seq<Txn>, log: seq<Txn>, t: Txn, sale: Id)
    ensures DebitedFor(openings + (log + [t]), sale)
         == DebitedFor(openings + log, sale) + if DebitOf(t, sale) then Abs(t.amount) else 0
    ensures ReturnedFor(openings + (log + [t]), sale)
         == ReturnedFor(openings + log, sale) + if RefundOf(t, sale) then Abs(t.amount) else 0
  {
    var ts := openings + (log + [t]);
    assert ts[..|ts| - 1] == openings + log;
  }

  /** No sale ever gives back more than it took, and an open sale has given back nothing. */
  ghost predicate Repaid(sales: map<Id, Sale>, ts: seq<Txn>) {
    forall s | s in sales ::
      ReturnedFor(ts, s) <= DebitedFor(ts, s) && (sales[s].status == SaleStatus.Open ==> ReturnedFor(ts, s) == 0)
  }

  /** A transaction that is not a refund of a sale on the books, whoever posts it, keeps this. */
  lemma OtherTrafficKeepsRepaid(sales: map<Id, Sale>, openings: seq<Txn>, log: seq<Txn>, t: Txn)
    requires Repaid(sales, openings + log)
    requires forall s | s in sales :: !RefundOf(t, s)
    ensures Repaid(sales, openings + (log + [t]))
  {
    forall s | s in sales { OneMoreTxn(openings, log, t, s); }
  }

  /** A refund that names a sale, by whatever way it is posted, keeps it exactly within what the sale took and for a closed sale. */
  lemma RefundKeepsRepaidIff(sales: map<Id, Sale>, openings: seq<Txn>, log: seq<Txn>, id: Id, t: Txn)
    requires Repaid(sales, openings + log) && id in sales && RefundOf(t, id)
    ensures Repaid(sales, openings + (log + [t]))
       <==> ReturnedFor(openings + log, id) + Abs(t.amount) <= DebitedFor(openings + log, id)
            && (sales[id].status == SaleStatus.Open ==> t.amount == 0)
  {
    forall s | s in sales
      ensures ReturnedFor(openings + (log + [t]), s) == ReturnedFor(openings + log, s) + if s == id then Abs(t.amount) else 0
      ensures DebitedFor(openings + (log + [t]), s) == DebitedFor(openings + log, s)
    {
      OneMoreTxn(openings, log, t, s);
    }
  }

  lemma NewSaleKeepsRepaid(sales: map<Id, Sale>, ts: seq<Txn>, id: Id, sale: Sale)
    requires Repaid(sales, ts) && ReturnedFor(ts, id) == 0
    ensures Repaid(sales[id := sale], ts)
  {}

  lemma ClosingKeepsRepaid(sales: map<Id, Sale>, ts: seq<Txn>, id: Id, closed: Sale)
    requires Repaid(sales, ts) && id in sales && sales[id].status == SaleStatus.Open && closed.status != SaleStatus.Open
    ensures Repaid(sales[id := closed], ts) && ReturnedFor(ts, id) == 0
  {}

  class DoorService {
    const bank: CoverWallets
    var sales: map<Id, Sale>
    var byKey: map<Key, Id>

    ghost predicate Valid()
      reads this, bank
    {
      && bank.Valid() && Repaid(sales, bank.openings + bank.log)
      && forall k | k in byKey :: byKey[k] in sales
    }

    constructor (bank: CoverWallets)
      requires bank.Valid()
      ensures Valid() && this.bank == bank && sales == map[] && byKey == map[]
    {
      this.bank, sales, byKey := bank, map[], map[];
    }

    /** The wallet a sale settles with: the active one of the seller at the event. */
    function SettlingWallet(event: Id, user: Id): (w: Option<Id>)
      requires Valid()
      reads this, bank
      ensures forall id :: w == Some(id) <==>
        id in bank.wallets && (bank.wallets[id].event, bank.wallets[id].user) == (event, user) && bank.wallets[id].status == Active
    {
      if (event, user) !in bank.byEventAndUser then None
      else
        var id := bank.byEventAndUser[(event, user)];
        if bank.wallets[id].status == Active then Some(id) else None
    }

    /**
     Sells at the door, and debits the seller's wallet if it can pay. A repeated key returns the
     first sale. `id` is minted at random, so no transaction refers to it yet.
     */
    method CreateSale(id: Id, category: Category, event: Id, eventOrganization: Option<Id>, tierPrice: Option<nat>,
                      user: Id, organization: Id, key: Key, now: int)
      returns (r: Result<Sale, SaleError>)
      requires Valid() && id !in sales
      requires DebitedFor(bank.openings + bank.log, id) == 0 == ReturnedFor(bank.openings + bank.log, id)
      modifies this, bank
      ensures Valid() && bank.openings == old(bank.openings)
      ensures Unhurried(old(bank.log)) ==> Unhurried(bank.log)
      ensures
        if eventOrganization != Some(organization) || (key !in old(byKey) && tierPrice == None) then
          r.Failure? && sales == old(sales) && bank.View() == old(bank.View())
        else if key in old(byKey) then
          r == Success(old(sales)[old(byKey)[key]]) && sales == old(sales) && bank.View() == old(bank.View())
        else
          var sale := Sale(category, event, organization, user, tierPrice.value, key, SaleStatus.Open);
          var wallet := old(SettlingWallet(event, user));
          var pays := wallet.Some? && old(bank.wallets)[wallet.value].balance >= sale.amount;
          && r == Success(sale) && sales == old(sales)[id := sale]
          && DebitedFor(bank.openings + bank.log, id) == (if pays then sale.amount else 0)
          && bank.wallets == if !pays then old(bank.wallets)
             else var w := old(bank.wallets)[wallet.value];
               old(bank.wallets)[wallet.value := w.(balance := w.balance - sale.amount,
                                                    status := if w.balance == sale.amount then Terminated else w.status)]
    {
      hide AllAccounted, OpeningsOk, Owned, Unhurried, DebitedFor, ReturnedFor, Repaid;
      if eventOrganization == None { return Failure(NoSuchEvent); }
      if eventOrganization.value != organization { return Failure(WrongOrganization); }
      if key in byKey { return Success(sales[byKey[key]]); }
      if tierPrice == None { return Failure(TierNotConfigured); }
      var sale := Sale(category, event, organization, user, tierPrice.value, key, SaleStatus.Open);
      var wallet := SettlingWallet(event, user);
      NewSaleKeepsRepaid(sales, bank.openings + bank.log, id, sale);
      sales, byKey := sales[id := sale], byKey[key := id];
      if wallet.Some? && bank.wallets[wallet.value].balance >= sale.amount {
        Charge(wallet.value, id, sale.amount, key + "-debit", now);
      }
      r := Success(sale);
    }

    method Charge(wallet: Id, sale: Id, amount: nat, key: Key, now: int)
      requires Valid() && wallet in bank.wallets && bank.wallets[wallet].balance >= amount
      modifies bank`wallets, bank`log
      ensures Valid()
      ensures Unhurried(old(bank.log)) ==> Unhurried(bank.log)
      ensures var w := old(bank.wallets)[wallet];
        bank.wallets == old(bank.wallets)[wallet := w.(balance := w.balance - amount, status := if w.balance == amount then Terminated else w.status)]
      ensures DebitedFor(bank.openings + bank.log, sale) == old(DebitedFor(bank.openings + bank.log, sale)) + amount
    {
      hide AllAccounted, OpeningsOk, Owned, Unhurried, DebitedFor, ReturnedFor, Repaid;
      ghost var log := bank.log;
      var r := bank.Debit(wallet, amount, Some(sale), "door_sale", key, None, now);
      ghost var t := bank.log[|bank.log| - 1];
      OtherTrafficKeepsRepaid(sales, bank.openings, log, t);
      OneMoreTxn(bank.openings, log, t, sale);
    }

    method Repay(wallet: Id, sale: Id, amount: nat, key: Key, now: int)
      requires Valid() && wallet in bank.wallets && sale in sales && sales[sale].status != SaleStatus.Open
      requires ReturnedFor(bank.openings + bank.log, sale) == 0 && amount <= DebitedFor(bank.openings + bank.log, sale)
      modifies bank`wallets, bank`log
      ensures Valid()
      ensures Unhurried(old(bank.log)) ==> Unhurried(bank.log)
      ensures bank.wallets == old(bank.wallets)[wallet := old(bank.wallets)[wallet].(balance := old(bank.wallets)[wallet].balance + amount)]
      ensures ReturnedFor(bank.openings + bank.log, sale) == amount
    {
      hide AllAccounted, OpeningsOk, Owned, Unhurried, DebitedFor, ReturnedFor, Repaid;
      ghost var log := bank.log;
      var r := bank.Refund(wallet, amount, sale, key, now);
      ghost var t := bank.log[|bank.log| - 1];
      RefundKeepsRepaidIff(sales, bank.openings, log, sale, t);
      OneMoreTxn(bank.openings, log, t, sale);
    }

    /** Credits back at most what the sale took; nothing if nothing is due or no active wallet is there to take it. */
    method GiveBack(id: Id, amount: int, key: Key, now: int)
      requires Valid() && id in sales && sales[id].status != SaleStatus.Open
      requires ReturnedFor(bank.openings + bank.log, id) == 0 && amount <= DebitedFor(bank.openings + bank.log, id)
      modifies bank`wallets, bank`log
      ensures Valid()
      ensures Unhurried(old(bank.log)) ==> Unhurried(bank.log)
      ensures
        var wallet := old(SettlingWallet(sales[id].event, sales[id].createdBy));
        var given := if wallet.Some? && amount > 0 then amount else 0;
        && ReturnedFor(bank.openings + bank.log, id) == given
        && bank.wallets == if given == 0 then old(bank.wallets)
             else old(bank.wallets)[wallet.value := old(bank.wallets)[wallet.value].(balance := old(bank.wallets)[wallet.value].balance + given)]
    {
      hide AllAccounted, OpeningsOk, Owned, Unhurried, DebitedFor, ReturnedFor, Repaid;
      if amount > 0 {
        var wallet := SettlingWallet(sales[id].event, sales[id].createdBy);
        if wallet.Some? {
          Repay(wallet.value, id, amount, key, now);
        }
      }
    }

    /** Voids an open sale and gives back exactly what its wallet was debited. */
    method VoidSale(id: Id, organization: Id, now: int) returns (r: Result<Sale, SaleError>)
      requires Valid()
      modifies this`sales, bank`wallets, bank`log
      ensures Valid()
      ensures Unhurried(old(bank.log)) ==> Unhurried(bank.log)
      ensures r.Success? <==> id in old(sales) && old(sales)[id].organization == organization && old(sales)[id].status == SaleStatus.Open
      ensures r.Failure? ==> sales == old(sales) && bank.View() == old(bank.View())
      ensures r.Success? ==>
        && sales == old(sales)[id := old(sales)[id].(status := Voided)]
        && ReturnedFor(bank.openings + bank.log, id)
             == if old(SettlingWallet(sales[id].event, sales[id].createdBy)).Some? then old(DebitedFor(bank.openings + bank.log, id)) else 0
    {
      hide AllAccounted, OpeningsOk, Owned, Unhurried, DebitedFor, ReturnedFor, Repaid;
      if id !in sales { return Failure(NoSuchSale); }
      if sales[id].organization != organization { return Failure(WrongOrganization); }
      if sales[id].status != SaleStatus.Open { return Failure(NotActive); }
      var voided := sales[id].(status := Voided);
      ClosingKeepsRepaid(sales, bank.openings + bank.log, id, voided);
      sales := sales[id := voided];
      GiveBack(id, DebitedFor(bank.openings + bank.log, id), id + "-void", now);
      r := Success(voided);
    }

    /** Refunds an open sale; the wallet gets back no more than it was debited. */
    method RefundSale(id: Id, organization: Id, amount: int, now: int) returns (r: Result<Sale, SaleError>)
      requires Valid()
      modifies this`sales, bank`wallets, bank`log
      ensures Valid()
      ensures Unhurried(old(bank.log)) ==> Unhurried(bank.log)
      ensures r.Success? <==>
        && id in old(sales) && old(sales)[id].organization == organization
        && old(sales)[id].status == SaleStatus.Open && amount <= old(sales)[id].amount
      ensures r.Failure? ==> sales == old(sales) && bank.View() == old(bank.View())
      ensures r.Success? ==>
        && sales == old(sales)[id := old(sales)[id].(status := Refunded)]
        && ReturnedFor(bank.openings + bank.log, id)
             == if amount < 0 || old(SettlingWallet(sales[id].event, sales[id].createdBy)).None? then 0
                else Min(amount, old(DebitedFor(bank.openings + bank.log, id)))
    {
      hide AllAccounted, OpeningsOk, Owned, Unhurried, DebitedFor, ReturnedFor, Repaid;
      if id !in sales { return Failure(NoSuchSale); }
      if sales[id].organization != organization { return Failure(WrongOrganization); }
      if sales[id].status != SaleStatus.Open { return Failure(NotActive); }
      if amount > sales[id].amount { return Failure(ExceedsSale); }
      var refunded := sales[id].(status := Refunded);
      ClosingKeepsRepaid(sales, bank.openings + bank.log, id, refunded);
      sales := sales[id := refunded];
      GiveBack(id, Min(amount, DebitedFor(bank.openings + bank.log, id)), id + "-refund", now);
      r := Success(refunded);
    }

    /** Whatever was sold, voided and refunded: a sale gives back at most its debit, and nothing without one. */
    lemma NeverMintsBalance(id: Id)
      requires Valid() && id in sales
      ensures ReturnedFor(bank.openings + bank.log, id) <= DebitedFor(bank.openings + bank.log, id)
      ensures DebitedFor(bank.openings + bank.log, id) == 0 ==> ReturnedFor(bank.openings + bank.log, id) == 0
    {
      assert Repaid(sales, bank.openings + bank.log);
    }
  }
}
