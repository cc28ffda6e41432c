/**
 The velocity limit of prepaid wallets as a bound on every minute. The service checks a debit
 only against the minute that ends with it.
 */
module Velocity {
  import opened Common
  import opened Wallet

  predicate DebitBy(t: Txn, device: Id) { t.kind == Debit && t.device == Some(device) }

  /** The debits of a device from one moment to another, both included. */
  function DebitsBetween(ts: seq<Txn>, device: Id, first: int, last: int): nat {
    if ts == [] then 0
    else
      var t := ts[|ts| - 1];
      DebitsBetween(ts[..|ts| - 1], device, first, last) + if DebitBy(t, device) && first <= t.at <= last then 1 else 0
  }

  /** The clock did not run backwards while the log was written. */
  ghost predicate InOrder(ts: seq<Txn>) { forall i, j :: 0 <= i < j < |ts| ==> ts[i].at <= ts[j].at }

  predicate MinuteWithinLimit(ts: seq<Txn>, device: Id, first: int) {
    DebitsBetween(ts, device, first, first + 60_000) <= 3
  }

  /** No closed minute, wherever it begins, holds more debits of a device than the limit. */
  ghost predicate EveryMinuteWithinLimit(ts: seq<Txn>) {
    forall device, first :: MinuteWithinLimit(ts, device, first)
  }

  lemma {:induction false} BetweenIsRecent(ts: seq<Txn>, device: Id, since: int, last: int)
    ensures DebitsBetween(ts, device, since, last) <= RecentDebits(ts, device, since)
    ensures (forall i :: 0 <= i < |ts| ==> ts[i].at <= last) ==> DebitsBetween(ts, device, since, last) == RecentDebits(ts, device, since)
  {
    if ts != [] { BetweenIsRecent(ts[..|ts| - 1], device, since, last); }
  }

  lemma {:induction false} LaterSinceIsFewer(ts: seq<Txn>, device: Id, since: int, since': int)
    requires since <= since'
    ensures RecentDebits(ts, device, since') <= RecentDebits(ts, device, since)
  {
    if ts != [] { LaterSinceIsFewer(ts[..|ts| - 1], device, since, since'); }
  }

  lemma {:induction false} PrefixHasFewer(ts: seq<Txn>, k: nat, device: Id, first: int, last: int)
    requires k <= |ts|
    ensures DebitsBetween(ts[..k], device, first, last) <= DebitsBetween(ts, device, first, last)
    decreases |ts|
  {
    if k < |ts| {
      assert ts[..|ts| - 1][..k] == ts[..k];
      PrefixHasFewer(ts[..|ts| - 1], k, device, first, last);
    } else {
      assert ts[..k] == ts;
    }
  }

  lemma PrefixIsUnhurried(log: seq<Txn>, k: nat)
    requires Unhurried(log) && k <= |log|
    ensures Unhurried(log[..k])
  {
    forall i | 0 <= i < k && DeviceDebit(log[..k][i])
      ensures !TooManyDebits(log[..k][..i], log[..k][i].device, Some(SERVICE_WINDOW_MS), log[..k][i].at)
    {
      assert log[..k][..i] == log[..i] && log[..k][i] == log[i];
    }
  }

  lemma {:induction false} UnhurriedIsWithin(log: seq<Txn>, device: Id, first: int)
    requires Unhurried(log)
    ensures MinuteWithinLimit(log, device, first)
  {
    if log != [] {
      var n := |log| - 1;
      var t, last := log[n], first + SERVICE_WINDOW_MS;
      PrefixIsUnhurried(log, n);
      UnhurriedIsWithin(log[..n], device, first);
      if DebitBy(t, device) && first <= t.at <= last {
        assert DeviceDebit(log[n]);
        BetweenIsRecent(log[..n], device, first, last);
        LaterSinceIsFewer(log[..n], device, t.at - SERVICE_WINDOW_MS, first);
      }
    }
  }

  lemma CheckedMinuteIsWithin(log: seq<Txn>, k: nat)
    requires EveryMinuteWithinLimit(log) && InOrder(log) && k < |log| && DeviceDebit(log[k])
    ensures !TooManyDebits(log[..k], log[k].device, Some(SERVICE_WINDOW_MS), log[k].at)
  {
    var device, first := log[k].device.value, log[k].at - SERVICE_WINDOW_MS;
    BetweenIsRecent(log[..k], device, first, log[k].at);
    assert log[..k + 1][..k] == log[..k];
    PrefixHasFewer(log, k + 1, device, first, log[k].at);
    assert MinuteWithinLimit(log, device, first);
  }

  /**
   On a clock that does not run backwards, checking each debit against the minute before it is
   exactly keeping every minute within the limit; with a clock that jumps the check still keeps it.
   */
  lemma EveryMinuteIff(log: seq<Txn>)
    ensures Unhurried(log) ==> EveryMinuteWithinLimit(log)
    ensures InOrder(log) ==> (Unhurried(log) <==> EveryMinuteWithinLimit(log))
  {
    if Unhurried(log) {
      forall device, first ensures MinuteWithinLimit(log, device, first) {
        UnhurriedIsWithin(log, device, first);
      }
    }
    if InOrder(log) && EveryMinuteWithinLimit(log) {
      forall k | 0 <= k < |log| && DeviceDebit(log[k])
        ensures !TooManyDebits(log[..k], log[k].device, Some(SERVICE_WINDOW_MS), log[k].at)
      {
        CheckedMinuteIsWithin(log, k);
      }
    }
  }
}
