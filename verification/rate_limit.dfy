/**
 The sliding-window rate limiter: per key the accepted timestamps still inside the window,
 in a map whose iteration order is the order of last touch and whose size is bounded.
 */
module RateLimit {
  import opened Common
  import Text

  const MAX_TRACKED_KEYS: nat := 50_000

  datatype Class = PublicRead | AuthRead | StandardCommand | SensitiveCommand | OtpSend | OtpVerify | ScannerCommand

  datatype Budget = Budget(limit: nat, windowMs: nat)

  function BudgetOf(c: Class): (b: Budget)
    ensures b.limit > 0 && b.windowMs > 0
  {
    match c
    case PublicRead => Budget(120, 60_000)
    case AuthRead => Budget(240, 60_000)
    case StandardCommand => Budget(60, 60_000)
    case SensitiveCommand => Budget(10, 60_000)
    case OtpSend => Budget(5, 60_000)
    case OtpVerify => Budget(10, 60_000)
    case ScannerCommand => Budget(300, 60_000)
  }

  /** One bucket: the class of the route, and the caller's IP, user and organization joined by bars. */
  datatype Key = Key(class_: Class, principal: Text.Str)

  /** The map: its entries, and its keys in iteration order. */
  datatype Limiter = Limiter(hits: map<Key, seq<int>>, order: seq<Key>)

  datatype Verdict = Admitted | Refused(retryAfterSeconds: int)

  function Recent(stamps: seq<int>, after: int): (r: seq<int>)
    ensures |r| <= |stamps| && forall x :: x in r <==> x in stamps && x > after
  {
    if stamps == [] then []
    else if stamps[0] > after then [stamps[0]] + Recent(stamps[1..], after)
    else Recent(stamps[1..], after)
  }

  function Without(order: seq<Key>, key: Key): (r: seq<Key>)
    ensures forall k :: k in r <==> k in order && k != key
  {
    if order == [] then [] else (if order[0] == key then [] else [order[0]]) + Without(order[1..], key)
  }

  function Stored(l: Limiter, key: Key): seq<int> { if key in l.hits then l.hits[key] else [] }

  /** Deletes the key, makes room by dropping the first key if the map is full, and inserts it last. */
  function Touched(l: Limiter, key: Key, value: seq<int>): Limiter {
    var hits, order := l.hits - {key}, Without(l.order, key);
    if |order| >= MAX_TRACKED_KEYS then Limiter((hits - {order[0]})[key := value], order[1..] + [key])
    else Limiter(hits[key := value], order + [key])
  }

  function CeilDiv(a: int, b: nat): (q: int)
    requires b > 0
    ensures q * b >= a > (q - 1) * b
  {
    -((-a) / b)
  }

  /** Whole seconds until the oldest accepted hit leaves the window, at least one. */
  function RetryAfter(recent: seq<int>, windowMs: nat, now: int): (s: int)
    requires |recent| > 0
    ensures s >= 1 && now + 1000 * s >= recent[0] + windowMs
    ensures s > 1 ==> now + 1000 * (s - 1) < recent[0] + windowMs
  {
    var s := CeilDiv(recent[0] + windowMs - now, 1000);
    if s < 1 then 1 else s
  }

  function Judge(stamps: seq<int>, b: Budget, now: int): (v: Verdict)
    requires b.limit > 0
    ensures v == Admitted <==> |Recent(stamps, now - b.windowMs)| < b.limit
  {
    var recent := Recent(stamps, now - b.windowMs);
    if |recent| >= b.limit then Refused(RetryAfter(recent, b.windowMs, now)) else Admitted
  }

  /** The timestamps a key is left with after a request. */
  function Entry(stamps: seq<int>, b: Budget, now: int): seq<int> {
    var recent := Recent(stamps, now - b.windowMs);
    if |recent| >= b.limit then recent else recent + [now]
  }

  /** The map after one request. */
  function AfterHit(l: Limiter, key: Key, now: int): Limiter {
    Touched(l, key, Entry(Stored(l, key), BudgetOf(key.class_), now))
  }

  /** The iteration order lists each tracked key once, and there are not too many. */
  ghost predicate Tracks(l: Limiter) {
    Distinct(l.order) && (forall k :: k in l.order <==> k in l.hits) && |l.order| <= MAX_TRACKED_KEYS
  }

  lemma {:induction false} Cardinality(order: seq<Key>, keys: set<Key>)
    requires Distinct(order) && forall k :: k in order <==> k in keys
    ensures |keys| == |order|
  {
    if order == [] {
      assert keys == {};
    } else {
      Cardinality(order[1..], keys - {order[0]});
    }
  }

  lemma {:induction false} WithoutKeepsDistinct(order: seq<Key>, key: Key)
    requires Distinct(order)
    ensures Distinct(Without(order, key))
    ensures |Without(order, key)| == if key in order then |order| - 1 else |order|
    ensures key !in order ==> Without(order, key) == order
  {
    if order != [] {
      var head, tail := order[0], order[1..];
      HeadOnlyOnce(order);
      WithoutKeepsDistinct(tail, key);
      assert order == [head] + tail;
      HeadStaysDistinct(head, Without(tail, key));
    }
  }

  lemma HeadStaysDistinct(head: Key, rest: seq<Key>)
    requires Distinct(rest) && head !in rest
    ensures Distinct([head] + rest)
  {
    assert forall i :: 0 <= i < |rest| ==> rest[i] in rest;
  }

  lemma HeadOnlyOnce(order: seq<Key>)
    requires Distinct(order) && order != []
    ensures Distinct(order[1..]) && order[0] !in order[1..]
  {}

  lemma NewLast(order: seq<Key>, key: Key)
    requires Distinct(order) && key !in order
    ensures Distinct(order + [key])
  {
    assert forall i :: 0 <= i < |order| ==> order[i] in order;
  }

  lemma DeleteKeepsTracking(l: Limiter, key: Key)
    requires Tracks(l)
    ensures Tracks(Limiter(l.hits - {key}, Without(l.order, key)))
  {
    WithoutKeepsDistinct(l.order, key);
  }

  lemma EvictKeepsTracking(l: Limiter)
    requires Tracks(l) && l.order != []
    ensures Tracks(Limiter(l.hits - {l.order[0]}, l.order[1..]))
  {
    HeadOnlyOnce(l.order);
    assert forall k :: k in l.order <==> k == l.order[0] || k in l.order[1..];
  }

  lemma InsertKeepsTracking(l: Limiter, key: Key, value: seq<int>)
    requires Tracks(l) && key !in l.hits && |l.order| < MAX_TRACKED_KEYS
    ensures Tracks(Limiter(l.hits[key := value], l.order + [key]))
  {
    NewLast(l.order, key);
  }

  lemma TouchKeepsTracking(l: Limiter, key: Key, value: seq<int>)
    requires Tracks(l)
    ensures Tracks(Touched(l, key, value))
  {
    hide Tracks, Without;
    var deleted := Limiter(l.hits - {key}, Without(l.order, key));
    DeleteKeepsTracking(l, key);
    TracksBounded(deleted);
    if |deleted.order| >= MAX_TRACKED_KEYS {
      EvictKeepsTracking(deleted);
      InsertKeepsTracking(Limiter(deleted.hits - {deleted.order[0]}, deleted.order[1..]), key, value);
    } else {
      InsertKeepsTracking(deleted, key, value);
    }
  }

  lemma TracksBounded(l: Limiter)
    requires Tracks(l)
    ensures |l.order| <= MAX_TRACKED_KEYS
  {}

  class RateLimiter {
    var hits: map<Key, seq<int>>
    var order: seq<Key>

    ghost function View(): Limiter
      reads this
    {
      Limiter(hits, order)
    }

    constructor ()
      ensures View() == Limiter(map[], []) && Tracks(View())
    {
      hits, order := map[], [];
    }

    method Touch(key: Key, value: seq<int>)
      requires Tracks(View())
      modifies this
      ensures View() == Touched(old(View()), key, value) && Tracks(View())
    {
      TouchKeepsTracking(View(), key, value);
      WithoutKeepsDistinct(order, key);
      hits, order := hits - {key}, Without(order, key);
      Cardinality(order, hits.Keys);
      if |hits| >= MAX_TRACKED_KEYS {
        var oldestKey := order[0];
        hits, order := hits - {oldestKey}, order[1..];
      }
      hits, order := hits[key := value], order + [key];
    }

    method Hit(key: Key, now: int) returns (v: Verdict)
      requires Tracks(View())
      modifies this
      ensures v == Judge(Stored(old(View()), key), BudgetOf(key.class_), now)
      ensures View() == AfterHit(old(View()), key, now) && Tracks(View())
    {
      var budget := BudgetOf(key.class_);
      var recent := Recent(if key in hits then hits[key] else [], now - budget.windowMs);
      if |recent| >= budget.limit {
        v := Refused(RetryAfter(recent, budget.windowMs, now));
        Touch(key, recent);
        return;
      }
      recent := recent + [now];
      Touch(key, recent);
      v := Admitted;
    }
  }

  // ----- runs

  datatype Request = Request(key: Key, at: int)

  /**
   The limiter together with what it no longer remembers: for every key all the hits accepted
   since the key was last inserted, and when it was last touched.
   */
  datatype Trace = Trace(l: Limiter, history: map<Key, seq<int>>, touchedAt: map<Key, nat>, tick: nat)

  function Start(): Trace { Trace(Limiter(map[], []), map[], map[], 0) }

  /** All hits accepted on the key since it was inserted. */
  function HistoryOf(s: Trace, key: Key): seq<int> {
    if key in s.l.hits && key in s.history then s.history[key] else []
  }

  function VerdictOn(s: Trace, r: Request): Verdict { Judge(Stored(s.l, r.key), BudgetOf(r.key.class_), r.at) }

  function Step(s: Trace, r: Request): Trace {
    var history := HistoryOf(s, r.key) + if VerdictOn(s, r) == Admitted then [r.at] else [];
    Trace(AfterHit(s.l, r.key, r.at), s.history[r.key := history], s.touchedAt[r.key := s.tick], s.tick + 1)
  }

  function Run(s: Trace, rs: seq<Request>): Trace
    decreases |rs|
  {
    if rs == [] then s else Step(Run(s, rs[..|rs| - 1]), rs[|rs| - 1])
  }

  lemma RunSnoc(s: Trace, rs: seq<Request>, r: Request)
    ensures Run(s, []) == s && Run(s, rs + [r]) == Step(Run(s, rs), r)
  {
    assert (rs + [r])[..|rs|] == rs;
  }

  /** The clock never runs backwards. */
  ghost predicate Steady(rs: seq<Request>) { forall i, j :: 0 <= i < j < |rs| ==> rs[i].at <= rs[j].at }

  ghost predicate Sorted(stamps: seq<int>) { forall i, j :: 0 <= i < j < |stamps| ==> stamps[i] <= stamps[j] }

  ghost predicate SpacedAt(history: seq<int>, b: Budget, i: nat)
    requires i < |history| - b.limit
  {
    history[i + b.limit] - history[i] >= b.windowMs
  }

  /** Any `limit + 1` accepted hits in a row span at least a window. */
  ghost predicate Spaced(history: seq<int>, b: Budget) {
    forall i :: 0 <= i < |history| - b.limit ==> SpacedAt(history, b, i)
  }

  /** A history the limiter can have produced by `last`. */
  ghost predicate Plausible(history: seq<int>, b: Budget, last: int) {
    Sorted(history) && Spaced(history, b) && forall i :: 0 <= i < |history| ==> history[i] <= last
  }

  /** What the pruned list misses of the history has left every window that ends from now on. */
  ghost predicate Agrees(pruned: seq<int>, history: seq<int>, windowMs: nat, now: int) {
    && |pruned| <= |history| && pruned == history[|history| - |pruned|..]
    && forall i :: 0 <= i < |history| - |pruned| ==> history[i] <= now - windowMs
  }

  lemma {:induction false} RecentSuffix(stamps: seq<int>, after: int)
    requires Sorted(stamps)
    ensures var r := Recent(stamps, after);
      && r == stamps[|stamps| - |r|..] && forall i :: 0 <= i < |stamps| - |r| ==> stamps[i] <= after
  {
    if stamps != [] {
      RecentSuffix(stamps[1..], after);
      if stamps[0] > after { AllRecent(stamps, after); }
    }
  }

  lemma {:induction false} AllRecent(stamps: seq<int>, after: int)
    requires forall i :: 0 <= i < |stamps| ==> stamps[i] > after
    ensures Recent(stamps, after) == stamps
  {
    if stamps != [] { AllRecent(stamps[1..], after); }
  }

  /** Filtering the pruned list and filtering the whole history give the same window. */
  lemma {:induction false} PrunedAgreesWithHistory(pruned: seq<int>, history: seq<int>, windowMs: nat, last: int, now: int)
    requires Agrees(pruned, history, windowMs, last) && last <= now
    ensures Recent(pruned, now - windowMs) == Recent(history, now - windowMs)
  {
    if |pruned| < |history| {
      assert history[0] <= last - windowMs;
      PrunedAgreesWithHistory(pruned, history[1..], windowMs, last, now);
    }
  }

  lemma HitKeepsSpacing(recent: seq<int>, history: seq<int>, b: Budget, last: int, now: int)
    requires Plausible(history, b, last) && last <= now
    requires Agrees(recent, history, b.windowMs, now) && |recent| < b.limit
    ensures Plausible(history + [now], b, now)
  {
    var h := history + [now];
    forall i | 0 <= i < |h| - b.limit ensures SpacedAt(h, b, i) {
      if i + b.limit < |history| { assert SpacedAt(history, b, i); }
    }
  }

  lemma WindowAgrees(history: seq<int>, windowMs: nat, now: int)
    requires Sorted(history)
    ensures Agrees(Recent(history, now - windowMs), history, windowMs, now)
  {
    RecentSuffix(history, now - windowMs);
  }

  lemma AgreesAfterPush(recent: seq<int>, history: seq<int>, windowMs: nat, now: int)
    requires Agrees(recent, history, windowMs, now)
    ensures Agrees(recent + [now], history + [now], windowMs, now)
  {
    var k := |history| - |recent|;
    assert (history + [now])[k..] == history[k..] + [now];
  }

  /** One more hit on a key keeps its pruned list in step with its history. */
  lemma HitKeepsBoth(pruned: seq<int>, history: seq<int>, b: Budget, last: int, now: int)
    requires Agrees(pruned, history, b.windowMs, last) && last <= now && Plausible(history, b, last)
    ensures var history' := if |Recent(pruned, now - b.windowMs)| < b.limit then history + [now] else history;
      Plausible(history', b, now) && Agrees(Entry(pruned, b, now), history', b.windowMs, now)
  {
    hide Recent, Spaced;
    var recent := Recent(pruned, now - b.windowMs);
    PrunedAgreesWithHistory(pruned, history, b.windowMs, last, now);
    WindowAgrees(history, b.windowMs, now);
    hide Plausible, Agrees;
    if |recent| < b.limit {
      HitKeepsSpacing(recent, history, b, last, now);
      AgreesAfterPush(recent, history, b.windowMs, now);
    } else {
      LaterIsFine(recent, history, b, last, now);
    }
  }

  ghost predicate KeyOk(s: Trace, key: Key, last: int) {
    var b := BudgetOf(key.class_);
    && (key in s.history ==> Plausible(s.history[key], b, last))
    && (key in s.l.hits ==> key in s.history && Agrees(s.l.hits[key], s.history[key], b.windowMs, last))
  }

  lemma TouchLeavesOthers(l: Limiter, key: Key, value: seq<int>, other: Key)
    requires other != key
    ensures other in Touched(l, key, value).hits ==> other in l.hits && Touched(l, key, value).hits[other] == l.hits[other]
  {}

  lemma TouchStores(l: Limiter, key: Key, value: seq<int>)
    ensures key in Touched(l, key, value).hits && Touched(l, key, value).hits[key] == value
  {}

  lemma LaterIsFine(pruned: seq<int>, history: seq<int>, b: Budget, last: int, now: int)
    requires last <= now
    ensures Plausible(history, b, last) ==> Plausible(history, b, now)
    ensures Agrees(pruned, history, b.windowMs, last) ==> Agrees(pruned, history, b.windowMs, now)
  {}

  lemma StepLeavesOthersOk(s: Trace, r: Request, key: Key, last: int)
    requires KeyOk(s, key, last) && last <= r.at && key != r.key
    ensures KeyOk(Step(s, r), key, r.at)
  {
    hide Plausible, Agrees, Touched, Recent, Judge, BudgetOf;
    TouchLeavesOthers(s.l, r.key, Entry(Stored(s.l, r.key), BudgetOf(r.key.class_), r.at), key);
    LaterIsFine(Stored(s.l, key), if key in s.history then s.history[key] else [], BudgetOf(key.class_), last, r.at);
  }

  lemma StepKeepsKeyOk(s: Trace, r: Request, key: Key, last: int)
    requires KeyOk(s, key, last) && last <= r.at
    ensures KeyOk(Step(s, r), key, r.at)
  {
    hide Plausible, Agrees, Touched, Recent, Judge, BudgetOf;
    if key == r.key {
      var b := BudgetOf(r.key.class_);
      TouchStores(s.l, key, Entry(Stored(s.l, r.key), b, r.at));
      NothingAgrees(b, last);
      HitKeepsBoth(Stored(s.l, key), HistoryOf(s, key), b, last, r.at);
      assert HistoryOf(s, key) + [] == HistoryOf(s, key);
    } else {
      StepLeavesOthersOk(s, r, key, last);
    }
  }

  lemma NothingAgrees(b: Budget, last: int)
    ensures Plausible([], b, last) && Agrees([], [], b.windowMs, last)
  {}

  lemma {:induction false} RunKeepsKeyOk(rs: seq<Request>, key: Key)
    requires Steady(rs) && rs != []
    ensures KeyOk(Run(Start(), rs), key, rs[|rs| - 1].at)
    decreases |rs|
  {
    var init := rs[..|rs| - 1];
    if init == [] {
      assert KeyOk(Run(Start(), init), key, rs[0].at);
      StepKeepsKeyOk(Start(), rs[0], key, rs[0].at);
    } else {
      RunKeepsKeyOk(init, key);
      StepKeepsKeyOk(Run(Start(), init), rs[|rs| - 1], key, init[|init| - 1].at);
    }
  }

  // ----- every window

  /** Accepted hits in the window that ends at `t`. */
  function InWindow(history: seq<int>, windowMs: nat, t: int): nat {
    if history == [] then 0
    else InWindow(history[..|history| - 1], windowMs, t) + if t - windowMs < history[|history| - 1] <= t then 1 else 0
  }

  /** In a sorted history the hits of a window stand next to each other. */
  lemma {:induction false} WindowIsASlice(history: seq<int>, windowMs: nat, t: int) returns (a: nat, b: nat)
    requires Sorted(history)
    ensures a <= b <= |history| && InWindow(history, windowMs, t) == b - a
    ensures forall i :: 0 <= i < |history| ==> (a <= i < b <==> t - windowMs < history[i] <= t)
    ensures forall i :: b <= i < |history| ==> history[i] > t
  {
    if history == [] { return 0, 0; }
    var n := |history| - 1;
    a, b := WindowIsASlice(history[..n], windowMs, t);
    if history[n] <= t - windowMs {
      assert b == n && forall i :: 0 <= i < n ==> history[..n][i] <= t - windowMs;
      a, b := n + 1, n + 1;
    } else if history[n] <= t {
      assert forall i :: 0 <= i < n ==> history[..n][i] <= t;
      assert b == n;
      b := n + 1;
    }
  }

  lemma SpacedBoundsWindows(history: seq<int>, b: Budget, t: int)
    requires Sorted(history) && Spaced(history, b)
    ensures InWindow(history, b.windowMs, t) <= b.limit
  {
    var lo, hi := WindowIsASlice(history, b.windowMs, t);
    assert lo < |history| - b.limit ==> SpacedAt(history, b, lo);
  }

  /**
   With a clock that never runs backwards, no window of the class's length, wherever it ends,
   contains more accepted hits of a key than the class allows.
   */
  lemma EveryWindowIsWithinBudget(rs: seq<Request>, key: Key, t: int)
    requires Steady(rs)
    ensures InWindow(HistoryOf(Run(Start(), rs), key), BudgetOf(key.class_).windowMs, t) <= BudgetOf(key.class_).limit
  {
    if rs != [] {
      RunKeepsKeyOk(rs, key);
      SpacedBoundsWindows(HistoryOf(Run(Start(), rs), key), BudgetOf(key.class_), t);
    }
  }

  // ----- which key is evicted

  ghost predicate ByAge(order: seq<Key>, touchedAt: map<Key, nat>) {
    && (forall i :: 0 <= i < |order| ==> order[i] in touchedAt)
    && forall i, j :: 0 <= i < j < |order| ==> touchedAt[order[i]] < touchedAt[order[j]]
  }

  /** The map iterates from the key touched longest ago to the one touched last. */
  ghost predicate Ordered(s: Trace) {
    && Tracks(s.l) && ByAge(s.l.order, s.touchedAt)
    && forall k | k in s.touchedAt :: s.touchedAt[k] < s.tick
  }

  lemma {:induction false} WithoutKeepsAge(order: seq<Key>, key: Key, touchedAt: map<Key, nat>)
    requires ByAge(order, touchedAt)
    ensures ByAge(Without(order, key), touchedAt)
  {
    if order != [] {
      var rest := Without(order[1..], key);
      WithoutKeepsAge(order[1..], key, touchedAt);
      forall i | 0 <= i < |rest| ensures touchedAt[order[0]] < touchedAt[rest[i]] { assert rest[i] in order[1..]; }
    }
  }

  lemma YoungestStay(order: seq<Key>, touchedAt: map<Key, nat>)
    requires ByAge(order, touchedAt) && order != []
    ensures ByAge(order[1..], touchedAt)
  {}

  lemma NewestLast(order: seq<Key>, key: Key, touchedAt: map<Key, nat>, tick: nat)
    requires ByAge(order, touchedAt) && key !in order && forall k | k in touchedAt :: touchedAt[k] < tick
    ensures ByAge(order + [key], touchedAt[key := tick])
  {
    assert forall i :: 0 <= i < |order| ==> order[i] in order;
  }

  lemma StepKeepsOrder(s: Trace, r: Request)
    requires Ordered(s)
    ensures Ordered(Step(s, r))
  {
    hide ByAge, Entry, BudgetOf, Judge, HistoryOf, Without;
    var order := Without(s.l.order, r.key);
    TouchKeepsTracking(s.l, r.key, Entry(Stored(s.l, r.key), BudgetOf(r.key.class_), r.at));
    WithoutKeepsAge(s.l.order, r.key, s.touchedAt);
    if |order| >= MAX_TRACKED_KEYS {
      YoungestStay(order, s.touchedAt);
      NewestLast(order[1..], r.key, s.touchedAt, s.tick);
    } else {
      NewestLast(order, r.key, s.touchedAt, s.tick);
    }
  }

  lemma {:induction false} RunKeepsOrder(rs: seq<Request>)
    ensures Ordered(Run(Start(), rs))
    decreases |rs|
  {
    if rs != [] {
      RunKeepsOrder(rs[..|rs| - 1]);
      StepKeepsOrder(Run(Start(), rs[..|rs| - 1]), rs[|rs| - 1]);
    }
  }

  lemma TouchedKeys(l: Limiter, key: Key, value: seq<int>)
    requires Tracks(l)
    ensures key in l.hits || |l.order| < MAX_TRACKED_KEYS ==> Touched(l, key, value).hits.Keys == l.hits.Keys + {key}
    ensures key !in l.hits && |l.order| == MAX_TRACKED_KEYS ==>
      Touched(l, key, value).hits.Keys == l.hits.Keys - {l.order[0]} + {key}
  {
    WithoutKeepsDistinct(l.order, key);
  }

  /** The key that gives way is tracked, and no tracked key was touched longer ago. */
  ghost predicate LeastRecentlyTouched(s: Trace, evicted: Key) {
    && evicted in s.l.hits && evicted in s.touchedAt
    && forall k | k in s.l.hits :: k in s.touchedAt && s.touchedAt[evicted] <= s.touchedAt[k]
  }

  /** In every reachable state the map is bounded, and a request evicts a key only if its own is new and the map is full. */
  lemma EvictionIsLeastRecentlyTouched(rs: seq<Request>, r: Request)
    ensures var s := Run(Start(), rs); var s' := Step(s, r);
      && |s'.l.hits| <= MAX_TRACKED_KEYS
      && (r.key in s.l.hits || |s.l.hits| < MAX_TRACKED_KEYS ==> s'.l.hits.Keys == s.l.hits.Keys + {r.key})
      && (r.key !in s.l.hits && |s.l.hits| == MAX_TRACKED_KEYS ==>
            exists evicted :: LeastRecentlyTouched(s, evicted) && s'.l.hits.Keys == s.l.hits.Keys - {evicted} + {r.key})
  {
    hide Run, Touched, Without, Recent, ByAge, Judge, BudgetOf, HistoryOf;
    var s := Run(Start(), rs);
    RunKeepsOrder(rs);
    StepKeepsOrder(s, r);
    Cardinality(s.l.order, s.l.hits.Keys);
    Cardinality(Step(s, r).l.order, Step(s, r).l.hits.Keys);
    TouchedKeys(s.l, r.key, Entry(Stored(s.l, r.key), BudgetOf(r.key.class_), r.at));
    if r.key !in s.l.hits && |s.l.hits| == MAX_TRACKED_KEYS {
      OldestFirst(s);
    }
  }

  lemma OldestFirst(s: Trace)
    requires Ordered(s) && s.l.order != []
    ensures LeastRecentlyTouched(s, s.l.order[0])
  {
    assert s.l.order[0] in s.l.order;
    forall k | k in s.l.hits ensures k in s.touchedAt && s.touchedAt[s.l.order[0]] <= s.touchedAt[k] {
      assert k in s.l.order;
    }
  }

  // ----- the advertised wait

  /** A key never stores more hits than its class allows. */
  ghost predicate WithinLimits(l: Limiter) {
    forall k | k in l.hits :: |l.hits[k]| <= BudgetOf(k.class_).limit
  }

  lemma {:induction false} RunKeepsLimits(rs: seq<Request>)
    ensures WithinLimits(Run(Start(), rs).l)
    decreases |rs|
  {
    if rs != [] {
      var s, r := Run(Start(), rs[..|rs| - 1]), rs[|rs| - 1];
      RunKeepsLimits(rs[..|rs| - 1]);
      var value := Entry(Stored(s.l, r.key), BudgetOf(r.key.class_), r.at);
      forall k | k in Run(Start(), rs).l.hits ensures |Run(Start(), rs).l.hits[k]| <= BudgetOf(k.class_).limit {
        if k == r.key { TouchStores(s.l, k, value); } else { TouchLeavesOthers(s.l, r.key, value, k); }
      }
    }
  }

  /** Requests on other keys leave the entry of a key alone, or evict it. */
  lemma {:induction false} OthersLeaveEntry(s: Trace, rs: seq<Request>, key: Key)
    requires forall i :: 0 <= i < |rs| ==> rs[i].key != key
    ensures Stored(Run(s, rs).l, key) == Stored(s.l, key) || Stored(Run(s, rs).l, key) == []
    decreases |rs|
  {
    if rs != [] {
      var s', r := Run(s, rs[..|rs| - 1]), rs[|rs| - 1];
      OthersLeaveEntry(s, rs[..|rs| - 1], key);
      TouchLeavesOthers(s'.l, r.key, Entry(Stored(s'.l, r.key), BudgetOf(r.key.class_), r.at), key);
    }
  }

  lemma WaitingFreesASlot(recent: seq<int>, b: Budget, now: int, later: int)
    requires 0 < |recent| <= b.limit && later >= now + 1000 * RetryAfter(recent, b.windowMs, now)
    ensures Judge(recent, b, later) == Admitted && Judge([], b, later) == Admitted
  {}

  /**
   A refused caller who comes back after the advertised seconds is admitted, whatever requests
   on other keys arrive in between.
   */
  lemma {:induction false} AdvertisedWaitSuffices(before: seq<Request>, refused: Request, between: seq<Request>, again: Request)
    requires VerdictOn(Run(Start(), before), refused).Refused?
    requires again.key == refused.key && forall i :: 0 <= i < |between| ==> between[i].key != refused.key
    requires again.at >= refused.at + 1000 * VerdictOn(Run(Start(), before), refused).retryAfterSeconds
    ensures VerdictOn(Run(Step(Run(Start(), before), refused), between), again) == Admitted
  {
    hide Run, Touched, Recent, BudgetOf;
    var s := Run(Start(), before);
    var b := BudgetOf(refused.key.class_);
    var recent := Recent(Stored(s.l, refused.key), refused.at - b.windowMs);
    RunKeepsLimits(before);
    TouchStores(s.l, refused.key, recent);
    WaitingFreesASlot(recent, b, refused.at, again.at);
    OthersLeaveEntry(Step(s, refused), between, refused.key);
  }

  /** No shorter wait would do: while the key is not evicted, the caller stays refused until the last advertised second. */
  lemma ShorterWaitIsRefused(recent: seq<int>, b: Budget, now: int, later: int)
    requires |recent| >= b.limit > 0 && Sorted(recent) && recent[0] > now - b.windowMs
    requires later < recent[0] + b.windowMs
    ensures Judge(recent, b, later).Refused?
    ensures forall s :: s >= 1 && now + 1000 * s >= recent[0] + b.windowMs ==> RetryAfter(recent, b.windowMs, now) <= s
  {
    AllRecent(recent, later - b.windowMs);
  }

  // ----- one bucket never serves two classes

  function ClassName(c: Class): Text.Str {
    match c
    case PublicRead => Text.Codes("PUBLIC_READ")
    case AuthRead => Text.Codes("AUTH_READ")
    case StandardCommand => Text.Codes("STANDARD_COMMAND")
    case SensitiveCommand => Text.Codes("SENSITIVE_COMMAND")
    case OtpSend => Text.Codes("OTP_SEND")
    case OtpVerify => Text.Codes("OTP_VERIFY")
    case ScannerCommand => Text.Codes("SCANNER_COMMAND")
  }

  lemma ClassNamePlain(c: Class)
    ensures Text.PIPE !in ClassName(c)
  {
    forall i | 0 <= i < |ClassName(c)| ensures ClassName(c)[i] < 97 { Capitals(c, i); }
  }

  lemma Capitals(c: Class, i: nat)
    requires i < |ClassName(c)|
    ensures ClassName(c)[i] < 97
  {
    match c {
      case PublicRead => assert "PUBLIC_READ"[i] < 'a';
      case AuthRead => assert "AUTH_READ"[i] < 'a';
      case StandardCommand => assert "STANDARD_COMMAND"[i] < 'a';
      case SensitiveCommand => assert "SENSITIVE_COMMAND"[i] < 'a';
      case OtpSend => assert "OTP_SEND"[i] < 'a';
      case OtpVerify => assert "OTP_VERIFY"[i] < 'a';
      case ScannerCommand => assert "SCANNER_COMMAND"[i] < 'a';
    }
  }

  /** The text of a key: the class, then the principal. */
  function KeyText(key: Key): Text.Str { ClassName(key.class_) + [Text.PIPE] + key.principal }

  /** Whatever a principal contains, keys of different classes differ, so a bucket only ever meets one budget. */
  lemma KeyTextDeterminesKey(k: Key, k': Key)
    ensures KeyText(k) == KeyText(k') <==> k == k'
  {
    ClassNamePlain(k.class_);
    ClassNamePlain(k'.class_);
    if KeyText(k) == KeyText(k') {
      Text.SplitAtFirst(ClassName(k.class_), k.principal, ClassName(k'.class_), k'.principal, Text.PIPE);
      assert |ClassName(k.class_)| == |ClassName(k'.class_)|;
    }
  }
}
