/** The fixed-window rate limiter over a store of expiring counters. Times are whole seconds. */
module RateLimit {
  import opened Results

  /** The store's key for one caller and one aligned window. */
  datatype WindowKey = WindowKey(key: string, window: int)

  /** A counter without an expiry lives for ever. */
  datatype Counter = Counter(count: nat, expiresAt: Option<int>)

  type Store = map<WindowKey, Counter>

  datatype Decision = Admitted(limit: int, remaining: int, reset: int) | Limited(retryAfter: int)

  datatype Request = Request(key: string, now: int)

  predicate Live(store: Store, k: WindowKey, now: int) {
    k in store && (store[k].expiresAt.Some? ==> now < store[k].expiresAt.value)
  }

  function Incremented(store: Store, k: WindowKey, now: int): Store {
    store[k := if Live(store, k, now) then store[k].(count := store[k].count + 1) else Counter(1, None)]
  }

  /** The store and the answer after one request. */
  function Check(store: Store, r: Request, limit: int, window: int): (Store, Decision)
    requires window > 0
  {
    var k := WindowKey(r.key, r.now / window);
    var store1 := Incremented(store, k, r.now);
    var count := store1[k].count;
    var store2 := if count == 1 then store1[k := Counter(1, Some(r.now + window))] else store1;
    var reset := (r.now / window + 1) * window;
    (store2, if count > limit then Limited(reset - r.now) else Admitted(limit, limit - count, reset))
  }

  class RedisService {
    var store: Store

    constructor ()
      ensures store == map[]
    {
      store := map[];
    }

    method Incr(k: WindowKey, now: int) returns (count: nat)
      modifies this
      ensures store == Incremented(old(store), k, now) && count == store[k].count
    {
      if k in store && store[k].expiresAt.Some? && store[k].expiresAt.value <= now {
        store := store - {k};
      }
      if k in store {
        store := store[k := store[k].(count := store[k].count + 1)];
      } else {
        store := store[k := Counter(1, None)];
      }
      count := store[k].count;
    }

    method CheckRateLimit(key: string, limit: int, window: int, now: int) returns (d: Decision)
      requires window > 0
      modifies this
      ensures (store, d) == Check(old(store), Request(key, now), limit, window)
    {
      var windowKey := WindowKey(key, now / window);
      var count := Incr(windowKey, now);
      if count == 1 {
        store := store[windowKey := store[windowKey].(expiresAt := Some(now + window))];
      }
      var remaining := if limit - count > 0 then limit - count else 0;
      var reset := (now / window + 1) * window;
      if count > limit {
        return Limited(reset - now);
      }
      d := Admitted(limit, remaining, reset);
    }
  }

  // ---------------------------------------------------------------- runs

  function StoreAfter(requests: seq<Request>, limit: int, window: int): Store
    requires window > 0
  {
    if requests == [] then map[] else
    var n := |requests| - 1;
    Check(StoreAfter(requests[..n], limit, window), requests[n], limit, window).0
  }

  /** The answer to request `i` of a run. */
  function Answer(requests: seq<Request>, i: nat, limit: int, window: int): Decision
    requires window > 0 && i < |requests|
  {
    Check(StoreAfter(requests[..i], limit, window), requests[i], limit, window).1
  }

  predicate InWindow(r: Request, key: string, w: int, window: int)
    requires window > 0
  {
    r.key == key && r.now / window == w
  }

  function Hits(requests: seq<Request>, key: string, w: int, window: int): nat
    requires window > 0
  {
    if requests == [] then 0 else
    var n := |requests| - 1;
    Hits(requests[..n], key, w, window) + if InWindow(requests[n], key, w, window) then 1 else 0
  }

  /** How many of the first `n` requests were admitted in an aligned window. */
  function AdmittedIn(requests: seq<Request>, n: nat, key: string, w: int, limit: int, window: int): nat
    requires window > 0 && n <= |requests|
  {
    if n == 0 then 0 else
    AdmittedIn(requests, n - 1, key, w, limit, window)
    + if InWindow(requests[n - 1], key, w, window) && Answer(requests, n - 1, limit, window).Admitted? then 1 else 0
  }

  /** How many of the first `n` requests were admitted from time `from` until before `until`. */
  function AdmittedBetween(requests: seq<Request>, n: nat, key: string, from: int, until: int, limit: int, window: int): nat
    requires window > 0 && n <= |requests|
  {
    if n == 0 then 0 else
    AdmittedBetween(requests, n - 1, key, from, until, limit, window)
    + if requests[n - 1].key == key && from <= requests[n - 1].now < until && Answer(requests, n - 1, limit, window).Admitted? then 1 else 0
  }

  // ---------------------------------------------------------------- guarantees

  /** A window's counter counts exactly the window's requests, outlives the window, and is gone by the end of the next. */
  ghost predicate Faithful(store: Store, requests: seq<Request>, key: string, w: int, window: int)
    requires window > 0
  {
    var k, hits := WindowKey(key, w), Hits(requests, key, w, window);
    && (k in store <==> hits > 0)
    && (k in store ==> store[k].count == hits && store[k].expiresAt.Some?
                       && (w + 1) * window <= store[k].expiresAt.value < (w + 2) * window)
  }

  lemma WindowBounds(now: int, window: int)
    requires window > 0
    ensures now / window * window <= now < (now / window + 1) * window
  {
  }

  lemma CheckKeepsFaithful(store: Store, requests: seq<Request>, r: Request, limit: int, window: int, key: string, w: int)
    requires window > 0
    requires Faithful(store, requests, r.key, r.now / window, window) && Faithful(store, requests, key, w, window)
    ensures Faithful(Check(store, r, limit, window).0, requests + [r], key, w, window)
    ensures Check(store, r, limit, window).0[WindowKey(r.key, r.now / window)].count
            == Hits(requests, r.key, r.now / window, window) + 1
  {
    assert (requests + [r])[..|requests|] == requests;
    WindowBounds(r.now, window);
    assert (r.now / window + 1) * window == r.now / window * window + window;
    assert (r.now / window + 2) * window == (r.now / window + 1) * window + window;
  }

  /** No counter expires inside its own window, at any point of any run, in whatever order times come. */
  lemma {:induction false} CountersAreFaithful(requests: seq<Request>, limit: int, window: int, key: string, w: int)
    requires window > 0
    ensures Faithful(StoreAfter(requests, limit, window), requests, key, w, window)
    decreases |requests|
  {
    if requests != [] {
      var n := |requests| - 1;
      var r := requests[n];
      CountersAreFaithful(requests[..n], limit, window, key, w);
      CountersAreFaithful(requests[..n], limit, window, r.key, r.now / window);
      CheckKeepsFaithful(StoreAfter(requests[..n], limit, window), requests[..n], r, limit, window, key, w);
      assert requests == requests[..n] + [r];
    }
  }

  /** A request is admitted exactly when fewer than `limit` requests came before it in its window. */
  lemma AnswerIsByCount(requests: seq<Request>, i: nat, limit: int, window: int)
    requires window > 0 && i < |requests|
    ensures var r := requests[i];
            Answer(requests, i, limit, window).Admitted? <==> Hits(requests[..i], r.key, r.now / window, window) < limit
  {
    var r := requests[i];
    CountersAreFaithful(requests[..i], limit, window, r.key, r.now / window);
    CheckKeepsFaithful(StoreAfter(requests[..i], limit, window), requests[..i], r, limit, window, r.key, r.now / window);
  }

  /** The first whole multiple of the window after this time: where the next aligned window begins. */
  predicate NextWindow(t: int, now: int, window: int)
    requires window > 0
  {
    t % window == 0 && now < t <= now + window
  }

  lemma ResetIsNextWindow(now: int, window: int)
    requires window > 0
    ensures NextWindow((now / window + 1) * window, now, window)
  {
    WindowBounds(now, window);
    assert (now / window + 1) * window == now / window * window + window;
    MultipleOf(now / window + 1, window);
  }

  lemma MultipleOf(q: int, window: int)
    requires window > 0
    ensures (q * window) % window == 0
  {
    var t := q * window;
    assert (q + 1) * window == t + window;
    Between(t, q, window);
    Remainder(t, window);
  }

  lemma Remainder(t: int, window: int)
    requires window > 0
    ensures t == t / window * window + t % window
  {
  }

  /**
   The answer in full: what is left of the limit and when the next window begins while there is room, and
   otherwise the time until then.
   */
  lemma AnswerIsExact(requests: seq<Request>, i: nat, limit: int, window: int)
    requires window > 0 && i < |requests|
    ensures var r, d := requests[i], Answer(requests, i, limit, window);
            var hits := Hits(requests[..i], r.key, r.now / window, window);
            && (d.Admitted? ==>
                  hits < limit == d.limit && d.remaining == limit - hits - 1 && NextWindow(d.reset, r.now, window))
            && (d.Limited? ==> limit <= hits && NextWindow(r.now + d.retryAfter, r.now, window))
  {
    var r := requests[i];
    CountersAreFaithful(requests[..i], limit, window, r.key, r.now / window);
    CheckKeepsFaithful(StoreAfter(requests[..i], limit, window), requests[..i], r, limit, window, r.key, r.now / window);
    ResetIsNextWindow(r.now, window);
  }

  lemma {:induction false} HitsGrow(requests: seq<Request>, i: nat, j: nat, key: string, w: int, window: int)
    requires window > 0 && i <= j <= |requests|
    ensures Hits(requests[..i], key, w, window) <= Hits(requests[..j], key, w, window)
  {
    if i < j {
      HitsGrow(requests, i, j - 1, key, w, window);
      assert requests[..j][..j - 1] == requests[..j - 1];
    }
  }

  lemma SameWindow(now: int, later: int, reset: int, window: int)
    requires window > 0 && NextWindow(reset, now, window) && now <= later < reset
    ensures later / window == now / window
  {
    var q := reset / window;
    assert reset == q * window;
    WindowBounds(now, window);
    WindowBounds(later, window);
    assert (q - 1) * window == q * window - window;
    Between(now, q - 1, window);
    Between(later, q - 1, window);
  }

  lemma Between(now: int, q: int, window: int)
    requires window > 0 && q * window <= now < (q + 1) * window
    ensures now / window == q
  {
    WindowBounds(now, window);
    MulMonotone(now / window + 1, q, window);
    MulMonotone(q + 1, now / window, window);
  }

  /** Until `retry_after` has passed every further request of the caller is refused: no shorter wait would do. */
  lemma RefusedUntilRetryAfter(requests: seq<Request>, i: nat, j: nat, limit: int, window: int)
    requires window > 0 && i < j < |requests| && requests[j].key == requests[i].key
    requires Answer(requests, i, limit, window).Limited?
    requires requests[i].now <= requests[j].now < requests[i].now + Answer(requests, i, limit, window).retryAfter
    ensures Answer(requests, j, limit, window).Limited?
  {
    var key, now := requests[i].key, requests[i].now;
    AnswerIsExact(requests, i, limit, window);
    SameWindow(now, requests[j].now, now + Answer(requests, i, limit, window).retryAfter, window);
    HitsGrow(requests, i, j, key, now / window, window);
    AnswerIsByCount(requests, j, limit, window);
  }

  /** In an aligned window the first `limit` requests are admitted, and no more. */
  lemma {:induction false} AdmittedPerWindow(requests: seq<Request>, n: nat, key: string, w: int, limit: int, window: int)
    requires window > 0 && n <= |requests|
    ensures AdmittedIn(requests, n, key, w, limit, window)
            == var hits := Hits(requests[..n], key, w, window); if limit <= 0 then 0 else if hits < limit then hits else limit
  {
    if n > 0 {
      AdmittedPerWindow(requests, n - 1, key, w, limit, window);
      AnswerIsByCount(requests, n - 1, limit, window);
      assert requests[..n][..n - 1] == requests[..n - 1];
    }
  }

  /** A refusal means the window had already admitted all that the limit allows. */
  lemma RefusedOnlyWhenFull(requests: seq<Request>, i: nat, limit: nat, window: int)
    requires window > 0 && i < |requests| && Answer(requests, i, limit, window).Limited?
    ensures AdmittedIn(requests, i, requests[i].key, requests[i].now / window, limit, window) == limit
  {
    AnswerIsByCount(requests, i, limit, window);
    AdmittedPerWindow(requests, i, requests[i].key, requests[i].now / window, limit, window);
  }

  lemma {:induction false} BetweenIsTwoWindows(requests: seq<Request>, n: nat, key: string, from: int, limit: int, window: int)
    requires window > 0 && n <= |requests|
    ensures AdmittedBetween(requests, n, key, from, from + window, limit, window)
            <= AdmittedIn(requests, n, key, from / window, limit, window)
               + AdmittedIn(requests, n, key, from / window + 1, limit, window)
  {
    if n > 0 {
      BetweenIsTwoWindows(requests, n - 1, key, from, limit, window);
      if from <= requests[n - 1].now < from + window {
        SpanTouchesTwo(requests[n - 1].now, from, window);
      }
    }
  }

  lemma SpanTouchesTwo(now: int, from: int, window: int)
    requires window > 0 && from <= now < from + window
    ensures now / window == from / window || now / window == from / window + 1
  {
    var q, p := from / window, now / window;
    WindowBounds(from, window);
    WindowBounds(now, window);
    MulMonotone(p + 1, q, window);
    MulMonotone(q + 2, p, window);
    assert (q + 2) * window == (q + 1) * window + window;
  }

  lemma MulMonotone(a: int, b: int, c: int)
    requires c > 0
    ensures a <= b ==> a * c <= b * c
  {
  }

  /** Any `window` consecutive seconds admit at most twice the limit. */
  lemma BurstBound(requests: seq<Request>, key: string, from: int, limit: nat, window: int)
    requires window > 0
    ensures AdmittedBetween(requests, |requests|, key, from, from + window, limit, window) <= 2 * limit
  {
    BetweenIsTwoWindows(requests, |requests|, key, from, limit, window);
    AdmittedPerWindow(requests, |requests|, key, from / window, limit, window);
    AdmittedPerWindow(requests, |requests|, key, from / window + 1, limit, window);
  }

  /** `limit` requests in the last second of a window and as many in the first of the next. */
  function Burst(key: string, limit: nat, window: int): (requests: seq<Request>)
    ensures |requests| == 2 * limit
    ensures forall i :: 0 <= i < 2 * limit ==> requests[i] == Request(key, if i < limit then window - 1 else window)
  {
    seq(2 * limit, i => Request(key, if i < limit then window - 1 else window))
  }

  lemma EdgeOfWindow(window: int)
    requires window > 1
    ensures (window - 1) / window == 0 && window / window == 1
  {
  }

  lemma {:induction false} BurstHits(key: string, limit: nat, window: int, n: nat)
    requires window > 1 && n <= 2 * limit
    ensures Hits(Burst(key, limit, window)[..n], key, 0, window) == if n < limit then n else limit
    ensures Hits(Burst(key, limit, window)[..n], key, 1, window) == if n < limit then 0 else n - limit
  {
    if n > 0 {
      BurstHits(key, limit, window, n - 1);
      EdgeOfWindow(window);
      assert Burst(key, limit, window)[..n][..n - 1] == Burst(key, limit, window)[..n - 1];
    }
  }

  lemma {:induction false} BurstAdmitted(key: string, limit: nat, window: int, n: nat)
    requires window > 1 && n <= 2 * limit
    ensures AdmittedBetween(Burst(key, limit, window), n, key, window - 1, 2 * window - 1, limit, window) == n
  {
    if n > 0 {
      BurstAdmitted(key, limit, window, n - 1);
      BurstAnswer(key, limit, window, n - 1);
    }
  }

  lemma BurstAnswer(key: string, limit: nat, window: int, i: nat)
    requires window > 1 && i < 2 * limit
    ensures Answer(Burst(key, limit, window), i, limit, window).Admitted?
  {
    BurstHits(key, limit, window, i);
    EdgeOfWindow(window);
    AnswerIsByCount(Burst(key, limit, window), i, limit, window);
  }

  /** The bound is reached for every limit and every window of more than a second, across a window edge. */
  lemma BurstBoundIsTight(key: string, limit: nat, window: int)
    requires window > 1
    ensures var requests, from := Burst(key, limit, window), window - 1;
            AdmittedBetween(requests, |requests|, key, from, from + window, limit, window) == 2 * limit
  {
    BurstAdmitted(key, limit, window, 2 * limit);
  }

  /** Windows of one second have no edge to straddle: there the bound is the limit itself. */
  lemma {:induction false} OneSecondBound(requests: seq<Request>, n: nat, key: string, from: int, limit: nat)
    requires n <= |requests|
    ensures AdmittedBetween(requests, n, key, from, from + 1, limit, 1) == AdmittedIn(requests, n, key, from, limit, 1) <= limit
  {
    AdmittedPerWindow(requests, n, key, from, limit, 1);
    if n > 0 {
      OneSecondBound(requests, n - 1, key, from, limit);
      assert requests[n - 1].now / 1 == requests[n - 1].now;
    }
  }

  /** Honouring `retry_after`: the caller's first request at or after it is admitted. */
  lemma RetryAfterIsHonoured(requests: seq<Request>, i: nat, j: nat, limit: int, window: int)
    requires window > 0 && limit >= 1 && i < j < |requests|
    requires forall a, b :: 0 <= a < b < |requests| ==> requests[a].now <= requests[b].now
    requires Answer(requests, i, limit, window).Limited? && requests[j].key == requests[i].key
    requires requests[j].now >= requests[i].now + Answer(requests, i, limit, window).retryAfter
    requires forall m :: i < m < j && requests[m].key == requests[i].key ==>
               requests[m].now < requests[i].now + Answer(requests, i, limit, window).retryAfter
    ensures Answer(requests, j, limit, window).Admitted?
  {
    var key, w := requests[j].key, requests[j].now / window;
    var reset := (requests[i].now / window + 1) * window;
    assert reset == requests[i].now + Answer(requests, i, limit, window).retryAfter;
    WindowBounds(requests[i].now, window);
    forall m | 0 <= m < j ensures !InWindow(requests[m], key, w, window) {
      if requests[m].key == key {
        assert requests[m].now < reset by {
          if m <= i {
            assert m < i ==> requests[m].now <= requests[i].now;
          }
        }
        EarlierWindow(requests[m].now, requests[j].now, requests[i].now / window + 1, window);
      }
    }
    NoHits(requests, j, key, w, window);
    AnswerIsByCount(requests, j, limit, window);
  }

  lemma EarlierWindow(early: int, late: int, w: int, window: int)
    requires window > 0 && early < w * window <= late
    ensures early / window < late / window
  {
    WindowBounds(early, window);
    WindowBounds(late, window);
    var q, p := early / window, late / window;
    MulMonotone(p + 1, w, window);
    MulMonotone(w, q, window);
  }

  lemma {:induction false} NoHits(requests: seq<Request>, n: nat, key: string, w: int, window: int)
    requires window > 0 && n <= |requests|
    requires forall m :: 0 <= m < n ==> !InWindow(requests[m], key, w, window)
    ensures Hits(requests[..n], key, w, window) == 0
  {
    if n > 0 {
      assert requests[..n][..n - 1] == requests[..n - 1];
      NoHits(requests, n - 1, key, w, window);
    }
  }
}
