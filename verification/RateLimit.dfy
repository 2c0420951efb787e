/** The fixed-window limiter and what its windows guarantee over sliding intervals. */
module RateLimit {

  /** A key's window; instant 0 is the zero time, which marks a key that was never seen. */
  datatype WindowCounter = WindowCounter(started: int, count: int)

  const ABSENT := WindowCounter(0, 0)

  /** time.Minute in nanoseconds */
  const MINUTE: int := 60_000_000_000

  predicate Expired(window: int, item: WindowCounter, now: int) {
    item.started == 0 || now - item.started >= window
  }

  predicate Admits(limit: int, window: int, item: WindowCounter, now: int) {
    Expired(window, item, now) || item.count < limit
  }

  function Next(limit: int, window: int, item: WindowCounter, now: int): WindowCounter {
    if Expired(window, item, now) then WindowCounter(now, 1)
    else if item.count < limit then item.(count := item.count + 1)
    else item
  }

  function Lookup(items: map<string, WindowCounter>, key: string): WindowCounter {
    if key in items then items[key] else ABSENT
  }

  class FixedWindowLimiter {
    const limit: int
    const window: int
    var items: map<string, WindowCounter>

    ghost predicate Valid() {
      limit > 0 && window > 0
    }

    constructor (limit: int, window: int)
      ensures Valid() && items == map[]
      ensures this.limit == (if limit <= 0 then 1 else limit)
      ensures this.window == (if window <= 0 then 60_000_000_000 else window)
    {
      this.limit := if limit <= 0 then 1 else limit;
      this.window := if window <= 0 then MINUTE else window;
      items := map[];
    }

    /** One call; `now` is the clock reading taken before the lock. */
    method Allow(key: string, now: int) returns (admitted: bool)
      requires Valid()
      modifies this`items
      ensures Valid()
      ensures admitted == Admits(limit, window, old(Lookup(items, key)), now)
      ensures Lookup(items, key) == Next(limit, window, old(Lookup(items, key)), now)
      ensures forall other :: other != key ==> Lookup(items, other) == old(Lookup(items, other))
    {
      var item := if key in items then items[key] else ABSENT;
      if item.started == 0 || now - item.started >= window {
        items := items[key := WindowCounter(now, 1)];
        return true;
      }
      if item.count >= limit {
        return false;
      }
      item := item.(count := item.count + 1);
      items := items[key := item];
      return true;
    }
  }

  // ---------------------------------------------------------------- one key

  /** The counter after requests at the given times. */
  function After(limit: int, window: int, times: seq<int>): WindowCounter {
    if times == [] then ABSENT
    else Next(limit, window, After(limit, window, times[..|times| - 1]), times[|times| - 1])
  }

  /** The decision on the next request. */
  predicate Admitted(limit: int, window: int, times: seq<int>, now: int) {
    Admits(limit, window, After(limit, window, times), now)
  }

  /** How many requests with a time in [a, b) were admitted. */
  function AdmittedIn(limit: int, window: int, times: seq<int>, a: int, b: int): nat {
    if times == [] then 0
    else
      var n := |times| - 1;
      AdmittedIn(limit, window, times[..n], a, b)
      + (if a <= times[n] < b && Admitted(limit, window, times[..n], times[n]) then 1 else 0)
  }

  /** Clock readings never decrease and are never the zero time. */
  predicate Clock(times: seq<int>) {
    && (forall i :: 0 <= i < |times| ==> times[i] > 0)
    && (forall i, k :: 0 <= i < k < |times| ==> times[i] <= times[k])
  }

  lemma {:induction false} CounterRange(limit: int, window: int, times: seq<int>)
    requires limit > 0 && window > 0 && Clock(times) && times != []
    ensures var item := After(limit, window, times);
      1 <= item.count <= limit && 0 < item.started <= times[|times| - 1]
  {
    var n := |times| - 1;
    if n > 0 {
      CounterRange(limit, window, times[..n]);
    } else {
      assert After(limit, window, times[..n]) == ABSENT;
    }
  }

  lemma {:induction false} NoneLater(limit: int, window: int, times: seq<int>, a: int, b: int)
    requires forall i :: 0 <= i < |times| ==> times[i] < a
    ensures AdmittedIn(limit, window, times, a, b) == 0
  {
    if times != [] {
      NoneLater(limit, window, times[..|times| - 1], a, b);
    }
  }

  /** Admissions since `a`: at most the current window's, m - 1 full windows and all but the first
      request of the window `a` falls into. */
  lemma {:induction false} SinceBound(limit: int, window: int, times: seq<int>, a: int, b: int, m: nat)
    requires limit > 0 && window > 0 && Clock(times) && times != [] && m >= 1
    requires forall i :: 0 <= i < |times| ==> times[i] < b
    ensures var item := After(limit, window, times);
      var admitted := AdmittedIn(limit, window, times, a, b);
      && (a > item.started ==> admitted <= item.count - 1)
      && (a <= item.started < a + m * window ==> admitted <= m * limit - 1 + item.count)
  {
    var n := |times| - 1;
    var before, now := times[..n], times[n];
    if n == 0 {
      assert AdmittedIn(limit, window, before, a, b) == 0;
      MulOne(m, limit);
    } else {
      var item := After(limit, window, before);
      CounterRange(limit, window, before);
      SinceBound(limit, window, before, a, b, m);
      if Expired(window, item, now) {
        if a > now {
          NoneLater(limit, window, before, a, b);
        } else if a > item.started {
          MulOne(m, limit);
        } else if now < a + m * window {
          assert (m - 1) * window == m * window - window;
          if m == 1 {
            assert false;
          } else {
            SinceBound(limit, window, before, a, b, m - 1);
            assert (m - 1) * limit == m * limit - limit;
          }
        }
      }
    }
  }

  lemma MulOne(m: nat, limit: int)
    requires m >= 1 && limit > 0
    ensures m * limit >= limit
  {
    assert m * limit == (m - 1) * limit + limit;
  }

  /** Requests at or after `b` do not count. */
  lemma {:induction false} CutAt(limit: int, window: int, times: seq<int>, a: int, b: int) returns (k: nat)
    requires Clock(times)
    ensures k <= |times| && (forall i :: 0 <= i < k ==> times[i] < b)
    ensures AdmittedIn(limit, window, times, a, b) == AdmittedIn(limit, window, times[..k], a, b)
  {
    if times == [] || times[|times| - 1] < b {
      k := |times|;
      assert times[..k] == times;
    } else {
      var n := |times| - 1;
      k := CutAt(limit, window, times[..n], a, b);
      assert times[..n][..k] == times[..k];
    }
  }

  /** Any half-open interval of n windows' length sees at most (n + 1) * limit - 1 admissions. */
  lemma SlidingInterval(limit: int, window: int, times: seq<int>, a: int, n: nat)
    requires limit > 0 && window > 0 && Clock(times) && n >= 1
    ensures AdmittedIn(limit, window, times, a, a + n * window) <= (n + 1) * limit - 1
  {
    var b := a + n * window;
    var k := CutAt(limit, window, times, a, b);
    assert (n + 1) * limit == n * limit + limit;
    MulOne(n, limit);
    if k > 0 {
      CounterRange(limit, window, times[..k]);
      SinceBound(limit, window, times[..k], a, b, n);
    }
  }

  // ---------------------------------------------------------------- the bound is attained

  /** `n` requests at the same time. */
  function Burst(now: int, n: nat): seq<int> {
    seq(n, _ => now)
  }

  lemma {:induction false} BurstInWindow(limit: int, window: int, times: seq<int>, now: int, r: nat, a: int, b: int)
    requires var item := After(limit, window, times);
      !Expired(window, item, now) && item.count + r <= limit
    requires a <= now < b
    ensures var item := After(limit, window, times);
      After(limit, window, times + Burst(now, r)) == item.(count := item.count + r)
    ensures AdmittedIn(limit, window, times + Burst(now, r), a, b) == AdmittedIn(limit, window, times, a, b) + r
  {
    if r == 0 {
      assert times + Burst(now, r) == times;
    } else {
      BurstInWindow(limit, window, times, now, r - 1, a, b);
      assert (times + Burst(now, r))[..|times| + r - 1] == times + Burst(now, r - 1);
    }
  }

  /** A burst of `limit` requests after the window has expired is admitted whole. */
  lemma BurstOpensWindow(limit: int, window: int, times: seq<int>, now: int, a: int, b: int)
    requires limit > 0 && window > 0 && now > 0 && Expired(window, After(limit, window, times), now)
    requires a <= now < b
    ensures After(limit, window, times + Burst(now, limit)) == WindowCounter(now, limit)
    ensures AdmittedIn(limit, window, times + Burst(now, limit), a, b) == AdmittedIn(limit, window, times, a, b) + limit
  {
    assert (times + [now])[..|times|] == times;
    BurstInWindow(limit, window, times + [now], now, limit - 1, a, b);
    assert times + Burst(now, limit) == times + [now] + Burst(now, limit - 1);
  }

  /** One early request, the rest of its window at the last instant, then n full windows. */
  function WorstCase(limit: int, window: int, n: nat): seq<int>
    requires limit > 0
  {
    if n == 0 then [1] + Burst(window, limit - 1)
    else WorstCase(limit, window, n - 1) + Burst(1 + n * window, limit)
  }

  function LastTime(window: int, n: nat): int {
    if n == 0 then window else 1 + n * window
  }

  lemma LastTimeGrows(window: int, n: nat)
    requires window >= 2 && n >= 1
    ensures LastTime(window, n - 1) < LastTime(window, n)
  {
    assert n * window == (n - 1) * window + window;
  }

  lemma {:induction false} WorstCaseClock(limit: int, window: int, n: nat)
    requires limit > 0 && window >= 2
    ensures var times := WorstCase(limit, window, n);
      Clock(times) && forall i :: 0 <= i < |times| ==> times[i] <= LastTime(window, n)
  {
    if n > 0 {
      WorstCaseClock(limit, window, n - 1);
      LastTimeGrows(window, n);
    }
  }

  lemma NextBurst(limit: int, window: int, times: seq<int>, before: int, now: int, b: int)
    requires limit > 0 && window > 0 && After(limit, window, times) == WindowCounter(before, limit)
    requires before > 0 && now == before + window && now < b
    ensures After(limit, window, times + Burst(now, limit)) == WindowCounter(now, limit)
    ensures AdmittedIn(limit, window, times + Burst(now, limit), window, b)
         == AdmittedIn(limit, window, times, window, b) + limit
  {
    BurstOpensWindow(limit, window, times, now, window, b);
  }

  lemma Successor(n: int, x: int)
    ensures n * x == (n - 1) * x + x
  {}

  lemma WorstCaseStart(limit: int, window: int, b: int)
    requires limit > 0 && window >= 2 && window < b
    ensures var times := WorstCase(limit, window, 0);
      && After(limit, window, times) == WindowCounter(1, limit)
      && AdmittedIn(limit, window, times, window, b) == limit - 1
  {
    assert [1][..0] == [];
    assert After(limit, window, [1]) == WindowCounter(1, 1);
    BurstInWindow(limit, window, [1], window, limit - 1, window, b);
  }

  lemma {:induction false} WorstCaseCount(limit: int, window: int, n: nat, b: int)
    requires limit > 0 && window >= 2 && LastTime(window, n) < b && window < b
    ensures var times := WorstCase(limit, window, n);
      && After(limit, window, times) == WindowCounter(1 + n * window, limit)
      && AdmittedIn(limit, window, times, window, b) == n * limit + limit - 1
  {
    if n == 0 {
      WorstCaseStart(limit, window, b);
    } else {
      var before, now := 1 + (n - 1) * window, 1 + n * window;
      Successor(n, window);
      Successor(n, limit);
      MulOne(n, window);
      WorstCaseCount(limit, window, n - 1, b);
      LastTimeGrows(window, n);
      assert now == before + window && window <= now < b;
      NextBurst(limit, window, WorstCase(limit, window, n - 1), before, now, b);
    }
  }

  /** The sliding-interval bound is exact: for every limit, every n and every window of at least two
      ticks, some clock readings reach it.  So the limit is not a bound on sliding windows. */
  lemma SlidingIntervalAttained(limit: int, window: int, n: nat) returns (times: seq<int>, a: int)
    requires limit > 0 && window >= 2 && n >= 1
    ensures Clock(times)
    ensures AdmittedIn(limit, window, times, a, a + n * window) == (n + 1) * limit - 1
  {
    times, a := WorstCase(limit, window, n), window;
    assert n * window >= window by {
      MulOne(n, window);
    }
    WorstCaseClock(limit, window, n);
    WorstCaseCount(limit, window, n, window + n * window);
    assert (n + 1) * limit == n * limit + limit;
  }

  predicate WithinLimit(limit: int, window: int, times: seq<int>, a: int) {
    AdmittedIn(limit, window, times, a, a + window) <= limit
  }

  /** The limit bounds the admissions of every interval of a window's length. */
  ghost predicate BoundsEveryWindow(limit: int, window: int) {
    forall times, a :: Clock(times) ==> WithinLimit(limit, window, times, a)
  }

  /** It does so if and only if it is 1, or a window is a single tick of the clock. */
  lemma LimitBoundsWindows(limit: int, window: int)
    requires limit > 0 && window > 0
    ensures BoundsEveryWindow(limit, window) <==> limit == 1 || window == 1
  {
    if limit == 1 || window == 1 {
      forall times, a | Clock(times) ensures WithinLimit(limit, window, times, a) {
        if limit == 1 {
          SlidingInterval(limit, window, times, a, 1);
        } else {
          SingleTick(limit, times, a);
        }
      }
    } else {
      var times, a := SlidingIntervalAttained(limit, window, 1);
      assert !WithinLimit(limit, window, times, a);
    }
  }

  lemma {:induction false} SingleTick(limit: int, times: seq<int>, a: int)
    requires limit > 0 && Clock(times)
    ensures AdmittedIn(limit, 1, times, a, a + 1) <= limit
    ensures times != [] && times[|times| - 1] == a ==>
      var item := After(limit, 1, times);
      item.started == a && AdmittedIn(limit, 1, times, a, a + 1) == item.count <= limit
  {
    if times != [] {
      var n := |times| - 1;
      SingleTick(limit, times[..n], a);
      if n > 0 {
        CounterRange(limit, 1, times[..n]);
      }
      if times[n] == a && (n == 0 || times[n - 1] < a) {
        NoneLater(limit, 1, times[..n], a, a + 1);
      }
    }
  }

  // ---------------------------------------------------------------- exactness

  /** The request that opened the current window. */
  function StartIndex(limit: int, window: int, times: seq<int>): nat
    requires times != []
  {
    var n := |times| - 1;
    if n == 0 || Expired(window, After(limit, window, times[..n]), times[n]) then n
    else StartIndex(limit, window, times[..n])
  }

  /** The admitted requests among those at positions from `j` on. */
  function AdmittedFrom(limit: int, window: int, times: seq<int>, j: nat): nat
    decreases |times|
  {
    if |times| <= j then 0
    else
      var n := |times| - 1;
      AdmittedFrom(limit, window, times[..n], j) + (if Admitted(limit, window, times[..n], times[n]) then 1 else 0)
  }

  /** The counter counts the admissions of the current window, which the start index opened. */
  lemma {:induction false} CurrentWindow(limit: int, window: int, times: seq<int>)
    requires limit > 0 && window > 0 && Clock(times) && times != []
    ensures var j := StartIndex(limit, window, times);
      && j < |times|
      && After(limit, window, times) == WindowCounter(times[j], AdmittedFrom(limit, window, times, j))
      && AdmittedFrom(limit, window, times, j) <= limit
      && (forall k :: j <= k < |times| ==> times[k] - times[j] < window)
  {
    var n := |times| - 1;
    var j := StartIndex(limit, window, times);
    CounterRange(limit, window, times);
    if n == 0 || Expired(window, After(limit, window, times[..n]), times[n]) {
      assert AdmittedFrom(limit, window, times[..n], n) == 0;
    } else {
      CurrentWindow(limit, window, times[..n]);
      assert forall k :: j <= k < n ==> times[..n][k] == times[k];
    }
  }

  /** A request is denied if and only if the current window has not expired and exactly `limit` requests
      have been admitted in it; otherwise, if the window has expired, it opens a new one at least a
      window after the last. */
  lemma DeniedExactly(limit: int, window: int, times: seq<int>, now: int)
    requires limit > 0 && window > 0 && Clock(times + [now]) && times != []
    ensures var j := StartIndex(limit, window, times);
      && j < |times|
      && (!Admitted(limit, window, times, now) <==>
            now - times[j] < window && AdmittedFrom(limit, window, times, j) == limit)
      && (StartIndex(limit, window, times + [now]) == |times| <==> now - times[j] >= window)
  {
    assert forall i :: 0 <= i < |times| ==> (times + [now])[i] == times[i];
    assert Clock(times);
    assert (times + [now])[..|times|] == times;
    CurrentWindow(limit, window, times);
  }

  // ---------------------------------------------------------------- several keys

  datatype Call = Call(key: string, now: int)

  /** The limiter's map after interleaved calls, as `Allow` updates it. */
  function ItemsAfter(limit: int, window: int, calls: seq<Call>): map<string, WindowCounter> {
    if calls == [] then map[]
    else
      var items := ItemsAfter(limit, window, calls[..|calls| - 1]);
      var call := calls[|calls| - 1];
      items[call.key := Next(limit, window, Lookup(items, call.key), call.now)]
  }

  function TimesOf(calls: seq<Call>, key: string): seq<int> {
    if calls == [] then []
    else
      TimesOf(calls[..|calls| - 1], key)
      + (if calls[|calls| - 1].key == key then [calls[|calls| - 1].now] else [])
  }

  /** A key's counter, and so every decision on it, depends on that key's calls alone. */
  lemma {:induction false} KeyIndependence(limit: int, window: int, calls: seq<Call>, key: string)
    ensures Lookup(ItemsAfter(limit, window, calls), key) == After(limit, window, TimesOf(calls, key))
    ensures forall now :: Admits(limit, window, Lookup(ItemsAfter(limit, window, calls), key), now)
                     <==> Admitted(limit, window, TimesOf(calls, key), now)
  {
    if calls != [] {
      var n := |calls| - 1;
      var before := TimesOf(calls[..n], key);
      KeyIndependence(limit, window, calls[..n], key);
      if calls[n].key == key {
        assert (before + [calls[n].now])[..|before|] == before;
      } else {
        assert before + [] == before;
      }
    }
  }
}
