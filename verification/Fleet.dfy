/**
 Bot fleet pacing (apps/bots/internal/orchestrator/orchestrator.go:20-65).
 Durations are whole nanoseconds, and the delay is the exact quotient rounded
 down, where the source divides in floating point before truncating.
 */
module Fleet {

  const SECOND := 1_000_000_000

  /** One worker per ten requests a second, at least one. */
  function WorkerCount(targetRPS: int): (w: int)
    ensures w >= 1
  {
    if targetRPS / 10 < 1 then 1 else targetRPS / 10
  }

  /** The period of each worker's ticker: a second divided by the worker's share of the rate. */
  function Delay(targetRPS: int): int
    requires targetRPS >= 1
  {
    SECOND * WorkerCount(targetRPS) / targetRPS
  }

  function Stagger(targetRPS: int, idx: int): int
    requires targetRPS >= 1
  {
    idx * (Delay(targetRPS) / WorkerCount(targetRPS))
  }

  /** A worker is never asked for twenty orders a second, so the ticker's period is positive. */
  lemma DelayBounds(targetRPS: int)
    requires targetRPS >= 1
    ensures targetRPS <= 19 * WorkerCount(targetRPS)
    ensures Delay(targetRPS) >= 52_631_578
    ensures Delay(targetRPS) * targetRPS <= SECOND * WorkerCount(targetRPS) < (Delay(targetRPS) + 1) * targetRPS
  {
    var w, d := WorkerCount(targetRPS), Delay(targetRPS);
    DivBounds(SECOND * w, targetRPS);
    if d < 52_631_578 {
      MulMono(d + 1, 52_631_578, targetRPS);
    }
  }

  lemma DivBounds(n: int, m: int)
    requires m >= 1
    ensures n / m * m <= n < (n / m + 1) * m
  {
    assert n == n / m * m + n % m;
  }

  lemma MulMono(a: int, b: int, c: int)
    requires a <= b && c >= 0
    ensures a * c <= b * c && c * a <= c * b
  {
  }

  /** All workers start within one period. */
  lemma StaggersWithinPeriod(targetRPS: int, idx: int)
    requires targetRPS >= 1 && 0 <= idx < WorkerCount(targetRPS)
    ensures 0 <= Stagger(targetRPS, idx) < Delay(targetRPS)
  {
    DelayBounds(targetRPS);
    var w, d := WorkerCount(targetRPS), Delay(targetRPS);
    var s := d / w;
    DivBounds(d, w);
    DivNonNegative(d, w);
    MulMono(idx, w - 1, s);
    assert (w - 1) * s == s * w - s;
    MulMono(0, idx, s);
  }

  /** The start delays are evenly spaced, and all distinct exactly when the period has a nanosecond for each worker. */
  lemma StaggersEvenlySpaced(targetRPS: int, i: int, j: int)
    requires targetRPS >= 1 && 0 <= i < j < WorkerCount(targetRPS)
    ensures Stagger(targetRPS, 0) == 0
    ensures Stagger(targetRPS, j) - Stagger(targetRPS, i) == (j - i) * (Delay(targetRPS) / WorkerCount(targetRPS))
    ensures Stagger(targetRPS, i) != Stagger(targetRPS, j) <==> WorkerCount(targetRPS) <= Delay(targetRPS)
  {
    DelayBounds(targetRPS);
    var w, d := WorkerCount(targetRPS), Delay(targetRPS);
    var s := d / w;
    DivBounds(d, w);
    DivNonNegative(d, w);
    assert j * s - i * s == (j - i) * s;
    if w <= d {
      assert s >= 1 by { if s <= 0 { MulMono(s + 1, 1, w); } }
      MulMono(1, j - i, s);
    } else {
      assert s == 0 by { if s >= 1 { MulMono(1, s, w); } }
    }
  }

  /** Ten requests a second for each worker, or a little more; a single worker below ten. */
  lemma WorkersShareRate(targetRPS: int)
    requires targetRPS >= 1
    ensures if targetRPS < 10 then WorkerCount(targetRPS) == 1
            else 10 * WorkerCount(targetRPS) <= targetRPS < 10 * WorkerCount(targetRPS) + 10
  {
  }

  lemma DivNonNegative(n: int, m: int)
    requires n >= 0 && m >= 1
    ensures n / m >= 0
  {
  }

  /**
   The ticks a worker acts on. Its ticker starts no earlier than its stagger, so
   the k-th tick comes after k periods (late or dropped ticks only come later),
   and the worker stops at the first tick past the end.
   */
  ghost predicate Ticks(ts: seq<int>, start: int, stagger: int, delay: int, durationSecs: int) {
    forall k :: 0 <= k < |ts| ==> start + stagger + (k + 1) * delay <= ts[k] <= start + durationSecs * SECOND
  }

  lemma TicksBounded(ts: seq<int>, start: int, stagger: int, delay: int, durationSecs: int)
    requires Ticks(ts, start, stagger, delay, durationSecs) && stagger >= 0 && durationSecs >= 0
    ensures |ts| * delay <= durationSecs * SECOND
  {
    if ts != [] {
      var k := |ts| - 1;
      assert start + stagger + (k + 1) * delay <= ts[k];
    } else {
      assert 0 * delay == 0;
    }
  }

  /** One worker's orders, times the number of workers, fit the order budget. */
  lemma WorkerWithinShare(targetRPS: int, durationSecs: int, n: int)
    requires targetRPS >= 1 && durationSecs >= 0 && durationSecs * targetRPS <= 40_000_000
    requires n >= 0 && n * Delay(targetRPS) <= durationSecs * SECOND
    ensures n * WorkerCount(targetRPS) <= durationSecs * targetRPS
  {
    var r, t, w, d := targetRPS, durationSecs, WorkerCount(targetRPS), Delay(targetRPS);
    DelayBounds(r);
    RoundingIsSmall(r, t, n, d);
    // n * (SECOND * w) < n * (d + 1) * r, and n * d * r <= SECOND * t * r
    MulMono(SECOND * w, (d + 1) * r - 1, n);
    MulMono(n * d, t * SECOND, r);
    Rearrange(n, w, d, r, t);
  }

  lemma RoundingIsSmall(r: int, t: int, n: int, d: int)
    requires r >= 1 && t >= 0 && t * r <= 40_000_000 && n >= 0 && n * d <= t * SECOND && d >= 52_631_578
    ensures n * r < SECOND
  {
    MulMono(n * d, t * SECOND, r);
    assert (n * d) * r == (n * r) * d;
    assert (t * SECOND) * r == (t * r) * SECOND;
    MulMono(t * r, 40_000_000, SECOND);
    assert n * r >= 0 by { MulMono(0, n, r); }
    if n * r >= SECOND {
      MulMono(SECOND, n * r, d);
      MulMono(52_631_578, d, SECOND);
    }
  }

  lemma Rearrange(n: int, w: int, d: int, r: int, t: int)
    requires n >= 0 && n * r < SECOND
    requires n * (SECOND * w) <= n * ((d + 1) * r - 1)
    requires (n * d) * r <= (t * SECOND) * r
    ensures n * w <= t * r
  {
    assert n * ((d + 1) * r - 1) == (n * d) * r + n * r - n;
    assert n * (SECOND * w) == SECOND * (n * w);
    assert (t * SECOND) * r == SECOND * (t * r);
    if n * w > t * r {
      MulMono(t * r + 1, n * w, SECOND);
    }
  }

  function TotalOrders(ticks: seq<seq<int>>): nat {
    if ticks == [] then 0 else |ticks[0]| + TotalOrders(ticks[1..])
  }

  lemma {:induction false} TotalAtMost(ticks: seq<seq<int>>, q: nat)
    requires forall i :: 0 <= i < |ticks| ==> |ticks[i]| <= q
    ensures TotalOrders(ticks) <= |ticks| * q
  {
    if ticks != [] {
      TotalAtMost(ticks[1..], q);
      assert |ticks| * q == q + |ticks[1..]| * q;
    }
  }

  /** The ticks all workers of a run act on. */
  ghost predicate Schedule(targetRPS: int, durationSecs: int, start: int, ticks: seq<seq<int>>)
    requires targetRPS >= 1
  {
    && durationSecs >= 0 && |ticks| == WorkerCount(targetRPS)
    && forall i :: 0 <= i < |ticks| ==> Ticks(ticks[i], start, Stagger(targetRPS, i), Delay(targetRPS), durationSecs)
  }

  /** If no worker exceeds its share of the budget, the run does not exceed the budget. */
  lemma SharesAddUp(targetRPS: int, budget: int, ticks: seq<seq<int>>)
    requires targetRPS >= 1 && budget >= 0 && |ticks| == WorkerCount(targetRPS)
    requires forall i :: 0 <= i < |ticks| ==> |ticks[i]| * WorkerCount(targetRPS) <= budget
    ensures TotalOrders(ticks) <= budget
  {
    var w := WorkerCount(targetRPS);
    DivNonNegative(budget, w);
    forall i | 0 <= i < |ticks| ensures |ticks[i]| <= budget / w {
      QuotientBounds(|ticks[i]|, w, budget);
    }
    TotalAtMost(ticks, budget / w);
    DivBounds(budget, w);
  }

  lemma QuotientBounds(n: int, w: int, m: int)
    requires w >= 1 && n * w <= m
    ensures n <= m / w
  {
    DivBounds(m, w);
    if n > m / w {
      MulMono(m / w + 1, n, w);
    }
  }

  lemma BudgetNonNegative(targetRPS: int, durationSecs: int)
    requires targetRPS >= 1 && durationSecs >= 0
    ensures durationSecs * targetRPS >= 0
  {
    MulMono(0, durationSecs, targetRPS);
  }

  /** Up to forty million orders no run exceeds its duration times its target rate, whatever the rate. */
  lemma OrdersWithinBudget(targetRPS: int, durationSecs: int, start: int, ticks: seq<seq<int>>)
    requires targetRPS >= 1 && Schedule(targetRPS, durationSecs, start, ticks)
    requires durationSecs * targetRPS <= 40_000_000
    ensures TotalOrders(ticks) <= durationSecs * targetRPS
  {
    BudgetNonNegative(targetRPS, durationSecs);
    forall i | 0 <= i < |ticks| ensures |ticks[i]| * WorkerCount(targetRPS) <= durationSecs * targetRPS {
      StaggersWithinPeriod(targetRPS, i);
      TicksBounded(ticks[i], start, Stagger(targetRPS, i), Delay(targetRPS), durationSecs);
      WorkerWithinShare(targetRPS, durationSecs, |ticks[i]|);
    }
    SharesAddUp(targetRPS, durationSecs * targetRPS, ticks);
  }

  // ---------- runs of any length ----------

  /** The period is a whole number of nanoseconds, so rounding it down loses nothing. */
  predicate ExactPeriod(targetRPS: int)
    requires targetRPS >= 1
  {
    SECOND * WorkerCount(targetRPS) % targetRPS == 0
  }

  lemma ExactShare(targetRPS: int, durationSecs: int, n: int)
    requires targetRPS >= 1 && ExactPeriod(targetRPS) && durationSecs >= 0
    requires n >= 0 && n * Delay(targetRPS) <= durationSecs * SECOND
    ensures n * WorkerCount(targetRPS) <= durationSecs * targetRPS
  {
    var r, t, w, d := targetRPS, durationSecs, WorkerCount(targetRPS), Delay(targetRPS);
    assert d * r == SECOND * w;
    MulMono(n * d, t * SECOND, r);
    assert (n * d) * r == n * (d * r) == SECOND * (n * w);
    assert (t * SECOND) * r == SECOND * (t * r);
    if n * w > t * r {
      MulMono(t * r + 1, n * w, SECOND);
    }
  }

  lemma ExactWithinBudget(targetRPS: int, durationSecs: int, start: int, ticks: seq<seq<int>>)
    requires targetRPS >= 1 && ExactPeriod(targetRPS) && Schedule(targetRPS, durationSecs, start, ticks)
    ensures TotalOrders(ticks) <= durationSecs * targetRPS
  {
    BudgetNonNegative(targetRPS, durationSecs);
    forall i | 0 <= i < |ticks| ensures |ticks[i]| * WorkerCount(targetRPS) <= durationSecs * targetRPS {
      StaggersWithinPeriod(targetRPS, i);
      TicksBounded(ticks[i], start, Stagger(targetRPS, i), Delay(targetRPS), durationSecs);
      ExactShare(targetRPS, durationSecs, |ticks[i]|);
    }
    SharesAddUp(targetRPS, durationSecs * targetRPS, ticks);
  }

  /** A ticker that is never late. */
  function PromptTicks(first: int, delay: int, n: nat): (ts: seq<int>)
    ensures |ts| == n && forall k :: 0 <= k < n ==> ts[k] == first + k * delay
  {
    seq(n, k => first + k * delay)
  }

  lemma PromptIsTicks(start: int, stagger: int, delay: int, durationSecs: int, n: nat)
    requires 0 <= stagger && delay >= 0 && stagger + n * delay <= durationSecs * SECOND
    ensures Ticks(PromptTicks(start + stagger + delay, delay, n), start, stagger, delay, durationSecs)
  {
    forall k | 0 <= k < n ensures start + stagger + (k + 1) * delay == start + stagger + delay + k * delay <= start + durationSecs * SECOND {
      assert (k + 1) * delay == k * delay + delay;
      MulMono(k + 1, n, delay);
    }
  }

  lemma {:induction false} TotalOfEqual(ticks: seq<seq<int>>, n: nat)
    requires forall i :: 0 <= i < |ticks| ==> |ticks[i]| == n
    ensures TotalOrders(ticks) == |ticks| * n
  {
    if ticks != [] {
      TotalOfEqual(ticks[1..], n);
      assert |ticks| * n == n + |ticks[1..]| * n;
    }
  }

  /**
   A rounded-down period adds up: a long enough run with tickers that are never
   late sends more orders than its budget.
   */
  lemma LongRunOvershoots(targetRPS: int, start: int) returns (durationSecs: int, ticks: seq<seq<int>>)
    requires targetRPS >= 1 && !ExactPeriod(targetRPS)
    ensures durationSecs == 2 * WorkerCount(targetRPS) * Delay(targetRPS)
    ensures Schedule(targetRPS, durationSecs, start, ticks) && TotalOrders(ticks) > durationSecs * targetRPS
  {
    var r, w, d := targetRPS, WorkerCount(targetRPS), Delay(targetRPS);
    DelayBounds(r);
    var n := 2 * w * SECOND - 1;
    durationSecs := 2 * w * d;
    MulMono(0, w, d);
    ticks := seq(w, i => PromptTicks(start + Stagger(r, i) + d, d, n));
    forall i | 0 <= i < w ensures Ticks(ticks[i], start, Stagger(r, i), d, durationSecs) {
      StaggersWithinPeriod(r, i);
      assert n * d == durationSecs * SECOND - d by { FullRun(w, d); }
      PromptIsTicks(start, Stagger(r, i), d, durationSecs, n);
    }
    TotalOfEqual(ticks, n);
    Overshoot(r, w, d);
  }

  lemma FullRun(w: int, d: int)
    ensures (2 * w * SECOND - 1) * d == 2 * w * d * SECOND - d
  {
  }

  lemma Overshoot(r: int, w: int, d: int)
    requires r >= 1 && w >= 1 && d == SECOND * w / r && SECOND * w % r != 0
    ensures w * (2 * w * SECOND - 1) > 2 * w * d * r
  {
    DivBounds(SECOND * w, r);
    assert d * r + 1 <= SECOND * w;
    MulMono(d * r + 1, SECOND * w, 2 * w);
    assert (2 * w) * (d * r + 1) == 2 * w * d * r + 2 * w;
    assert (2 * w) * (SECOND * w) == w * (2 * w * SECOND - 1) + w;
  }

  /**
   Runs of every length stay within duration times target rate if and only if the
   rate divides the workers' nanoseconds per second.
   */
  lemma BudgetHoldsIff(targetRPS: int)
    requires targetRPS >= 1
    ensures ExactPeriod(targetRPS) <==>
      forall durationSecs: int, start: int, ticks: seq<seq<int>> ::
        Schedule(targetRPS, durationSecs, start, ticks) ==> TotalOrders(ticks) <= durationSecs * targetRPS
  {
    if ExactPeriod(targetRPS) {
      forall durationSecs: int, start: int, ticks: seq<seq<int>> | Schedule(targetRPS, durationSecs, start, ticks)
        ensures TotalOrders(ticks) <= durationSecs * targetRPS
      {
        ExactWithinBudget(targetRPS, durationSecs, start, ticks);
      }
    } else {
      var durationSecs, ticks := LongRunOvershoots(targetRPS, 0);
      assert Schedule(targetRPS, durationSecs, 0, ticks);
    }
  }

  /** The ticks a worker gets if its ticker is never late. */
  function MostTicks(targetRPS: int, durationSecs: int, idx: int): nat
    requires targetRPS >= 1 && 0 <= idx < WorkerCount(targetRPS)
  {
    DelayBounds(targetRPS);
    var left := durationSecs * SECOND - Stagger(targetRPS, idx);
    if left < 0 then 0 else (DivNonNegative(left, Delay(targetRPS)); left / Delay(targetRPS))
  }

  function MostOrders(targetRPS: int, durationSecs: int, workers: nat): nat
    requires targetRPS >= 1 && workers <= WorkerCount(targetRPS)
  {
    if workers == 0 then 0
    else MostOrders(targetRPS, durationSecs, workers - 1) + MostTicks(targetRPS, durationSecs, workers - 1)
  }

  lemma TicksAtMost(targetRPS: int, durationSecs: int, start: int, idx: int, ts: seq<int>)
    requires targetRPS >= 1 && 0 <= idx < WorkerCount(targetRPS)
    requires Ticks(ts, start, Stagger(targetRPS, idx), Delay(targetRPS), durationSecs)
    ensures |ts| <= MostTicks(targetRPS, durationSecs, idx)
  {
    DelayBounds(targetRPS);
    if ts != [] {
      var k := |ts| - 1;
      assert start + Stagger(targetRPS, idx) + (k + 1) * Delay(targetRPS) <= ts[k];
      MulMono(0, |ts|, Delay(targetRPS));
      QuotientBounds(|ts|, Delay(targetRPS), durationSecs * SECOND - Stagger(targetRPS, idx));
    }
  }

  lemma {:induction false} TotalSplit(ticks: seq<seq<int>>, last: seq<int>)
    ensures TotalOrders(ticks + [last]) == TotalOrders(ticks) + |last|
  {
    if ticks == [] {
      assert ticks + [last] == [last];
    } else {
      TotalSplit(ticks[1..], last);
      assert (ticks + [last])[1..] == ticks[1..] + [last];
    }
  }

  lemma {:induction false} TotalAtMostEach(targetRPS: int, durationSecs: int, ticks: seq<seq<int>>)
    requires targetRPS >= 1 && |ticks| <= WorkerCount(targetRPS)
    requires forall i :: 0 <= i < |ticks| ==> |ticks[i]| <= MostTicks(targetRPS, durationSecs, i)
    ensures TotalOrders(ticks) <= MostOrders(targetRPS, durationSecs, |ticks|)
    ensures (forall i :: 0 <= i < |ticks| ==> |ticks[i]| == MostTicks(targetRPS, durationSecs, i)) ==>
      TotalOrders(ticks) == MostOrders(targetRPS, durationSecs, |ticks|)
  {
    if ticks != [] {
      var n := |ticks| - 1;
      assert ticks == ticks[..n] + [ticks[n]];
      TotalSplit(ticks[..n], ticks[n]);
      TotalAtMostEach(targetRPS, durationSecs, ticks[..n]);
    }
  }

  /** `MostOrders` is the largest number of orders a run can send: none sends more, and one sends as many. */
  lemma MostOrdersIsMaximum(targetRPS: int, durationSecs: int, start: int) returns (best: seq<seq<int>>)
    requires targetRPS >= 1 && durationSecs >= 0
    ensures Schedule(targetRPS, durationSecs, start, best)
    ensures TotalOrders(best) == MostOrders(targetRPS, durationSecs, WorkerCount(targetRPS))
    ensures forall ticks :: Schedule(targetRPS, durationSecs, start, ticks) ==> TotalOrders(ticks) <= TotalOrders(best)
  {
    var w, d := WorkerCount(targetRPS), Delay(targetRPS);
    DelayBounds(targetRPS);
    best := seq(w, i requires 0 <= i < w =>
      PromptTicks(start + Stagger(targetRPS, i) + d, d, MostTicks(targetRPS, durationSecs, i)));
    forall i | 0 <= i < w
      ensures Ticks(best[i], start, Stagger(targetRPS, i), d, durationSecs)
    {
      StaggersWithinPeriod(targetRPS, i);
      var left := durationSecs * SECOND - Stagger(targetRPS, i);
      if left >= 0 {
        DivBounds(left, d);
        PromptIsTicks(start, Stagger(targetRPS, i), d, durationSecs, MostTicks(targetRPS, durationSecs, i));
      }
    }
    TotalAtMostEach(targetRPS, durationSecs, best);
    forall ticks | Schedule(targetRPS, durationSecs, start, ticks) ensures TotalOrders(ticks) <= TotalOrders(best) {
      forall i | 0 <= i < |ticks| ensures |ticks[i]| <= MostTicks(targetRPS, durationSecs, i) {
        TicksAtMost(targetRPS, durationSecs, start, i, ticks[i]);
      }
      TotalAtMostEach(targetRPS, durationSecs, ticks);
    }
  }

  /** Target rates in tens are exact: each worker sends ten orders a second. */
  lemma TensAreExact(tens: int)
    requires tens >= 1
    ensures ExactPeriod(10 * tens) && Delay(10 * tens) == 100_000_000
  {
    assert SECOND * tens == 100_000_000 * (10 * tens);
    DivBounds(SECOND * tens, 10 * tens);
    Multiple(100_000_000, 10 * tens);
  }

  lemma Multiple(a: int, m: int)
    requires m >= 1
    ensures a * m % m == 0 && a * m / m == a
  {
    var q, r := a * m / m, a * m % m;
    assert a * m == q * m + r;
    assert (a - q) * m == r;
    if a - q >= 1 {
      MulMono(1, a - q, m);
    } else if a - q <= -1 {
      MulMono(a - q, -1, m);
    }
  }
}
