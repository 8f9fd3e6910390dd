/** Cooperative scheduling: `loop()` runs the active plugin once the clock has
    reached the stored deadline, and stores the deadline the plugin returns. */
module Schedule {

  /** The deadline has been reached (the comparison is a plain `>=`). */
  predicate Due(next: nat, now: nat) { now >= next }

  /** The deadline after one `loop()` at clock `now`, when the plugin would return `pluginNext`. */
  function NextDeadline(next: nat, now: nat, pluginNext: nat): nat
  {
    if Due(next, now) then pluginNext else next
  }

  /** The clock readings at which the plugin runs when `loop()` is called at
      each of `ticks`, starting from deadline `next`, with a plugin that asks
      to run again `period` after each run. */
  function Dispatches(next: nat, ticks: seq<nat>, period: nat): seq<nat>
    decreases |ticks|
  {
    if ticks == [] then []
    else
      var now := ticks[0];
      var rest := Dispatches(NextDeadline(next, now, now + period), ticks[1..], period);
      if Due(next, now) then [now] + rest else rest
  }

  /** Calls at `start`, `start + step`, ... (`n` of them). */
  function Ticks(start: nat, step: nat, n: nat): (t: seq<nat>)
    ensures |t| == n
    decreases n
  {
    if n == 0 then [] else [start] + Ticks(start + step, step, n - 1)
  }

  /** Scheduling discipline for any call times: the plugin runs at most once
      per `loop()`, only at a call time, never before the first deadline, and
      never twice within one period. */
  lemma {:induction false} DispatchesSpaced(next: nat, ticks: seq<nat>, period: nat)
    ensures var d := Dispatches(next, ticks, period);
            |d| <= |ticks|
            && (forall i :: 0 <= i < |d| ==> d[i] in ticks)
            && (|d| > 0 ==> next <= d[0])
            && (forall i :: 0 <= i < |d| - 1 ==> d[i] + period <= d[i + 1])
    decreases |ticks|
  {
    if ticks != [] {
      var now := ticks[0];
      var next' := NextDeadline(next, now, now + period);
      DispatchesSpaced(next', ticks[1..], period);
      var rest := Dispatches(next', ticks[1..], period);
      assert forall i :: 0 <= i < |rest| ==> rest[i] in ticks by {
        forall i | 0 <= i < |rest| ensures rest[i] in ticks {
          assert rest[i] in ticks[1..];
        }
      }
    }
  }

  /** The number of runs of a plugin asking for `k` calls between runs, over
      `m` calls of which the first is due: one per window of `k` calls. */
  function Windows(m: nat, k: nat): nat
    requires k >= 1
    decreases m
  {
    if m == 0 then 0 else 1 + Windows(if m <= k then 0 else m - k, k)
  }

  /** With calls every `step` and a plugin asking for `k` steps between runs,
      `n` calls made while the deadline is `j` steps away run the plugin once
      per window of `k` calls from the deadline on. */
  lemma {:induction false} PeriodicCount(now: nat, step: nat, k: nat, j: nat, n: nat)
    requires step >= 1 && k >= 1
    ensures |Dispatches(now + j * step, Ticks(now, step, n), k * step)|
            == if n <= j then 0 else Windows(n - j, k)
    decreases n
  {
    if n > 0 {
      assert Ticks(now, step, n)[1..] == Ticks(now + step, step, n - 1);
      if j == 0 {
        StepsAhead(now, step, k - 1);
        PeriodicCount(now + step, step, k, k - 1, n - 1);
      } else {
        StepsAhead(now, step, j - 1);
        PeriodicCount(now + step, step, k, j - 1, n - 1);
      }
    }
  }

  /** `j + 1` steps ahead of `now` is `j` steps ahead of the next call, and still in the future. */
  lemma StepsAhead(now: nat, step: nat, j: nat)
    requires step >= 1
    ensures now + (j + 1) * step == (now + step) + j * step
    ensures now < now + (j + 1) * step
  {
    assert (j + 1) * step == j * step + step;
  }

  /** `Windows(m, k)` is `m / k` rounded up. */
  lemma {:induction false} WindowsIsCeiling(m: nat, k: nat)
    requires k >= 1
    ensures Windows(m, k) == (m + k - 1) / k
    decreases m
  {
    if m > k {
      WindowsIsCeiling(m - k, k);
      DivStep(m - 1, k);
    } else if m > 0 {
      DivUnique(m + k - 1, k, 1, m - 1);
    }
  }

  lemma DivStep(x: nat, k: nat)
    requires k >= 1
    ensures (x + k) / k == x / k + 1
  {
    var q, r := x / k, x % k;
    assert x + k == (q + 1) * k + r;
    DivUnique(x + k, k, q + 1, r);
  }

  lemma DivUnique(a: nat, k: nat, q: nat, r: nat)
    requires k >= 1 && r < k && a == q * k + r
    ensures a / k == q
  {
    var q', r' := a / k, a % k;
    assert a == q' * k + r';
    if q' > q {
      MulAtLeast(q' - q, k);
    } else if q' < q {
      MulAtLeast(q - q', k);
    }
  }

  lemma MulAtLeast(m: nat, k: nat)
    requires m >= 1
    ensures m * k >= k
  {
  }

  /** From a deadline already reached, `n` calls every `step` with a plugin
      asking for `k` steps between runs run the plugin `ceil(n / k)` times. */
  lemma PeriodicDispatchCount(next: nat, now: nat, step: nat, k: nat, n: nat)
    requires step >= 1 && k >= 1
    requires next <= now
    ensures |Dispatches(next, Ticks(now, step, n), k * step)| == (n + k - 1) / k
  {
    PeriodicCount(now, step, k, 0, n);
    WindowsIsCeiling(n, k);
    if n > 0 {
      // Only the first call sees `next`, and it is due under both deadlines.
      var t := Ticks(now, step, n);
      assert Dispatches(next, t, k * step) == Dispatches(now, t, k * step);
    }
  }

  /** Calls every 500 time units from 500 to 3000 with a plugin asking to run
      again 1000 later run the plugin 3 times, not 6. */
  lemma HalfPeriodCalls()
    ensures |Dispatches(0, Ticks(500, 500, 6), 1000)| == 3
  {
    PeriodicDispatchCount(0, 500, 500, 2, 6);
  }
}
