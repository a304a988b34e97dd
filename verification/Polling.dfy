/** The driver's adaptive doorbell polling interval, in microseconds. */
module Polling {
  import opened NvmeTypes

  const MIN_POLL_INTERVAL_US: nat := 1
  const MAX_POLL_INTERVAL_US: nat := 10000
  const DIVISOR: nat := 10
  const MULTIPLIER: nat := 100

  /** The values the registry accepts. */
  predicate Configurable(config: nat) { MIN_POLL_INTERVAL_US <= config <= MAX_POLL_INTERVAL_US }

  function MinInterval(config: nat): nat
  {
    if config / DIVISOR < MIN_POLL_INTERVAL_US then MIN_POLL_INTERVAL_US else config / DIVISOR
  }

  function MaxInterval(config: nat): nat
  {
    if config * MULTIPLIER > MAX_POLL_INTERVAL_US then MAX_POLL_INTERVAL_US else config * MULTIPLIER
  }

  predicate Within(config: nat, interval: nat) { MinInterval(config) <= interval <= MaxInterval(config) }

  function Adjusted(config: nat, interval: nat, hadWork: bool): nat
  {
    if hadWork then (if interval / 2 < MinInterval(config) then MinInterval(config) else interval / 2)
    else if interval + interval / 4 > MaxInterval(config) then MaxInterval(config)
    else interval + interval / 4
  }

  /** The interval after a run of polls. */
  function After(config: nat, interval: nat, polls: seq<bool>): nat
  {
    if polls == [] then interval
    else Adjusted(config, After(config, interval, polls[..|polls| - 1]), polls[|polls| - 1])
  }

  /** From the configured interval on, whatever the load, the interval stays within its bounds: a tenth and a
      hundred times what is configured, and between 1 and 10000 microseconds. */
  lemma {:induction false} AlwaysWithin(config: nat, polls: seq<bool>)
    requires Configurable(config)
    ensures Within(config, After(config, config, polls))
    ensures var i := After(config, config, polls);
            1 <= i <= 10000 && config / 10 <= i <= 100 * config
    decreases |polls|
  {
    if polls != [] {
      AlwaysWithin(config, polls[..|polls| - 1]);
    }
  }

  function Steady(hadWork: bool, n: nat): (polls: seq<bool>)
    ensures |polls| == n
  {
    seq(n, _ => hadWork)
  }

  lemma {:induction false} OneMore(config: nat, interval: nat, hadWork: bool, n: nat)
    ensures After(config, interval, Steady(hadWork, n + 1)) ==
            Adjusted(config, After(config, interval, Steady(hadWork, n)), hadWork)
  {
    assert Steady(hadWork, n + 1)[..n] == Steady(hadWork, n);
  }

  // ---------- busy ----------

  function Halved(x: nat, n: nat): nat
  {
    if n == 0 then x else Halved(x, n - 1) / 2
  }

  /** n busy polls halve the interval n times, down to the minimum and no further. */
  lemma {:induction false} BusyHalves(config: nat, interval: nat, n: nat)
    requires Configurable(config) && Within(config, interval)
    ensures var h := Halved(interval, n);
            After(config, interval, Steady(true, n)) == if h < MinInterval(config) then MinInterval(config) else h
    decreases n
  {
    if n > 0 {
      BusyHalves(config, interval, n - 1);
      OneMore(config, interval, true, n - 1);
    }
  }

  /** An unbroken busy run is at the minimum after 14 polls, and stays there. */
  lemma {:induction false} BusyReachesMinimum(config: nat, interval: nat, n: nat)
    requires Configurable(config) && Within(config, interval) && n >= 14
    ensures After(config, interval, Steady(true, n)) == MinInterval(config)
    decreases n
  {
    BusyHalves(config, interval, n);
    HalvedAway(interval, n);
  }

  function Pow2(n: nat): nat { if n == 0 then 1 else 2 * Pow2(n - 1) }

  lemma {:induction false} TimesGrows(a: nat, b: nat, p: nat)
    requires a <= b
    ensures a * p <= b * p
  {
    assert b * p == a * p + (b - a) * p;
  }

  lemma {:induction false} HalfTimesDouble(h: nat, p: nat)
    ensures (h / 2) * (2 * p) <= h * p
  {
    var k := h / 2;
    assert k * (2 * p) == (2 * k) * p;
    TimesGrows(2 * k, h, p);
  }

  lemma {:induction false} HalvedBound(x: nat, n: nat)
    ensures Halved(x, n) * Pow2(n) <= x
    decreases n
  {
    if n > 0 {
      HalvedBound(x, n - 1);
      HalfTimesDouble(Halved(x, n - 1), Pow2(n - 1));
    }
  }

  lemma {:induction false} HalvedAway(x: nat, n: nat)
    requires x <= MAX_POLL_INTERVAL_US && n >= 14
    ensures Halved(x, n) == 0
    decreases n
  {
    if n > 14 {
      HalvedAway(x, n - 1);
    } else {
      HalvedBound(x, 14);
      assert Pow2(14) == 16384;
    }
  }

  // ---------- idle ----------

  function Grown(x: nat, n: nat): nat
  {
    if n == 0 then x else var g := Grown(x, n - 1); g + g / 4
  }

  lemma {:induction false} IdleGrows(config: nat, interval: nat, n: nat)
    requires Configurable(config) && Within(config, interval)
    ensures var g := Grown(interval, n);
            After(config, interval, Steady(false, n)) == if g > MaxInterval(config) then MaxInterval(config) else g
    decreases n
  {
    if n > 0 {
      IdleGrows(config, interval, n - 1);
      OneMore(config, interval, false, n - 1);
    }
  }

  /** A quarter of less than 4 is 0: such an interval never grows. */
  lemma {:induction false} StuckBelowFour(x: nat, n: nat)
    requires x < 4
    ensures Grown(x, n) == x
    decreases n
  {
    if n > 0 {
      StuckBelowFour(x, n - 1);
    }
  }

  /** From 10 on, rounding down costs so little that four steps double. */
  lemma {:induction false} FourStepsDouble(x: nat, n: nat)
    requires Grown(x, n) >= 10
    ensures Grown(x, n + 4) >= 2 * Grown(x, n)
  {
    var a, b, c, d := Grown(x, n), Grown(x, n + 1), Grown(x, n + 2), Grown(x, n + 3);
    assert 4 * b >= 5 * a - 3 && 4 * c >= 5 * b - 3 && 4 * d >= 5 * c - 3 && 4 * Grown(x, n + 4) >= 5 * d - 3;
  }

  lemma {:induction false} GrowsByAQuarter(x: nat, n: nat)
    ensures Grown(x, 0) == x && Grown(x, n + 1) == Grown(x, n) + Grown(x, n) / 4
  {
  }

  lemma {:induction false} GrowsAtLeast(x: nat, n: nat, a: nat)
    requires Grown(x, n) >= a
    ensures Grown(x, n + 1) >= a + a / 4
  {
    GrowsByAQuarter(x, n);
  }

  lemma {:induction false} FiveStepsFromFour(x: nat)
    requires x >= 4
    ensures Grown(x, 5) >= 10
  {
    GrowsByAQuarter(x, 0);
    GrowsAtLeast(x, 0, 4);
    GrowsAtLeast(x, 1, 5);
    GrowsAtLeast(x, 2, 6);
    GrowsAtLeast(x, 3, 7);
    GrowsAtLeast(x, 4, 8);
  }

  lemma {:induction false} DoublesFromFour(x: nat, k: nat)
    requires x >= 4
    ensures Grown(x, 5 + 4 * k) >= 10 * Pow2(k)
    ensures Pow2(k) >= 1
    decreases k
  {
    if k == 0 {
      FiveStepsFromFour(x);
    } else {
      DoublesFromFour(x, k - 1);
      FourStepsDouble(x, 5 + 4 * (k - 1));
    }
  }

  /** 45 steps take any interval from 4 us on past every maximum. */
  lemma {:induction false} GrownPastMaximum(x: nat, n: nat)
    requires x >= 4 && n >= 45
    ensures Grown(x, n) >= MAX_POLL_INTERVAL_US
    decreases n
  {
    if n > 45 {
      GrownPastMaximum(x, n - 1);
    } else {
      DoublesFromFour(x, 10);
      assert Pow2(10) == 1024;
    }
  }

  /** An unbroken idle run of 45 polls or more is at the maximum if and only if it began at 4 us or more:
      from a configured value below 40 a busy spell can leave the interval where idling never
      raises it again. */
  lemma {:induction false} IdleReachesMaximum(config: nat, interval: nat, n: nat)
    requires Configurable(config) && Within(config, interval) && n >= 45
    ensures After(config, interval, Steady(false, n)) == MaxInterval(config) <==> interval >= 4
  {
    IdleGrows(config, interval, n);
    if interval >= 4 {
      GrownPastMaximum(interval, n);
    } else {
      StuckBelowFour(interval, n);
    }
  }

  /** Hence for a configured value of at least 40 every idle run of 45 polls reaches the maximum, wherever
      the load has left the interval; and for no value below 40 is that so. */
  lemma {:induction false} IdleAlwaysReaches(config: nat, load: seq<bool>)
    requires Configurable(config)
    ensures config >= 40 ==>
              After(config, After(config, config, load), Steady(false, 45)) == MaxInterval(config)
    ensures config < 40 ==>
              After(config, After(config, config, Steady(true, 14)), Steady(false, 45)) < MaxInterval(config)
  {
    AlwaysWithin(config, load);
    IdleReachesMaximum(config, After(config, config, load), 45);
    AlwaysWithin(config, Steady(true, 14));
    BusyReachesMinimum(config, config, 14);
    IdleReachesMaximum(config, MinInterval(config), 45);
    AlwaysWithinFrom(config, MinInterval(config), Steady(false, 45));
  }

  lemma {:induction false} AlwaysWithinFrom(config: nat, interval: nat, polls: seq<bool>)
    requires Configurable(config) && Within(config, interval)
    ensures Within(config, After(config, interval, polls))
    decreases |polls|
  {
    if polls != [] {
      AlwaysWithinFrom(config, interval, polls[..|polls| - 1]);
    }
  }

  class Poller {
    const config: u32
    var pollingIntervalUs: u32

    constructor (config: u32)
      requires Configurable(config)
      ensures this.config == config == pollingIntervalUs
    {
      this.config, pollingIntervalUs := config, config;
    }

    method AdjustPollingInterval(hadWork: bool)
      requires Configurable(config) && Within(config, pollingIntervalUs)
      modifies this
      ensures pollingIntervalUs == Adjusted(config, old(pollingIntervalUs), hadWork)
      ensures Within(config, pollingIntervalUs)
    {
      var newInterval := pollingIntervalUs;
      var minInterval := config / DIVISOR;
      var maxInterval := config * MULTIPLIER;
      if minInterval < MIN_POLL_INTERVAL_US {
        minInterval := MIN_POLL_INTERVAL_US;
      }
      if maxInterval > MAX_POLL_INTERVAL_US {
        maxInterval := MAX_POLL_INTERVAL_US;
      }
      if hadWork {
        newInterval := newInterval / 2;
        if newInterval < minInterval {
          newInterval := minInterval;
        }
      } else {
        newInterval := newInterval + newInterval / 4;
        if newInterval > maxInterval {
          newInterval := maxInterval;
        }
      }
      pollingIntervalUs := newInterval;
    }
  }
}
