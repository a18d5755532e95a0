/** The exponential backoff timer of library/timer.go. Durations and instants are 64-bit
    nanosecond counts, so every addition in the methods below is checked for overflow. */
module BackoffTimer {
  import opened Options

  newtype int64 = x: int | -0x8000_0000_0000_0000 <= x < 0x8000_0000_0000_0000

  const MILLISECOND: int64 := 1_000_000

  function Pow2(k: nat): (r: nat)
    ensures r >= 1
  {
    if k == 0 then 1 else 2 * Pow2(k - 1)
  }

  function Min(a: int, b: int): int {
    if a <= b then a else b
  }

  /** The documented schedule: the wait used by the n-th sleep after a reset doubles every
      `every` sleeps and is capped; the cap is not applied before the first doubling. */
  ghost function Schedule(init: int, max: int, every: int, n: nat): int
    requires every >= 1
  {
    if n / every == 0 then init else Min(init * Pow2(n / every), max)
  }

  class Timer {
    var lastTriggerT: int64
    var waitTs: int64
    var nWaits: int64
    const initWaitTs: int64
    const maxWaitTs: int64
    const timeoutTs: int64
    const nWaitsToDouble: int64
    // Sleeps since the last reset; it exists only to state the schedule.
    ghost var sleeps: nat

    /** What every use of the timer needs of its settings. */
    ghost predicate Configured()
    {
      0 < initWaitTs && 0 < maxWaitTs && 1 <= nWaitsToDouble
    }

    /** The timer sits on the schedule. */
    ghost predicate Valid()
      reads this
    {
      && Configured()
      && nWaits as int == sleeps % nWaitsToDouble as int
      && waitTs as int == Schedule(initWaitTs as int, maxWaitTs as int, nWaitsToDouble as int, sleeps)
    }

    constructor (init: int64, max: int64, wait: int64, timeout: int64, waits: int64, toDouble: int64)
      ensures initWaitTs == init && maxWaitTs == max && timeoutTs == timeout && nWaitsToDouble == toDouble
      ensures waitTs == wait && nWaits == waits && lastTriggerT == 0
      ensures Configured() && wait == init && waits == 0 ==> Valid() && sleeps == 0
    {
      lastTriggerT := 0;
      initWaitTs, maxWaitTs, waitTs, timeoutTs := init, max, wait, timeout;
      nWaits, nWaitsToDouble := waits, toDouble;
      sleeps := 0;
    }

    /** One sleep: the returned wait is what the thread sleeps for. */
    method Sleep() returns (slept: int64)
      requires Valid()
      modifies this`waitTs, this`nWaits, this`sleeps
      ensures Valid() && sleeps == old(sleeps) + 1
      ensures slept == waitTs
    {
      NextSleep(initWaitTs as int, maxWaitTs as int, nWaitsToDouble as int, sleeps);
      nWaits := nWaits + 1;
      if nWaits == nWaitsToDouble {
        if waitTs < maxWaitTs - waitTs {
          waitTs := waitTs + waitTs;
        } else {
          waitTs := maxWaitTs;
        }
        nWaits := 0;
      }
      sleeps := sleeps + 1;
      slept := waitTs;
    }

    method Reset(lastT: int64)
      requires Configured()
      modifies this
      ensures Valid() && sleeps == 0 && lastTriggerT == lastT
      ensures waitTs == initWaitTs
    {
      lastTriggerT := lastT;
      nWaits := 0;
      waitTs := initWaitTs;
      sleeps := 0;
    }

    /** True exactly when the timeout has elapsed since the last trigger; only then is the timer reset. */
    method Tick(now: int64) returns (fired: bool)
      requires Configured()
      requires -0x8000_0000_0000_0000 <= now as int - lastTriggerT as int < 0x8000_0000_0000_0000
      modifies this
      ensures fired <==> now as int - old(lastTriggerT) as int > timeoutTs as int
      ensures fired ==> Valid() && lastTriggerT == now && sleeps == 0
      ensures !fired ==> unchanged(this)
    {
      if now - lastTriggerT > timeoutTs {
        Reset(now);
        return true;
      }
      return false;
    }
  }

  /** library.NewTimer panics on these two settings; None stands for the panic. */
  method NewTimer(init: int64, max: int64, wait: int64, timeout: int64, waits: int64, toDouble: int64)
    returns (t: Option<Timer>)
    ensures t.Some? <==> wait >= MILLISECOND && max > wait
    ensures t.Some? && wait == init && waits == 0 && 1 <= toDouble ==> t.value.Valid()
    ensures t.Some? ==>
              && fresh(t.value) && t.value.initWaitTs == init && t.value.maxWaitTs == max && t.value.waitTs == wait
              && t.value.timeoutTs == timeout && t.value.nWaits == waits && t.value.nWaitsToDouble == toDouble
              && t.value.lastTriggerT == 0
  {
    if wait < MILLISECOND || max <= wait {
      return None;
    }
    var timer := new Timer(init, max, wait, timeout, waits, toDouble);
    return Some(timer);
  }

  /** The n sleeps after a reset, at once: the timer sits on the schedule and never left int64. */
  method SleepTimes(t: Timer, n: nat, lastT: int64) returns (waits: seq<int64>)
    requires t.Configured()
    modifies t
    ensures t.Valid() && t.sleeps == n && |waits| == n
    ensures forall i :: 0 <= i < n ==>
      waits[i] as int == Schedule(t.initWaitTs as int, t.maxWaitTs as int, t.nWaitsToDouble as int, i + 1)
  {
    t.Reset(lastT);
    waits := [];
    for k := 0 to n
      invariant t.Valid() && t.sleeps == k && |waits| == k
      invariant forall i :: 0 <= i < k ==>
        waits[i] as int == Schedule(t.initWaitTs as int, t.maxWaitTs as int, t.nWaitsToDouble as int, i + 1)
    {
      var w := t.Sleep();
      waits := waits + [w];
    }
  }

  lemma CountInBlock(n: nat, every: int)
    requires every >= 1
    ensures n % every + 1 == every ==> (n + 1) / every == n / every + 1 && (n + 1) % every == 0
    ensures n % every + 1 < every ==> (n + 1) / every == n / every && (n + 1) % every == n % every + 1
  {
    var q, r := n / every, n % every;
    assert n + 1 == q * every + (r + 1);
    if r + 1 == every {
      assert n + 1 == (q + 1) * every;
      QuotientOf(n + 1, every, q + 1, 0);
    } else {
      QuotientOf(n + 1, every, q, r + 1);
    }
  }

  lemma QuotientOf(n: nat, d: int, q: nat, r: nat)
    requires d >= 1 && n == q * d + r && r < d
    ensures n / d == q && n % d == r
  {
    var q', r' := n / d, n % d;
    assert n == q' * d + r';
    if q' < q {
      Spread(q', q, d);
    } else if q < q' {
      Spread(q, q', d);
    }
  }

  lemma Spread(a: int, b: int, d: int)
    requires a < b && d >= 1
    ensures a * d + d <= b * d
  {
    assert b * d == a * d + (b - a) * d;
    PositiveProduct(b - a, d);
    assert (b - a) * d == (b - a - 1) * d + d;
    if b - a > 1 { PositiveProduct(b - a - 1, d); }
  }

  /** How one sleep moves along the schedule: nothing changes inside a block of `every` sleeps,
      and at its end the wait doubles if twice the wait is below the cap and becomes the cap if not. */
  lemma NextSleep(init: int, max: int, every: int, n: nat)
    requires 0 < init && 0 < max && every >= 1
    ensures var now := Schedule(init, max, every, n);
            var next := Schedule(init, max, every, n + 1);
            && 0 < now
            && (n % every + 1 < every ==> next == now && (n + 1) % every == n % every + 1)
            && (n % every + 1 == every ==>
                  (n + 1) % every == 0 && next == if 2 * now < max then 2 * now else max)
  {
    CountInBlock(n, every);
    var k := n / every;
    assert init * Pow2(k) > 0 by { PositiveProduct(init, Pow2(k)); }
    assert init * Pow2(k + 1) == 2 * (init * Pow2(k)) by {
      assert Pow2(k + 1) == 2 * Pow2(k);
      Doubling(init, Pow2(k));
    }
  }

  lemma PositiveProduct(a: int, b: int)
    requires a > 0 && b > 0
    ensures a * b > 0
  {
  }

  lemma Doubling(a: int, b: int)
    ensures a * (2 * b) == 2 * (a * b)
  {
  }

  /** With the intended settings (initial wait at most the cap) the schedule is the closed form
      min(init * 2^(n div every), max) for every n, it never decreases and never exceeds the cap. */
  lemma ClosedForm(init: int, max: int, every: int, n: nat)
    requires 0 < init && every >= 1
    ensures init <= max <==> Schedule(init, max, every, 0) == Min(init * Pow2(0), max)
    ensures init <= max ==> Schedule(init, max, every, n) == Min(init * Pow2(n / every), max)
    ensures init <= max ==> Schedule(init, max, every, n) <= Schedule(init, max, every, n + 1) <= max
  {
    assert 0 / every == 0 by { QuotientOf(0, every, 0, 0); }
    assert init * Pow2(0) == init;
    if init <= max {
      NextSleep(init, max, every, n);
      assert n / every == 0 ==> init * Pow2(n / every) == init;
    }
  }
}
