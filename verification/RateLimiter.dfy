/**
 The permit-based rate limiter of tools/request_simulation/rate_limiter.cc.

 Times are nanoseconds, rates are permits per second.  The fill computation is
 exact: the floor of rate times elapsed time.  Each sleep lasts as long as the
 environment's script says, and an Acquire whose script runs out is still waiting.
 */
module RateLimiter {
  import opened Basics
  import opened Status

  const NANOS := 1_000_000_000
  const MICROS := 1_000_000

  const TIMED_OUT := Error(DeadlineExceeded, "Acquire deadline exceeds")

  /** Permits gained in a stretch of time. */
  function Fill(rate: int, elapsed: int): (p: int)
    requires rate >= 0 && elapsed >= 0
    ensures 0 <= p && p * NANOS <= rate * elapsed < (p + 1) * NANOS
  {
    var product := rate * elapsed;
    assert product >= 0;
    product / NANOS
  }

  /** How long Acquire asks to sleep, in nanoseconds: whole microseconds only. */
  function AskedSleep(permits: int, rate: int): (ns: int)
    requires permits >= 0 && rate > 0
    ensures ns >= 0 && ns % 1000 == 0
  {
    (MICROS * permits / rate) * 1000
  }

  /* ---------- how long a sleep must last ---------- */

  lemma MulMono(a: int, b: int, k: int)
    requires a <= b && k >= 0
    ensures a * k <= b * k
  {
  }

  /** The sleep and the fill computation, in terms of whole microseconds. */
  lemma FillOfMicros(rate: int, micros: int, permits: int)
    requires rate > 0 && micros >= 0 && permits >= 0
    ensures Fill(rate, micros * 1000) >= permits <==> rate * micros >= MICROS * permits
  {
    var p := Fill(rate, micros * 1000);
    assert rate * (micros * 1000) == (rate * micros) * 1000;
    assert p * MICROS <= rate * micros < (p + 1) * MICROS;
  }

  /** A sleep at least one microsecond longer than asked gains the permits in one refill. */
  lemma OneMoreMicrosecondIsEnough(rate: int, permits: int, elapsed: int)
    requires rate > 0 && permits >= 0 && elapsed >= AskedSleep(permits, rate) + 1000
    ensures Fill(rate, elapsed) >= permits
  {
    var q := MICROS * permits / rate;
    assert rate * (q + 1) >= MICROS * permits by { DivBounds(MICROS * permits, rate); }
    FillOfMicros(rate, q + 1, permits);
    FillMonotone(rate, (q + 1) * 1000, elapsed);
  }

  lemma DivBounds(a: int, b: int)
    requires a >= 0 && b > 0
    ensures b * (a / b) <= a < b * (a / b + 1)
    ensures b * (a / b) == a <==> a % b == 0
  {
    assert a == b * (a / b) + a % b;
  }

  lemma FillMonotone(rate: int, a: int, b: int)
    requires rate >= 0 && 0 <= a <= b
    ensures Fill(rate, a) <= Fill(rate, b)
  {
    MulMono(a, b, rate);
  }

  /** A sleep of exactly the asked length gains the permits in one refill exactly
      when the rate divides the permits' worth of microseconds. */
  lemma ExactSleepIsEnoughWhenRateDivides(rate: int, permits: int)
    requires rate > 0 && permits >= 0
    ensures Fill(rate, AskedSleep(permits, rate)) >= permits <==> (MICROS * permits) % rate == 0
  {
    var q := MICROS * permits / rate;
    DivBounds(MICROS * permits, rate);
    FillOfMicros(rate, q, permits);
  }

  /** Three permits a second: the sleep asked for one permit is one third of a second
      rounded down, which is not enough. */
  lemma ExactSleepExample()
    ensures AskedSleep(1, 3) == 333_333_000 && Fill(3, AskedSleep(1, 3)) == 0
  {
  }

  /* ---------- conservation ---------- */

  /** All permits filled in since creation are covered by the largest rate so far. */
  ghost predicate Covered(filled: int, maxRate: int, created: int, lastRefill: int) {
    filled * NANOS <= maxRate * (lastRefill - created)
  }

  lemma RefillCovered(filled: int, maxRate: int, created: int, last: int, rate: int, now: int)
    requires Covered(filled, maxRate, created, last) && 0 <= rate <= maxRate && created <= last <= now
    ensures Covered(filled + Fill(rate, now - last), maxRate, created, now)
  {
    var p := Fill(rate, now - last);
    MulMono(rate, maxRate, now - last);
    assert maxRate * (now - created) == maxRate * (last - created) + maxRate * (now - last);
  }

  lemma HigherRateCovered(filled: int, maxRate: int, created: int, last: int, rate: int)
    requires Covered(filled, maxRate, created, last) && created <= last && maxRate <= rate
    ensures Covered(filled, rate, created, last)
  {
    MulMono(maxRate, rate, last - created);
  }

  /* ---------- raising the rate ---------- */

  /** The next refill, `later` after a change of rate, stays within what each rate
      earned in its own time; `idle` is how long before the change the last refill was. */
  ghost predicate WithinEarned(before: int, after: int, idle: nat, later: nat)
    requires before >= 0 && after >= 0
  {
    Fill(after, idle + later) * NANOS <= before * idle + after * later
  }

  /** A new rate applies back to the last refill.  The next refill stays within what was
      earned, whenever it comes, exactly when the rate is not raised or a refill has just happened. */
  lemma RaisedRateReachesBack(before: int, after: int, idle: nat)
    requires before > 0 && after > 0
    ensures (forall later: nat :: WithinEarned(before, after, idle, later)) <==> after <= before || idle == 0
  {
    if after <= before || idle == 0 {
      forall later: nat ensures WithinEarned(before, after, idle, later) {
        assert after * (idle + later) == after * idle + after * later;
        if idle > 0 { MulMono(after, before, idle); }
      }
    } else {
      RaiseSeen(before, after, idle);
    }
  }

  /** A refill some whole number of seconds after the previous one shows the excess. */
  lemma RaiseSeen(before: int, after: int, idle: nat)
    requires 0 < before < after && idle > 0
    ensures !WithinEarned(before, after, idle, idle * NANOS - idle)
  {
    var later := idle * NANOS - idle;
    assert idle + later == idle * NANOS;
    var p := Fill(after, idle * NANOS);
    assert after * (idle * NANOS) == (after * idle) * NANOS;
    assert p == after * idle;
    assert after * later == (after * idle) * NANOS - after * idle;
    assert (after - before) * idle > 0;
    assert (after - before) * idle == after * idle - before * idle;
  }

  /** One permit a second for a second, then a thousand: the refill a millisecond
      later brings 1001 permits, where two were earned. */
  lemma RaiseExample()
    ensures Fill(1000, NANOS + NANOS / 1000) == 1001
    ensures 1 * NANOS + 1000 * (NANOS / 1000) == 2 * NANOS
    ensures !WithinEarned(1, 1000, NANOS, NANOS / 1000)
  {
  }

  datatype Outcome = Granted(waited: int) | TimedOut(error: Error) | StillWaiting

  /** One sleep as it turns out: how long it lasts, and how long the refill takes. */
  datatype Nap = Nap(sleep: nat, refill: nat)

  /** A call on the limiter, or time passing between calls. */
  datatype Call = AcquireCall(n: int, naps: seq<Nap>) | SetRateCall(rate: int) | Pause(ns: nat)

  predicate Legal(c: Call) {
    match c
    case AcquireCall(n, _) => MICROS * n <= INT32_MAX
    case SetRateCall(rate) => rate > 0
    case Pause(_) => true
  }

  /* ---------- what a call does ---------- */

  datatype Gauge = Gauge(permits: int, rate: int, lastRefill: int, now: int)

  predicate Sane(g: Gauge) {
    g.permits >= 0 && g.rate > 0 && g.lastRefill <= g.now
  }

  function AfterNap(g: Gauge, nap: Nap): (g': Gauge)
    requires Sane(g)
    ensures Sane(g') && g'.permits >= g.permits && g'.now >= g.now
  {
    var woken := g.now + nap.sleep;
    Gauge(g.permits + Fill(g.rate, woken - g.lastRefill), g.rate, woken, woken + nap.refill)
  }

  /** How waiting for permits ends, and where that leaves the gauge. */
  datatype Wait = Enough(gauge: Gauge) | Late(gauge: Gauge) | Unfinished(gauge: Gauge)

  function WaitFor(g: Gauge, n: int, deadline: int, naps: seq<Nap>): (w: Wait)
    requires Sane(g)
    ensures Sane(w.gauge) && w.gauge.permits >= g.permits && w.gauge.now >= g.now && w.gauge.rate == g.rate
    ensures w.Enough? ==> w.gauge.permits >= n
    ensures w.Late? ==> w.gauge.now >= deadline
    decreases |naps|
  {
    if g.permits >= n then Enough(g)
    else if naps == [] then Unfinished(g)
    else
      var g' := AfterNap(g, naps[0]);
      if g'.now >= deadline then Late(g') else WaitFor(g', n, deadline, naps[1..])
  }

  /* ---------- how waiting ends, nap by nap ---------- */

  /** How long the first `k` naps take, refills included. */
  function Slept(naps: seq<Nap>, k: nat): nat
    requires k <= |naps|
  {
    if k == 0 then 0 else naps[0].sleep + naps[0].refill + Slept(naps[1..], k - 1)
  }

  /** The gauge after the first `k` naps. */
  function GaugeAfter(g: Gauge, naps: seq<Nap>, k: nat): (g': Gauge)
    requires Sane(g) && k <= |naps|
    ensures Sane(g') && g'.now == g.now + Slept(naps, k)
    decreases k
  {
    if k == 0 then g else GaugeAfter(AfterNap(g, naps[0]), naps[1..], k - 1)
  }

  /** There are too few permits before each of the first `k` naps. */
  ghost predicate ShortBefore(g: Gauge, n: int, naps: seq<Nap>, k: nat)
    requires Sane(g) && k <= |naps|
  {
    forall j: nat :: j < k ==> GaugeAfter(g, naps, j).permits < n
  }

  lemma ShortBeforeMore(g: Gauge, n: int, naps: seq<Nap>, k: nat)
    requires Sane(g) && 0 < k <= |naps|
    ensures ShortBefore(g, n, naps, k) <==> g.permits < n && ShortBefore(AfterNap(g, naps[0]), n, naps[1..], k - 1)
  {
    var g', rest := AfterNap(g, naps[0]), naps[1..];
    if ShortBefore(g, n, naps, k) {
      assert GaugeAfter(g, naps, 0).permits < n;
      forall j: nat | j < k - 1 ensures GaugeAfter(g', rest, j).permits < n {
        assert GaugeAfter(g, naps, j + 1).permits < n;
      }
    }
    if g.permits < n && ShortBefore(g', n, rest, k - 1) {
      forall j: nat | j < k ensures GaugeAfter(g, naps, j).permits < n {
        if j > 0 { assert GaugeAfter(g', rest, j - 1).permits < n; }
      }
    }
  }

  /** Nap `k` is begun for want of permits, and ends `limit` or more after the call began. */
  ghost predicate LateAt(g: Gauge, limit: int, n: int, naps: seq<Nap>, k: nat)
    requires Sane(g)
  {
    k < |naps| && ShortBefore(g, n, naps, k + 1) && Slept(naps, k + 1) >= limit
  }

  /** After `k` naps, all begun for want of permits and all over in less than `limit`, there are enough. */
  ghost predicate EnoughAt(g: Gauge, limit: int, n: int, naps: seq<Nap>, k: nat)
    requires Sane(g)
  {
    && k <= |naps| && ShortBefore(g, n, naps, k) && GaugeAfter(g, naps, k).permits >= n
    && (k > 0 ==> Slept(naps, k) < limit)
  }

  lemma LateAtMore(g: Gauge, limit: int, n: int, naps: seq<Nap>, k: nat)
    requires Sane(g) && 0 < k < |naps|
    ensures LateAt(g, limit, n, naps, k) <==>
      g.permits < n && LateAt(AfterNap(g, naps[0]), limit - naps[0].sleep - naps[0].refill, n, naps[1..], k - 1)
  {
    ShortBeforeMore(g, n, naps, k + 1);
  }

  /** Waiting ends too late exactly when some nap, begun for want of permits, ends past the limit. */
  lemma {:induction false} LateExactly(g: Gauge, limit: int, n: int, naps: seq<Nap>)
    requires Sane(g)
    ensures WaitFor(g, n, g.now + limit, naps).Late? <==> exists k: nat :: LateAt(g, limit, n, naps, k)
    decreases |naps|
  {
    if g.permits >= n {
      forall k: nat ensures !LateAt(g, limit, n, naps, k) {
        if k < |naps| { assert GaugeAfter(g, naps, 0).permits >= n; }
      }
    } else if naps != [] {
      LateExactlyMore(g, limit, n, naps);
    }
  }

  lemma {:induction false} LateExactlyMore(g: Gauge, limit: int, n: int, naps: seq<Nap>)
    requires Sane(g) && g.permits < n && naps != []
    ensures WaitFor(g, n, g.now + limit, naps).Late? <==> exists k: nat :: LateAt(g, limit, n, naps, k)
    decreases |naps|, 0
  {
    var g', rest, left := AfterNap(g, naps[0]), naps[1..], limit - naps[0].sleep - naps[0].refill;
    ShortBeforeMore(g, n, naps, 1);
    assert Slept(naps, 1) == naps[0].sleep + naps[0].refill + Slept(rest, 0);
    if left <= 0 {
      assert LateAt(g, limit, n, naps, 0);
    } else {
      assert !LateAt(g, limit, n, naps, 0);
      LateExactly(g', left, n, rest);
      if k: nat :| LateAt(g, limit, n, naps, k) { LateAtMore(g, limit, n, naps, k); }
      if k: nat :| LateAt(g', left, n, rest, k) { LateAtMore(g, limit, n, naps, k + 1); }
    }
  }

  /** When waiting ends with enough permits, it does so after the first nap that brings them, in time. */
  lemma {:induction false} EnoughAfter(g: Gauge, limit: int, n: int, naps: seq<Nap>) returns (k: nat)
    requires Sane(g) && WaitFor(g, n, g.now + limit, naps).Enough?
    ensures EnoughAt(g, limit, n, naps, k) && WaitFor(g, n, g.now + limit, naps).gauge == GaugeAfter(g, naps, k)
    decreases |naps|
  {
    if g.permits >= n {
      k := 0;
    } else {
      var g', rest, left := AfterNap(g, naps[0]), naps[1..], limit - naps[0].sleep - naps[0].refill;
      var m := EnoughAfter(g', left, n, rest);
      k := m + 1;
      ShortBeforeMore(g, n, naps, k);
    }
  }

  /** When the naps run out, all of them were begun for want of permits and over in time. */
  lemma {:induction false} UnfinishedAfter(g: Gauge, limit: int, n: int, naps: seq<Nap>)
    requires Sane(g) && WaitFor(g, n, g.now + limit, naps).Unfinished?
    ensures ShortBefore(g, n, naps, |naps|) && GaugeAfter(g, naps, |naps|).permits < n
    ensures naps != [] ==> Slept(naps, |naps|) < limit
    decreases |naps|
  {
    if naps != [] {
      var left := limit - naps[0].sleep - naps[0].refill;
      UnfinishedAfter(AfterNap(g, naps[0]), left, n, naps[1..]);
      ShortBeforeMore(g, n, naps, |naps|);
    }
  }

  datatype Ending = InTime | TooLate | StillShort

  function Waited(w: Wait): (Ending, Gauge) {
    match w
    case Enough(g) => (InTime, g)
    case Late(g) => (TooLate, g)
    case Unfinished(g) => (StillShort, g)
  }

  function Acquired(g: Gauge, timeout: int, n: int, naps: seq<Nap>): (r: (Gauge, Outcome))
    requires Sane(g)
    ensures Sane(r.0)
  {
    match WaitFor(g, n, g.now + timeout, naps)
    case Enough(g') => (g'.(permits := g'.permits - n), Granted(g'.now - g.now))
    case Late(g') => (g', TimedOut(TIMED_OUT))
    case Unfinished(g') => (g', StillWaiting)
  }

  /** What every Acquire keeps to: it grants at once when there are enough permits, times out only
      past the deadline, and one sleep a microsecond longer than asked settles it. */
  lemma AcquireSettles(g: Gauge, timeout: int, n: int, naps: seq<Nap>)
    requires Sane(g)
    ensures var a := Acquired(g, timeout, n, naps); var g', r := a.0, a.1;
      && g'.now >= g.now && g'.rate == g.rate
      && (r.Granted? ==> r.waited == g'.now - g.now)
      && (!r.Granted? ==> g'.permits >= g.permits)
      && (r.TimedOut? ==> r.error == TIMED_OUT && g'.now >= g.now + timeout)
      && (g.permits >= n ==> r == Granted(0) && g'.permits == g.permits - n)
      && (n > g.permits && naps != [] && naps[0].sleep >= AskedSleep(n, g.rate) + 1000 ==> r.Granted? || r.TimedOut?)
      && (g.permits < n && r.Granted? ==> r.waited < timeout)
      && (n > g.permits && naps != [] && naps[0].sleep + naps[0].refill >= timeout ==> r == TimedOut(TIMED_OUT))
      && (r.TimedOut? <==> exists k: nat :: LateAt(g, timeout, n, naps, k))
  {
    LateExactly(g, timeout, n, naps);
    if n > g.permits && naps != [] && naps[0].sleep + naps[0].refill >= timeout { FirstNapLate(g, timeout, n, naps); }
    if g.permits < n && Acquired(g, timeout, n, naps).1.Granted? {
      var k := EnoughAfter(g, timeout, n, naps);
    }
    if n > g.permits && naps != [] && naps[0].sleep >= AskedSleep(n, g.rate) + 1000 {
      OneNapSettles(g, n, g.now + timeout, naps);
    }
  }

  lemma FirstNapLate(g: Gauge, limit: int, n: int, naps: seq<Nap>)
    requires Sane(g) && g.permits < n && naps != [] && naps[0].sleep + naps[0].refill >= limit
    ensures LateAt(g, limit, n, naps, 0)
  {
    ShortBeforeMore(g, n, naps, 1);
    assert Slept(naps, 1) == naps[0].sleep + naps[0].refill + Slept(naps[1..], 0);
  }

  /** A granted Acquire takes its permits after the first naps that bring them, and nothing else changes. */
  lemma GrantedTakes(g: Gauge, timeout: int, n: int, naps: seq<Nap>) returns (k: nat)
    requires Sane(g) && Acquired(g, timeout, n, naps).1.Granted?
    ensures EnoughAt(g, timeout, n, naps, k) && Acquired(g, timeout, n, naps).1 == Granted(Slept(naps, k))
    ensures Acquired(g, timeout, n, naps).0 ==
            GaugeAfter(g, naps, k).(permits := GaugeAfter(g, naps, k).permits - n)
  {
    k := EnoughAfter(g, timeout, n, naps);
  }

  lemma WaitOne(g: Gauge, n: int, deadline: int, naps: seq<Nap>, i: nat)
    requires Sane(g) && n > g.permits && i < |naps|
    ensures var g' := AfterNap(g, naps[i]);
      WaitFor(g, n, deadline, naps[i..]) == if g'.now >= deadline then Late(g') else WaitFor(g', n, deadline, naps[i + 1..])
  {
    assert naps[i..][0] == naps[i] && naps[i..][1..] == naps[i + 1..];
  }

  lemma OneNapSettles(g: Gauge, n: int, deadline: int, naps: seq<Nap>)
    requires Sane(g) && n > g.permits && naps != [] && naps[0].sleep >= AskedSleep(n, g.rate) + 1000
    ensures !WaitFor(g, n, deadline, naps).Unfinished?
  {
    OneMoreMicrosecondIsEnough(g.rate, n, g.now + naps[0].sleep - g.lastRefill);
    var g' := AfterNap(g, naps[0]);
    assert g'.permits >= n;
    assert WaitFor(g', n, deadline, naps[1..]) == Enough(g');
  }

  function Performed(g: Gauge, timeout: int, c: Call): (r: (Gauge, Option<Outcome>))
    requires Sane(g) && Legal(c)
    ensures Sane(r.0)
  {
    match c
    case AcquireCall(n, naps) => var a := Acquired(g, timeout, n, naps); (a.0, Some(a.1))
    case SetRateCall(rate) => (g.(rate := rate), None)
    case Pause(ns) => (g.(now := g.now + ns), None)
  }

  predicate AllLegal(calls: seq<Call>) {
    forall i :: 0 <= i < |calls| ==> Legal(calls[i])
  }

  /** What a call adds to the permits granted. */
  function Gain(c: Call, outcome: Option<Outcome>): int {
    if c.AcquireCall? && outcome.Some? && outcome.value.Granted? then c.n else 0
  }

  /* ---------- conservation, call by call ---------- */

  /** All that has been filled in since the first gauge: what is left and what was granted,
      less what was there at first. */
  function Filled(first: Gauge, g: Gauge, granted: int): int {
    g.permits + granted - first.permits
  }

  /** Permits are neither lost nor made up: what was filled in is covered by the largest rate. */
  ghost predicate Balanced(first: Gauge, g: Gauge, granted: int, top: int) {
    && Sane(g) && g.rate <= top && first.now <= g.lastRefill
    && Filled(first, g, granted) >= 0 && Covered(Filled(first, g, granted), top, first.now, g.lastRefill)
  }

  /** The permits filled in, and those the next refill would add, have been earned. */
  ghost predicate Paid(first: Gauge, g: Gauge, granted: int, earned: int) {
    Filled(first, g, granted) * NANOS + g.rate * (g.now - g.lastRefill) <= earned
  }

  lemma NapBalanced(first: Gauge, g: Gauge, granted: int, top: int, nap: Nap)
    requires Balanced(first, g, granted, top)
    ensures Balanced(first, AfterNap(g, nap), granted, top)
  {
    RefillCovered(Filled(first, g, granted), top, first.now, g.lastRefill, g.rate, g.now + nap.sleep);
  }

  lemma NapPaid(first: Gauge, g: Gauge, granted: int, earned: int, nap: Nap)
    requires Sane(g) && Paid(first, g, granted, earned)
    ensures Paid(first, AfterNap(g, nap), granted, earned + g.rate * (AfterNap(g, nap).now - g.now))
  {
    var p := Fill(g.rate, g.now + nap.sleep - g.lastRefill);
    AddTimes(g.rate, g.now - g.lastRefill, nap.sleep);
    AddTimes(g.rate, nap.sleep, nap.refill);
    PaidSum(Filled(first, g, granted), p, g.rate * (g.now - g.lastRefill), g.rate * nap.sleep, earned);
  }

  lemma PaidSum(filled: int, p: int, owed: int, slept: int, earned: int)
    requires filled * NANOS + owed <= earned && p * NANOS <= owed + slept
    ensures (filled + p) * NANOS <= earned + slept
  {
  }

  lemma {:induction false} WaitBalanced(first: Gauge, g: Gauge, granted: int, top: int, n: int, deadline: int, naps: seq<Nap>)
    requires Balanced(first, g, granted, top)
    ensures Balanced(first, WaitFor(g, n, deadline, naps).gauge, granted, top)
    decreases |naps|
  {
    if g.permits < n && naps != [] {
      NapBalanced(first, g, granted, top, naps[0]);
      WaitBalanced(first, AfterNap(g, naps[0]), granted, top, n, deadline, naps[1..]);
    }
  }

  lemma {:induction false} WaitPaid(first: Gauge, g: Gauge, granted: int, earned: int, n: int, deadline: int, naps: seq<Nap>)
    requires Sane(g) && Paid(first, g, granted, earned)
    ensures var g' := WaitFor(g, n, deadline, naps).gauge; Paid(first, g', granted, earned + g.rate * (g'.now - g.now))
    decreases |naps|
  {
    if g.permits < n && naps != [] {
      var g' := AfterNap(g, naps[0]);
      NapPaid(first, g, granted, earned, naps[0]);
      if g'.now < deadline {
        var more := earned + g.rate * (g'.now - g.now);
        WaitPaid(first, g', granted, more, n, deadline, naps[1..]);
        AddTimes(g.rate, g'.now - g.now, WaitFor(g', n, deadline, naps[1..]).gauge.now - g'.now);
      }
    }
  }

  /** Every call keeps the balance. */
  lemma CallBalanced(first: Gauge, g: Gauge, granted: int, top: int, timeout: int, c: Call)
    requires Balanced(first, g, granted, top) && Legal(c)
    ensures var p := Performed(g, timeout, c);
      Balanced(first, p.0, granted + Gain(c, p.1), if c.SetRateCall? && top < c.rate then c.rate else top)
  {
    match c
    case AcquireCall(n, naps) => WaitBalanced(first, g, granted, top, n, g.now + timeout, naps);
    case SetRateCall(rate) =>
      if top < rate { HigherRateCovered(Filled(first, g, granted), top, first.now, g.lastRefill, rate); }
    case Pause(_) =>
  }

  /** Every call that does not raise the rate keeps what was filled in within what was earned. */
  lemma CallPaid(first: Gauge, g: Gauge, granted: int, earned: int, timeout: int, c: Call)
    requires Sane(g) && Legal(c) && Paid(first, g, granted, earned)
    requires c.SetRateCall? ==> c.rate <= g.rate || g.lastRefill == g.now
    ensures var p := Performed(g, timeout, c);
      Paid(first, p.0, granted + Gain(c, p.1), earned + g.rate * (p.0.now - g.now))
  {
    match c
    case AcquireCall(n, naps) => WaitPaid(first, g, granted, earned, n, g.now + timeout, naps);
    case SetRateCall(rate) => if rate <= g.rate { MulMono(rate, g.rate, g.now - g.lastRefill); }
    case Pause(ns) => AddTimes(g.rate, g.now - g.lastRefill, ns);
  }

  /* ---------- whole runs ---------- */

  /** The rate in force after some calls. */
  function RateAfter(first: int, calls: seq<Call>): int {
    if calls == [] then first
    else
      var last := calls[|calls| - 1];
      if last.SetRateCall? then last.rate else RateAfter(first, calls[..|calls| - 1])
  }

  /** Each rate times the time that calls took while it was in force. */
  function Earned(first: int, calls: seq<Call>, took: seq<int>): int
    requires |calls| == |took|
  {
    if calls == [] then 0
    else
      var n := |calls| - 1;
      Earned(first, calls[..n], took[..n]) + RateAfter(first, calls[..n]) * took[n]
  }

  function Sum(xs: seq<int>): int {
    if xs == [] then 0 else Sum(xs[..|xs| - 1]) + xs[|xs| - 1]
  }

  predicate NeverRaises(first: int, calls: seq<Call>) {
    forall i :: 0 <= i < |calls| && calls[i].SetRateCall? ==> calls[i].rate <= RateAfter(first, calls[..i])
  }

  function TopRate(first: int, calls: seq<Call>): int {
    if calls == [] then first
    else
      var before := TopRate(first, calls[..|calls| - 1]);
      var last := calls[|calls| - 1];
      if last.SetRateCall? && before < last.rate then last.rate else before
  }

  /** The permits granted by the first calls of a run. */
  function TotalGranted(calls: seq<Call>, outcomes: seq<Option<Outcome>>): int
    requires |calls| == |outcomes|
  {
    if calls == [] then 0
    else
      var n := |calls| - 1;
      TotalGranted(calls[..n], outcomes[..n]) + Gain(calls[n], outcomes[n])
  }

  /** A call leads from one gauge to the next, with its outcome and the time it takes. */
  ghost predicate Leads(g: Gauge, g': Gauge, timeout: int, c: Call, outcome: Option<Outcome>, ns: int) {
    Sane(g) && Legal(c) && (g', outcome) == Performed(g, timeout, c) && ns == g'.now - g.now
  }

  /** A run: `gs` holds the gauge before each call, and the one after the last. */
  ghost predicate Happened(gs: seq<Gauge>, timeout: int, calls: seq<Call>, outcomes: seq<Option<Outcome>>, took: seq<int>) {
    && |outcomes| == |took| == |calls| && |gs| == |calls| + 1
    && forall i :: 0 <= i < |calls| ==> Leads(gs[i], gs[i + 1], timeout, calls[i], outcomes[i], took[i])
  }

  lemma OneMoreHappened(gs: seq<Gauge>, timeout: int, calls: seq<Call>, outcomes: seq<Option<Outcome>>, took: seq<int>,
                        g: Gauge, c: Call, outcome: Option<Outcome>, ns: int)
    requires Happened(gs, timeout, calls, outcomes, took) && Leads(gs[|calls|], g, timeout, c, outcome, ns)
    ensures Happened(gs + [g], timeout, calls + [c], outcomes + [outcome], took + [ns])
  {
    var gs', calls', outcomes', took' := gs + [g], calls + [c], outcomes + [outcome], took + [ns];
    forall i | 0 <= i < |calls'| ensures Leads(gs'[i], gs'[i + 1], timeout, calls'[i], outcomes'[i], took'[i]) {
      if i < |calls| { assert Leads(gs[i], gs[i + 1], timeout, calls[i], outcomes[i], took[i]); }
    }
  }

  lemma OneMoreCall(first: int, calls: seq<Call>, took: seq<int>, i: nat, ns: int)
    requires i < |calls| && |took| == i
    ensures Sum(took + [ns]) == Sum(took) + ns
    ensures Earned(first, calls[..i + 1], took + [ns]) ==
            Earned(first, calls[..i], took) + RateAfter(first, calls[..i]) * ns
    ensures RateAfter(first, calls[..i + 1]) ==
            if calls[i].SetRateCall? then calls[i].rate else RateAfter(first, calls[..i])
    ensures var top := TopRate(first, calls[..i]);
      TopRate(first, calls[..i + 1]) == if calls[i].SetRateCall? && top < calls[i].rate then calls[i].rate else top
  {
    assert calls[..i + 1][..i] == calls[..i] && (took + [ns])[..i] == took;
  }

  /** A run's gauge shows the rate in force and the time taken. */
  lemma {:induction false} RunRates(gs: seq<Gauge>, timeout: int, calls: seq<Call>,
                                    outcomes: seq<Option<Outcome>>, took: seq<int>, i: nat)
    requires Happened(gs, timeout, calls, outcomes, took) && i <= |calls|
    ensures gs[i].rate == RateAfter(gs[0].rate, calls[..i]) && gs[i].now == gs[0].now + Sum(took[..i])
  {
    if i > 0 {
      var k := i - 1;
      RunRates(gs, timeout, calls, outcomes, took, k);
      OneMoreCall(gs[0].rate, calls, took[..k], k, took[k]);
      assert took[..i] == took[..k] + [took[k]];
      assert Leads(gs[k], gs[i], timeout, calls[k], outcomes[k], took[k]);
      RateAfterCall(gs[k], timeout, calls[k]);
    }
  }

  lemma RateAfterCall(g: Gauge, timeout: int, c: Call)
    requires Sane(g) && Legal(c)
    ensures Performed(g, timeout, c).0.rate == if c.SetRateCall? then c.rate else g.rate
  {
  }

  /** A limiter as it is created. */
  predicate New(g: Gauge) {
    Sane(g) && g.lastRefill == g.now
  }

  /** The balance after the calls of a run. */
  lemma {:induction false} RunBalanced(gs: seq<Gauge>, timeout: int, calls: seq<Call>,
                                       outcomes: seq<Option<Outcome>>, took: seq<int>, i: nat)
    requires Happened(gs, timeout, calls, outcomes, took) && New(gs[0]) && i <= |calls|
    ensures Balanced(gs[0], gs[i], TotalGranted(calls[..i], outcomes[..i]), TopRate(gs[0].rate, calls[..i]))
  {
    if i == 0 {
      StartBalanced(gs[0]);
    } else {
      var k := i - 1;
      RunBalanced(gs, timeout, calls, outcomes, took, k);
      OneMoreOf(calls, outcomes, k);
      OneMoreCall(gs[0].rate, calls, took[..k], k, took[k]);
      assert Leads(gs[k], gs[i], timeout, calls[k], outcomes[k], took[k]);
      NextBalanced(gs[0], timeout, calls[k], outcomes[k], gs[k], gs[i], TotalGranted(calls[..k], outcomes[..k]),
                   TopRate(gs[0].rate, calls[..k]), took[k]);
    }
  }

  lemma NextBalanced(first: Gauge, timeout: int, c: Call, outcome: Option<Outcome>, g: Gauge, g': Gauge,
                     granted: int, top: int, ns: int)
    requires Leads(g, g', timeout, c, outcome, ns) && Balanced(first, g, granted, top)
    ensures Balanced(first, g', granted + Gain(c, outcome), if c.SetRateCall? && top < c.rate then c.rate else top)
  {
    CallBalanced(first, g, granted, top, timeout, c);
  }

  lemma StartBalanced(first: Gauge)
    requires New(first)
    ensures Balanced(first, first, 0, first.rate) && Paid(first, first, 0, 0)
  {
  }

  /** What was filled in stays within what was earned, in a run that never raises the rate. */
  lemma {:induction false} RunPaid(gs: seq<Gauge>, timeout: int, calls: seq<Call>,
                                   outcomes: seq<Option<Outcome>>, took: seq<int>, i: nat)
    requires Happened(gs, timeout, calls, outcomes, took) && New(gs[0]) && i <= |calls|
    requires NeverRaises(gs[0].rate, calls)
    ensures Paid(gs[0], gs[i], TotalGranted(calls[..i], outcomes[..i]), Earned(gs[0].rate, calls[..i], took[..i]))
  {
    if i == 0 {
      StartBalanced(gs[0]);
    } else {
      var k := i - 1;
      RunPaid(gs, timeout, calls, outcomes, took, k);
      RunRates(gs, timeout, calls, outcomes, took, k);
      OneMoreOf(calls, outcomes, k);
      EarnedOne(gs[0].rate, calls, took, k);
      assert Leads(gs[k], gs[i], timeout, calls[k], outcomes[k], took[k]);
      NextPaid(gs[0], timeout, calls[k], outcomes[k], gs[k], gs[i], TotalGranted(calls[..k], outcomes[..k]),
               Earned(gs[0].rate, calls[..k], took[..k]), RateAfter(gs[0].rate, calls[..k]), took[k]);
    }
  }

  lemma EarnedOne(first: int, calls: seq<Call>, took: seq<int>, k: nat)
    requires k < |calls| == |took|
    ensures Earned(first, calls[..k + 1], took[..k + 1]) ==
            Earned(first, calls[..k], took[..k]) + RateAfter(first, calls[..k]) * took[k]
  {
    assert calls[..k + 1][..k] == calls[..k] && took[..k + 1][..k] == took[..k];
  }

  lemma NextPaid(first: Gauge, timeout: int, c: Call, outcome: Option<Outcome>, g: Gauge, g': Gauge,
                 granted: int, earned: int, rate: int, ns: int)
    requires Leads(g, g', timeout, c, outcome, ns) && (c.SetRateCall? ==> c.rate <= g.rate)
    requires Paid(first, g, granted, earned) && rate == g.rate
    ensures Paid(first, g', granted + Gain(c, outcome), earned + rate * ns)
  {
    CallPaid(first, g, granted, earned, timeout, c);
  }

  /** Over any sequence of calls, what is left and what has been granted is at least the initial
      permits, and at most those and the largest rate times the time taken.  When no call raises the
      rate, it is at most the initial permits and what each rate earned in its own time. */
  lemma RunsStayWithinBounds(gs: seq<Gauge>, timeout: int, calls: seq<Call>, outcomes: seq<Option<Outcome>>, took: seq<int>)
    requires Happened(gs, timeout, calls, outcomes, took) && New(gs[0])
    ensures var first, permits, total := gs[0], gs[|calls|].permits, TotalGranted(calls, outcomes);
      && 0 <= permits && first.permits <= permits + total
      && (permits + total) * NANOS <= first.permits * NANOS + TopRate(first.rate, calls) * Sum(took)
      && (NeverRaises(first.rate, calls) ==>
            (permits + total) * NANOS <= first.permits * NANOS + Earned(first.rate, calls, took))
  {
    var n, first := |calls|, gs[0];
    RunRates(gs, timeout, calls, outcomes, took, n);
    RunBalanced(gs, timeout, calls, outcomes, took, n);
    assert calls[..n] == calls && outcomes[..n] == outcomes && took[..n] == took;
    BalanceBounds(first, gs[n], TotalGranted(calls, outcomes), TopRate(first.rate, calls), Sum(took));
    if NeverRaises(first.rate, calls) {
      RunPaid(gs, timeout, calls, outcomes, took, n);
      PaidBounds(first, gs[n], TotalGranted(calls, outcomes), Earned(first.rate, calls, took));
    }
  }

  lemma BalanceBounds(first: Gauge, g: Gauge, granted: int, top: int, elapsed: int)
    requires Balanced(first, g, granted, top) && g.now == first.now + elapsed
    ensures 0 <= g.permits && first.permits <= g.permits + granted
    ensures (g.permits + granted) * NANOS <= first.permits * NANOS + top * elapsed
  {
    MulMono(g.lastRefill - first.now, elapsed, top);
  }

  lemma PaidBounds(first: Gauge, g: Gauge, granted: int, earned: int)
    requires Sane(g) && Paid(first, g, granted, earned)
    ensures (g.permits + granted) * NANOS <= first.permits * NANOS + earned
  {
    MulMono(0, g.now - g.lastRefill, g.rate);
  }

  lemma OneMoreOf(calls: seq<Call>, outcomes: seq<Option<Outcome>>, k: nat)
    requires k < |calls| == |outcomes|
    ensures TotalGranted(calls[..k + 1], outcomes[..k + 1]) == TotalGranted(calls[..k], outcomes[..k]) + Gain(calls[k], outcomes[k])
  {
    assert calls[..k + 1][..k] == calls[..k] && outcomes[..k + 1][..k] == outcomes[..k];
  }

  lemma AddTimes(rate: int, a: int, b: int)
    ensures rate * a + rate * b == rate * (a + b)
  {
  }

  /* ---------- the limiter ---------- */

  class Limiter {
    const timeout: int

    var permits: int
    var rate: int
    var lastRefill: int
    var now: int

    constructor (initialPermits: int, permitsPerSecond: int, timeout: int, now: int)
      requires initialPermits >= 0 && permitsPerSecond > 0
      ensures Valid() && Now() == Gauge(initialPermits, permitsPerSecond, now, now) && this.timeout == timeout
    {
      this.timeout := timeout;
      this.permits, this.rate, this.lastRefill, this.now := initialPermits, permitsPerSecond, now, now;
    }

    function Now(): Gauge
      reads `permits, `rate, `lastRefill, `now
    {
      Gauge(permits, rate, lastRefill, now)
    }

    predicate Valid()
      reads `permits, `rate, `lastRefill, `now
    {
      Sane(Now())
    }

    method RefillPermits()
      requires Valid()
      modifies `permits, `lastRefill
      ensures Valid() && lastRefill == now
      ensures permits == old(permits) + Fill(rate, now - old(lastRefill))
    {
      var elapsed := now - lastRefill;
      if elapsed <= 0 {
        assert rate * 0 == 0;
        return;
      }
      permits := permits + Fill(rate, elapsed);
      lastRefill := now;
    }

    /** A non-positive rate would make the next Acquire divide by zero or sleep backwards.
        There is no refill first, so a raised rate applies back to the last one. */
    method SetFillRate(permitsPerSecond: int)
      requires Valid() && permitsPerSecond > 0
      modifies `rate
      ensures Valid() && Now() == old(Now()).(rate := permitsPerSecond)
    {
      rate := permitsPerSecond;
    }

    /** Time passing outside the limiter. */
    method Elapse(ns: nat)
      requires Valid()
      modifies `now
      ensures Valid() && now == old(now) + ns
    {
      now := now + ns;
    }

    /** One turn of the waiting loop, which tells how long a sleep it asked for. */
    method SleepAndRefill(n: int, nap: Nap) returns (asked: int)
      requires Valid() && n > permits
      modifies `permits, `lastRefill, `now
      ensures Valid() && asked == AskedSleep(n, rate) && Now() == AfterNap(old(Now()), nap)
      ensures lastRefill == old(now) + nap.sleep && now == old(now) + nap.sleep + nap.refill
      ensures permits == old(permits) + Fill(rate, old(now) + nap.sleep - old(lastRefill))
      ensures nap.sleep >= asked + 1000 ==> permits >= n
    {
      asked := AskedSleep(n, rate);
      Elapse(nap.sleep);
      if nap.sleep >= asked + 1000 {
        OneMoreMicrosecondIsEnough(rate, n, now - lastRefill);
      }
      RefillPermits();
      Elapse(nap.refill);
    }

    /** The waiting loop: sleeps and refills until there are enough permits or it is too late. */
    method AwaitPermits(n: int, deadline: int, naps: seq<Nap>) returns (ending: Ending, asked: seq<int>)
      requires Valid()
      modifies `permits, `lastRefill, `now
      ensures Valid() && (ending, Now()) == Waited(WaitFor(old(Now()), n, deadline, naps))
      ensures |asked| <= |naps| && (n <= 0 ==> asked == [])
      ensures forall i :: 0 <= i < |asked| ==> asked[i] == AskedSleep(n, rate)
    {
      asked := [];
      var i := 0;
      while permits - n < 0
        invariant Valid() && |asked| == i <= |naps| && (n <= 0 ==> asked == [])
        invariant WaitFor(old(Now()), n, deadline, naps) == WaitFor(Now(), n, deadline, naps[i..])
        invariant forall j :: 0 <= j < |asked| ==> asked[j] == AskedSleep(n, rate)
        decreases |naps| - i
      {
        if i == |naps| {
          return StillShort, asked;
        }
        WaitOne(Now(), n, deadline, naps, i);
        var sleep := SleepAndRefill(n, naps[i]);
        asked := asked + [sleep];
        i := i + 1;
        if now >= deadline {
          return TooLate, asked;
        }
      }
      ending := InTime;
    }

    /** `asked` lists the sleeps that were asked for; `naps` says how they turned out. */
    method Acquire(n: int, naps: seq<Nap>) returns (r: Outcome, asked: seq<int>)
      requires Valid() && MICROS * n <= INT32_MAX
      modifies `permits, `lastRefill, `now
      ensures Valid() && (Now(), r) == Acquired(old(Now()), timeout, n, naps)
      ensures now >= old(now) && (r.Granted? ==> r.waited == now - old(now))
      ensures !r.Granted? ==> permits >= old(permits)
      ensures r.TimedOut? ==> r.error == TIMED_OUT && now >= old(now) + timeout
      ensures old(permits) >= n ==> r == Granted(0) && permits == old(permits) - n
      ensures |asked| <= |naps| && forall i :: 0 <= i < |asked| ==> n > 0 && asked[i] == AskedSleep(n, rate)
      ensures n > old(permits) && naps != [] && naps[0].sleep >= AskedSleep(n, rate) + 1000 ==>
        r.Granted? || r.TimedOut?
      ensures old(permits) < n && r.Granted? ==> r.waited < timeout
      ensures n > old(permits) && naps != [] && naps[0].sleep + naps[0].refill >= timeout ==> r == TimedOut(TIMED_OUT)
      ensures r.TimedOut? <==> exists k: nat :: LateAt(old(Now()), timeout, n, naps, k)
    {
      var startTime := now;
      AcquireSettles(Now(), timeout, n, naps);
      var ending;
      ending, asked := AwaitPermits(n, startTime + timeout, naps);
      match ending {
        case TooLate => return TimedOut(TIMED_OUT), asked;
        case StillShort => return StillWaiting, asked;
        case InTime =>
      }
      permits := permits - n;
      r := Granted(now - startTime);
    }

    /** Carries out one call; `outcome` is that of an Acquire. */
    method Perform(c: Call) returns (outcome: Option<Outcome>)
      requires Valid() && Legal(c)
      modifies this
      ensures Valid() && (Now(), outcome) == Performed(old(Now()), timeout, c)
      ensures c.AcquireCall? <==> outcome.Some?
      ensures c.SetRateCall? ==> Now() == old(Now()).(rate := c.rate)
      ensures c.Pause? ==> Now() == old(Now()).(now := old(now) + c.ns)
    {
      outcome := None;
      match c {
        case AcquireCall(n, naps) =>
          var r, _ := Acquire(n, naps);
          outcome := Some(r);
        case SetRateCall(newRate) =>
          SetFillRate(newRate);
        case Pause(ns) =>
          Elapse(ns);
      }
    }
  }

  /** Any sequence of calls on a new limiter. */
  method Play(first: Gauge, timeout: int, calls: seq<Call>)
    returns (gs: seq<Gauge>, outcomes: seq<Option<Outcome>>, took: seq<int>)
    requires New(first) && AllLegal(calls)
    ensures Happened(gs, timeout, calls, outcomes, took) && gs[0] == first
  {
    var limiter := new Limiter(first.permits, first.rate, timeout, first.now);
    gs, outcomes, took := [first], [], [];
    for i := 0 to |calls|
      invariant fresh(limiter) && limiter.timeout == timeout && limiter.Valid()
      invariant Happened(gs, timeout, calls[..i], outcomes, took) && gs[0] == first && gs[i] == limiter.Now()
    {
      var outcome := limiter.Perform(calls[i]);
      var ns := limiter.now - gs[i].now;
      OneMoreHappened(gs, timeout, calls[..i], outcomes, took, limiter.Now(), calls[i], outcome, ns);
      assert calls[..i + 1] == calls[..i] + [calls[i]];
      gs, outcomes, took := gs + [limiter.Now()], outcomes + [outcome], took + [ns];
    }
    assert calls[..|calls|] == calls;
  }

  /** Any sequence of calls on a new limiter stays within the bounds. */
  method Drive(initialPermits: int, permitsPerSecond: int, timeout: int, start: int, calls: seq<Call>)
    returns (gs: seq<Gauge>, outcomes: seq<Option<Outcome>>, took: seq<int>)
    requires initialPermits >= 0 && permitsPerSecond > 0 && AllLegal(calls)
    ensures Happened(gs, timeout, calls, outcomes, took) && gs[0] == Gauge(initialPermits, permitsPerSecond, start, start)
    ensures var permits, total := gs[|calls|].permits, TotalGranted(calls, outcomes);
      && 0 <= permits && initialPermits <= permits + total
      && (permits + total) * NANOS <= initialPermits * NANOS + TopRate(permitsPerSecond, calls) * Sum(took)
      && (NeverRaises(permitsPerSecond, calls) ==>
            (permits + total) * NANOS <= initialPermits * NANOS + Earned(permitsPerSecond, calls, took))
  {
    gs, outcomes, took := Play(Gauge(initialPermits, permitsPerSecond, start, start), timeout, calls);
    RunsStayWithinBounds(gs, timeout, calls, outcomes, took);
  }

  /* ---------- a run that gets more than it earned ---------- */

  const MILLI: int := NANOS / 1000

  /** A second at one permit a second, then a thousand a second, and a call that sleeps for a
      millisecond. */
  const RAISE_CALLS: seq<Call> := [Pause(NANOS), SetRateCall(1000), AcquireCall(1001, [Nap(MILLI, 0)])]

  /** The call is granted 1001 permits, where two were earned and none was there at first. */
  method RaiseRun() returns (outcomes: seq<Option<Outcome>>, took: seq<int>)
    ensures outcomes == [None, None, Some(Granted(MILLI))] && took == [NANOS, 0, MILLI]
    ensures TotalGranted(RAISE_CALLS, outcomes) == 1001 && Earned(1, RAISE_CALLS, took) == 2 * NANOS
  {
    var gs;
    gs, outcomes, took := Drive(0, 1, NANOS, 0, RAISE_CALLS);
    RaiseHappens(gs, outcomes, took);
    RaiseTotals(outcomes, took);
  }

  lemma RaiseHappens(gs: seq<Gauge>, outcomes: seq<Option<Outcome>>, took: seq<int>)
    requires Happened(gs, NANOS, RAISE_CALLS, outcomes, took) && gs[0] == Gauge(0, 1, 0, 0)
    ensures outcomes == [None, None, Some(Granted(MILLI))] && took == [NANOS, 0, MILLI]
  {
    assert Leads(gs[0], gs[1], NANOS, RAISE_CALLS[0], outcomes[0], took[0]);
    assert Leads(gs[1], gs[2], NANOS, RAISE_CALLS[1], outcomes[1], took[1]);
    assert gs[2] == Gauge(0, 1000, 0, NANOS);
    assert Leads(gs[2], gs[3], NANOS, RAISE_CALLS[2], outcomes[2], took[2]);
    RaisedAcquire();
  }

  lemma RaisedAcquire()
    ensures Acquired(Gauge(0, 1000, 0, NANOS), NANOS, 1001, [Nap(MILLI, 0)]) ==
            (Gauge(0, 1000, NANOS + MILLI, NANOS + MILLI), Granted(MILLI))
  {
    RaiseExample();
    var g := AfterNap(Gauge(0, 1000, 0, NANOS), Nap(MILLI, 0));
    assert g == Gauge(1001, 1000, NANOS + MILLI, NANOS + MILLI);
    assert WaitFor(g, 1001, NANOS + NANOS, [Nap(MILLI, 0)][1..]) == Enough(g);
  }

  lemma RaiseTotals(outcomes: seq<Option<Outcome>>, took: seq<int>)
    requires |outcomes| == 3 && outcomes[0] == outcomes[1] == None && outcomes[2] == Some(Granted(MILLI))
    requires took == [NANOS, 0, MILLI]
    ensures TotalGranted(RAISE_CALLS, outcomes) == 1001 && Earned(1, RAISE_CALLS, took) == 2 * NANOS
  {
    var c := RAISE_CALLS;
    assert c[..2][..1] == c[..1] && outcomes[..2][..1] == outcomes[..1] && took[..2][..1] == took[..1];
    assert TotalGranted(c[..1], outcomes[..1]) == 0 && TotalGranted(c[..2], outcomes[..2]) == 0;
    assert RateAfter(1, c[..0]) == 1 && RateAfter(1, c[..1]) == 1 && RateAfter(1, c[..2]) == 1000;
    assert Earned(1, c[..1], took[..1]) == NANOS && Earned(1, c[..2], took[..2]) == NANOS;
  }
}
