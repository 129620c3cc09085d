/** Measuring the throughput of a response from the kernel's byte counter: poll it until it
    stops growing or a deadline passes, then divide what it grew by the time it took; where
    there is no counter to consult, by the time the send took. */
module WirePoll {
  import opened Wrappers

  const QUIESCE_MAX := 30.0
  const INTERVAL := 0.1
  const QUIESCE_SAMPLES := 3
  const MAX_POLLS := 300

  // What one reading of the counter yields.
  datatype Sample = Octets(n: int) | Gone | Raised

  datatype Measurement = Measurement(measured: bool, mbps: Option<real>)

  // Everything one measurement observes: the reading before the body is sent, if a reader is
  // registered, and its moment; the clock at the start of the send, before poll `k` and right
  // after its reading; and that reading.
  datatype Env = Env(preread: Option<Sample>, readAt: real, t0: real, check: nat -> real, sample: nat -> Sample,
                     after: nat -> real)

  // A monotonic clock, and a sleep of at least the interval in every poll.
  ghost predicate Lawful(e: Env)
  {
    e.readAt <= e.t0 <= e.check(0) && forall k: nat :: Ticks(e, k)
  }

  // The counter was there and readable before the body was sent.
  predicate Counted(e: Env)
  {
    e.preread.Some? && e.preread.value.Octets?
  }

  function Before(e: Env): int
  {
    if Counted(e) then e.preread.value.n else 0
  }

  ghost predicate Ticks(e: Env, k: nat)
  {
    e.check(k) + INTERVAL <= e.after(k) && e.after(k) <= e.check(k + 1)
  }

  // The counter as known after `k` polls.
  function Value(e: Env, k: nat): int
  {
    if k == 0 then Before(e) else if e.sample(k - 1).Octets? then e.sample(k - 1).n else 0
  }

  // Three samples in a row equal to the value before them.
  predicate Steady(e: Env, k: nat)
  {
    k >= QUIESCE_SAMPLES && Value(e, k) == Value(e, k - 1) == Value(e, k - 2) == Value(e, k - 3)
  }

  function Elapsed(e: Env, polls: nat): real
  {
    if polls == 0 then 0.0 else e.after(polls - 1) - e.t0
  }

  function Rate(delta: int, elapsed: real): Option<real>
  {
    if delta <= 0 || elapsed <= 0.0 then None else Some((delta * 8) as real / elapsed / 1000000.0)
  }

  // `m` after `polls` polls is what the observations lead to.
  ghost predicate IsOutcome(e: Env, m: Measurement, polls: nat)
  {
    && (forall k: nat :: k < polls ==> e.check(k) < e.t0 + QUIESCE_MAX)
    && (forall k: nat :: k < polls ==> !Steady(e, k))
    && (forall k: nat :: k + 1 < polls ==> e.sample(k).Octets?)
    && if polls > 0 && !e.sample(polls - 1).Octets? then m == Measurement(false, None)
       else
         && (Steady(e, polls) || e.check(polls) >= e.t0 + QUIESCE_MAX)
         && m == Measurement(true, Rate(Value(e, polls) - Before(e), Elapsed(e, polls)))
  }

  // The loop: polls until the counter is steady, the deadline has passed, or a reading fails.
  method Poll(e: Env) returns (failed: bool, lastTotal: int, lastT: real, polls: nat)
    requires Lawful(e)
    ensures polls <= MAX_POLLS
    ensures forall j: nat :: j < polls ==> e.check(j) < e.t0 + QUIESCE_MAX
    ensures forall j: nat :: j < polls ==> !Steady(e, j)
    ensures forall j: nat :: j + 1 < polls ==> e.sample(j).Octets?
    ensures failed <==> polls > 0 && !e.sample(polls - 1).Octets?
    ensures !failed ==> Steady(e, polls) || e.check(polls) >= e.t0 + QUIESCE_MAX
    ensures !failed ==> lastTotal == Value(e, polls) && lastT - e.t0 == Elapsed(e, polls)
  {
    var deadline := e.t0 + QUIESCE_MAX;
    var prev := Before(e);
    var noGrowth := 0;
    failed, lastTotal, lastT, polls := false, Before(e), e.t0, 0;
    var k := 0;
    while e.check(k) < deadline
      invariant polls == k && k <= MAX_POLLS && !failed
      invariant e.t0 + k as real * INTERVAL <= e.check(k)
      invariant forall j: nat :: j < k ==> e.check(j) < deadline
      invariant forall j: nat :: j < k ==> e.sample(j).Octets?
      invariant forall j: nat :: j <= k ==> !Steady(e, j)
      invariant lastTotal == Value(e, k) == prev && lastT - e.t0 == Elapsed(e, k)
      invariant 0 <= noGrowth < QUIESCE_SAMPLES && noGrowth <= k
      invariant (noGrowth >= 1 ==> Value(e, k - 1) == prev) && (noGrowth >= 2 ==> Value(e, k - 2) == prev)
      invariant noGrowth < k ==> Value(e, k - noGrowth - 1) != prev
      decreases MAX_POLLS - k
    {
      AnotherPollFits(e, k);
      polls := k + 1;
      var current := e.sample(k);
      if !current.Octets? {
        return true, lastTotal, lastT, polls;
      }
      lastT := e.after(k);
      lastTotal := current.n;
      k := k + 1;
      if current.n == prev {
        noGrowth := noGrowth + 1;
        if noGrowth >= QUIESCE_SAMPLES {
          return false, lastTotal, lastT, polls;
        }
      } else {
        noGrowth := 0;
        prev := current.n;
      }
    }
  }

  // Every poll takes an interval, so the deadline leaves room for no more than 300.
  lemma AnotherPollFits(e: Env, k: nat)
    requires Lawful(e) && e.t0 + k as real * INTERVAL <= e.check(k) < e.t0 + QUIESCE_MAX
    ensures k < MAX_POLLS && e.t0 + (k + 1) as real * INTERVAL <= e.check(k + 1)
  {
    assert Ticks(e, k);
  }

  method MeasureViaCounter(e: Env) returns (m: Measurement, polls: nat)
    requires Lawful(e) && Counted(e)
    ensures IsOutcome(e, m, polls)
    ensures polls <= MAX_POLLS
  {
    var failed, lastTotal, lastT;
    failed, lastTotal, lastT, polls := Poll(e);
    m := if failed then Measurement(false, None) else Measurement(true, Rate(lastTotal - Before(e), lastT - e.t0));
  }

  /** The observations determine the outcome and the number of polls. */
  lemma OutcomeIsUnique(e: Env, m1: Measurement, p1: nat, m2: Measurement, p2: nat)
    requires IsOutcome(e, m1, p1) && IsOutcome(e, m2, p2)
    ensures p1 == p2 && m1 == m2
  {}

  /** A reported rate is exact: times the elapsed time it is eight bits per counted
      byte, in millions. */
  lemma RateIsExact(delta: int, elapsed: real)
    requires Rate(delta, elapsed).Some?
    ensures Rate(delta, elapsed).value * elapsed == (8 * delta) as real / 1000000.0
    ensures Rate(delta, elapsed).value > 0.0
  {
    var bits := (delta * 8) as real;
    var perSecond := bits / elapsed;
    assert perSecond * elapsed == bits;
    assert perSecond / 1000000.0 * elapsed == perSecond * elapsed / 1000000.0;
    PositiveQuotient(bits, elapsed);
  }

  lemma PositiveQuotient(a: real, b: real)
    requires a > 0.0 && b > 0.0
    ensures a / b > 0.0
  {}

  /** What a measurement says: the growth from the reading before the send to the last one, over
      the time from the send to right after that last reading. */
  lemma MeasuredRate(e: Env, m: Measurement, polls: nat)
    requires Lawful(e) && IsOutcome(e, m, polls) && m.mbps.Some?
    ensures polls > 0 && e.sample(polls - 1).Octets? && e.sample(polls - 1).n > Before(e)
    ensures m.mbps.value * (e.after(polls - 1) - e.t0)
         == (8 * (e.sample(polls - 1).n - Before(e))) as real / 1000000.0
  {
    RateIsExact(Value(e, polls) - Before(e), Elapsed(e, polls));
  }

  ghost predicate NonDecreasing(e: Env, polls: nat)
  {
    forall k: nat :: k < polls ==> Value(e, k) <= Value(e, k + 1)
  }

  lemma {:induction false} ValuesOrdered(e: Env, polls: nat, i: nat, j: nat)
    requires NonDecreasing(e, polls) && i <= j <= polls
    ensures Value(e, i) <= Value(e, j)
    decreases j - i
  {
    if i < j {
      ValuesOrdered(e, polls, i, j - 1);
      assert Value(e, j - 1) <= Value(e, j - 1 + 1);
    }
  }

  /** For a counter that never decreases, a measured None says exactly that no poll
      saw growth. */
  lemma NoneMeansNoGrowthSeen(e: Env, m: Measurement, polls: nat)
    requires Lawful(e) && IsOutcome(e, m, polls) && m.measured && NonDecreasing(e, polls)
    ensures m.mbps == None <==> forall k: nat :: k <= polls ==> Value(e, k) == Before(e)
  {
    forall k: nat | k <= polls
      ensures Before(e) <= Value(e, k) <= Value(e, polls)
    {
      ValuesOrdered(e, polls, 0, k);
      ValuesOrdered(e, polls, k, polls);
    }
    if polls > 0 {
      ClockAdvances(e, polls - 1);
    }
  }

  lemma {:induction false} ClockAdvances(e: Env, k: nat)
    requires Lawful(e)
    ensures e.t0 <= e.check(k) < e.after(k)
  {
    assert Ticks(e, k);
    if k > 0 {
      ClockAdvances(e, k - 1);
      assert Ticks(e, k - 1);
    }
  }

  // The number of polls is decided by the clock at the first of them.
  lemma PollsExactly(e: Env, m: Measurement, polls: nat)
    requires IsOutcome(e, m, polls)
    ensures polls > 0 <==> e.check(0) < e.t0 + QUIESCE_MAX
  {}

  // The wire counter as a function of time, sampled by the reading before and by the polls.
  ghost predicate Samples(e: Env, wire: real -> int, polls: nat)
  {
    && e.preread == Some(Octets(wire(e.readAt)))
    && forall k: nat :: k < polls ==> e.sample(k) == Octets(wire(e.after(k)))
  }

  ghost predicate Growing(wire: real -> int)
  {
    forall a: real, b: real :: a <= b ==> wire(a) <= wire(b)
  }

  // When the measurement last looked at anything.
  function LastLook(e: Env, polls: nat): real
  {
    if polls == 0 then e.check(0) else e.after(polls - 1)
  }

  // No counter that the readings are readings of has moved by then.
  ghost predicate TrafficRuledOut(e: Env, polls: nat)
  {
    forall wire: real -> int, t: real ::
      Samples(e, wire, polls) && Growing(wire) && e.readAt <= t <= LastLook(e, polls) ==> wire(t) == wire(e.readAt)
  }

  lemma NoneRulesOutTraffic(e: Env, m: Measurement, polls: nat, wire: real -> int, t: real)
    requires Lawful(e) && IsOutcome(e, m, polls) && Samples(e, wire, polls) && Growing(wire)
    requires m.measured && m.mbps == None && e.check(0) < e.t0 + QUIESCE_MAX
    requires e.readAt <= t <= LastLook(e, polls)
    ensures wire(t) == wire(e.readAt)
  {
    PollsExactly(e, m, polls);
    forall k: nat | k < polls
      ensures Value(e, k) <= Value(e, k + 1)
    {
      ClockAdvances(e, k);
      if k > 0 {
        assert Ticks(e, k - 1);
      }
    }
    NoneMeansNoGrowthSeen(e, m, polls);
    assert Value(e, polls) == wire(e.after(polls - 1)) == Before(e);
  }

  /** A measured None rules out traffic, from the first reading to the last look, if and only
      if the first poll is checked before the deadline: afterwards nothing is read, and the
      counter may have moved. */
  lemma NoneRulesOutTrafficExactly(e: Env, m: Measurement, polls: nat)
    requires Lawful(e) && Counted(e) && IsOutcome(e, m, polls) && m == Measurement(true, None)
    ensures TrafficRuledOut(e, polls) <==> e.check(0) < e.t0 + QUIESCE_MAX
  {
    if e.check(0) < e.t0 + QUIESCE_MAX {
      forall wire: real -> int, t: real |
          Samples(e, wire, polls) && Growing(wire) && e.readAt <= t <= LastLook(e, polls)
        ensures wire(t) == wire(e.readAt)
      {
        NoneRulesOutTraffic(e, m, polls, wire, t);
      }
    } else {
      var n, start := Before(e), e.t0;
      var wire := (t: real) => if t <= start then n else n + 1;
      assert Samples(e, wire, polls) && Growing(wire) && e.readAt <= e.check(0) <= LastLook(e, polls);
      assert wire(e.check(0)) != wire(e.readAt);
    }
  }

  /** A call that starts after the deadline measures None whatever the counter says. */
  lemma LateStartMeasuresNothing(e: Env, m: Measurement, polls: nat)
    requires IsOutcome(e, m, polls) && e.check(0) >= e.t0 + QUIESCE_MAX
    ensures polls == 0 && m == Measurement(true, None)
  {}

  /** Such a call exists: the first clock check is 31 s after the start, a million
      bytes have crossed the wire by then, and the measurement says None. */
  lemma TrafficUnderNone() returns (e: Env, wire: real -> int)
    ensures Lawful(e) && Samples(e, wire, 0) && Growing(wire)
    ensures IsOutcome(e, Measurement(true, None), 0)
    ensures wire(e.check(0)) > wire(e.readAt)
  {
    wire := t => if t < 1.0 then 0 else 1000000;
    var after := (k: nat) => 31.5 + k as real;
    var sample := (k: nat) => Octets(1000000);
    e := Env(Some(Octets(0)), 0.0, 0.0, k => 31.0 + k as real, sample, after);
    assert forall k: nat :: after(k) >= 1.0;
  }

  // ---- what is recorded ----

  const MAX_BYTES := 16 * 1024 * 1024
  const MIN_DURATION := 0.03
  const MAX_PLAUSIBLE_MBPS := 5000.0

  // How the send ended: in the time it took, also when it ran into a timeout, or by an error.
  datatype Sent = Sent(duration: real) | Aborted

  function Capped(n: int): int
  {
    if n > MAX_BYTES then MAX_BYTES else n
  }

  function SendRate(n: int, duration: real): real
    requires duration > 0.0
  {
    (n * 8) as real / duration / 1000000.0
  }

  // The rate of the send, unless the buffers absorbed it.
  function PlausibleRate(n: int, duration: real): Option<real>
    requires duration > 0.0
  {
    if duration < MIN_DURATION || SendRate(n, duration) > MAX_PLAUSIBLE_MBPS then None else Some(SendRate(n, duration))
  }

  // What the table holds after a send, given what the counter would say.
  function Recorded(table: map<string, Option<real>>, proto: string, n: int, counted: bool, m: Measurement,
                    duration: real)
    : map<string, Option<real>>
  {
    if counted && m.measured then table[proto := m.mbps]
    else if duration <= 0.0 then table
    else table[proto := PlausibleRate(n, duration)]
  }

  class EchoServer {
    var throughputMbps: map<string, Option<real>>

    constructor ()
      ensures throughputMbps == map[]
    {
      throughputMbps := map[];
    }

    method RecordWaitClosed(proto: string, n: int, duration: real)
      modifies this
      ensures throughputMbps == if duration <= 0.0 then old(throughputMbps)
                                else old(throughputMbps)[proto := PlausibleRate(n, duration)]
    {
      if duration <= 0.0 {
        return;
      }
      var mbps := (n * 8) as real / duration / 1000000.0;
      if duration < MIN_DURATION || mbps > MAX_PLAUSIBLE_MBPS {
        throughputMbps := throughputMbps[proto := None];
        return;
      }
      throughputMbps := throughputMbps[proto := Some(mbps)];
    }

    // The counter's word where it has one, the duration of the send otherwise.
    method ServeThroughput(proto: string, n: int, e: Env, sent: Sent)
      requires Lawful(e) && (sent.Sent? ==> e.t0 + sent.duration <= e.check(0))
      modifies this
      ensures n <= 0 || sent.Aborted? ==> throughputMbps == old(throughputMbps)
      ensures n > 0 && sent.Sent? && !Counted(e) ==>
                throughputMbps
                  == Recorded(old(throughputMbps), proto, Capped(n), false, Measurement(false, None), sent.duration)
      ensures n > 0 && sent.Sent? && Counted(e) ==> exists m, polls ::
                && IsOutcome(e, m, polls)
                && throughputMbps == Recorded(old(throughputMbps), proto, Capped(n), true, m, sent.duration)
    {
      if n <= 0 || sent.Aborted? {
        return;
      }
      if Counted(e) {
        var m, _ := MeasureViaCounter(e);
        if m.measured {
          throughputMbps := throughputMbps[proto := m.mbps];
          return;
        }
      }
      RecordWaitClosed(proto, if n > MAX_BYTES then MAX_BYTES else n, sent.duration);
    }
  }

  lemma QuotientAtMost(a: real, b: real, c: real)
    requires b > 0.0 && a <= c * b
    ensures a / b <= c
  {
    assert a / b * b == a;
  }

  lemma SendRateBound(n: int, duration: real)
    requires 0 < n <= MAX_BYTES && duration >= QUIESCE_MAX
    ensures 0.0 < SendRate(n, duration) <= 5.0
  {
    var bits := (n * 8) as real;
    var perSecond := bits / duration;
    assert perSecond * duration == bits;
    PositiveQuotient(bits, duration);
    QuotientAtMost(bits, duration, 5000000.0);
  }

  /** A send of thirty seconds or more is recorded with a rate, a low one, if and only if
      there was no counter to read beforehand; with one, the polls come too late and the
      entry is None. */
  lemma SlowSendGetsRateExactly(table: map<string, Option<real>>, proto: string, n: int, e: Env, m: Measurement,
                                polls: nat,
                                duration: real)
    requires Lawful(e) && IsOutcome(e, m, polls) && n > 0
    requires QUIESCE_MAX <= duration <= e.check(0) - e.t0
    ensures var after := Recorded(table, proto, Capped(n), Counted(e), m, duration);
      && proto in after
      && (after[proto].Some? <==> !Counted(e))
      && (!Counted(e) ==> 0.0 < after[proto].value <= 5.0)
  {
    LateStartMeasuresNothing(e, m, polls);
    SendRateBound(Capped(n), duration);
  }
}
