/** Which measurements each score rests on, and what it comes to where that is plain. */
module ScoreInputs {
  import opened Models
  import opened Lists
  import opened Scoring

  // ---- the axes ----

  function Of(category: string): TestResult -> bool
  {
    (r: TestResult) => r.category == category
  }

  // Neither refused by the server nor inconclusive.
  function Telling(category: string): TestResult -> bool
  {
    (r: TestResult) => r.category == category && r.verdict != SERVER_REFUSED && r.verdict != INCONCLUSIVE
  }

  function Good(category: string): TestResult -> bool
  {
    (r: TestResult) => r.category == category && r.verdict == OK
  }

  // The good among the telling ones; all of them where none tells, and nothing where there is none.
  function Portion(solo: seq<TestResult>, category: string): real
  {
    if Count(solo, Of(category)) == 0 then 0.0
    else if Count(solo, Telling(category)) == 0 then 1.0
    else Count(solo, Good(category)) as real / Count(solo, Telling(category)) as real
  }

  lemma CountAgrees<T>(s: seq<T>, p: T -> bool, q: T -> bool)
    requires forall i :: 0 <= i < |s| ==> p(s[i]) == q(s[i])
    ensures Count(s, p) == Count(s, q)
  {
    CountLeq(s, p, q);
    CountLeq(s, q, p);
  }

  lemma ShareIsPortion(solo: seq<TestResult>, category: string)
    ensures OkShare(solo, category) == Portion(solo, category)
  {
    CountAgrees(solo, In(category), Of(category));
    CountAgrees(solo, RelevantIn(category), Telling(category));
    CountAgrees(solo, OkIn(category), Good(category));
    var all, relevant, ok := OkShareByCounts(solo, category);
    if all > 0 && relevant > 0 {
      assert Share(all, relevant, ok) / 100.0 == ok as real / relevant as real;
    }
  }

  /** The uplink is the portion of http, reachability that of tcp, and throttling is what a
      throttling result says. */
  lemma AxesExactly(solo: seq<TestResult>, reports: seq<Report>)
    ensures var a := AxesOf(solo, reports);
      && a.uplink == Portion(solo, "http") && a.tcp == Portion(solo, "tcp") && a.sessions == |reports|
      && (a.throttled <==>
          exists i :: 0 <= i < |solo| && solo[i].category == "throttling" && solo[i].verdict == THROTTLED)
  {
    ShareIsPortion(solo, "http");
    ShareIsPortion(solo, "tcp");
    CountBound(solo, IsThrottled);
    assert forall i :: 0 <= i < |solo| ==>
      (IsThrottled(solo[i]) <==> solo[i].category == "throttling" && solo[i].verdict == THROTTLED);
  }

  // The levels of a round trip, in milliseconds.
  lemma LevelOf(rtt: real)
    ensures rtt < 10.0 ==> Bucket(rtt) == 100.0
    ensures 10.0 <= rtt < 50.0 ==> Bucket(rtt) == 90.0
    ensures 50.0 <= rtt < 100.0 ==> Bucket(rtt) == 75.0
    ensures 100.0 <= rtt < 200.0 ==> Bucket(rtt) == 50.0
    ensures 200.0 <= rtt < 500.0 ==> Bucket(rtt) == 25.0
    ensures 500.0 <= rtt ==> Bucket(rtt) == 0.0
  {
  }

  /** Latency is the level of the middle round trip of the tcp results: the one with at most half
      of them below it and more than half at or below it.  Without any it is a half. */
  lemma LatencyIsMiddle(solo: seq<TestResult>, x: real)
    ensures var n := Count(solo, Timed((y: real) => true));
      && (n == 0 ==> Latency(solo) == 0.5)
      && (n > 0 && Count(solo, Timed(Below(x))) <= n / 2 < Count(solo, Timed(AtMost(x))) ==>
            Latency(solo) == Bucket(x) / 100.0)
  {
    var rtts, any := Rtts(solo), (y: real) => true;
    CountRtts(solo, any);
    CountRtts(solo, Below(x));
    CountRtts(solo, AtMost(x));
    AllCounted(rtts, any);
    if rtts != [] {
      MiddleIsUnique(rtts, x);
    }
  }

  lemma MiddleIsUnique(rtts: seq<real>, x: real)
    requires rtts != []
    ensures Count(rtts, Below(x)) <= |rtts| / 2 < Count(rtts, AtMost(x)) ==> Sorted(rtts)[|rtts| / 2] == x
  {
    var sorted, k := Sorted(rtts), |rtts| / 2;
    var y := sorted[k];
    SortedSorts(rtts);
    RankInSorted(sorted, k);
    CountPermuted(sorted, rtts, AtMost(y));
    CountPermuted(sorted, rtts, Below(y));
    if x < y {
      AtMostBelow(rtts, x, y);
    } else if y < x {
      AtMostBelow(rtts, y, x);
    }
  }

  // ---- which results matter ----

  // The same results in the category, in the same order.
  ghost predicate SameIn(one: seq<TestResult>, two: seq<TestResult>, category: string)
  {
    Filter(one, In(category)) == Filter(two, In(category))
  }

  lemma {:induction false} RttsOfTcp(solo: seq<TestResult>)
    ensures Rtts(solo) == Rtts(Filter(solo, In("tcp")))
  {
    if solo != [] {
      var front, last := solo[..|solo| - 1], solo[|solo| - 1];
      var found := Filter(front, In("tcp"));
      RttsOfTcp(front);
      if last.category == "tcp" {
        assert (found + [last])[..|found|] == found && (found + [last])[|found|] == last;
      } else {
        assert found + [] == found;
      }
    }
  }

  lemma {:induction false} ThrottledOfThrottling(solo: seq<TestResult>)
    ensures Count(solo, IsThrottled) == Count(Filter(solo, In("throttling")), IsThrottled)
  {
    if solo != [] {
      var front, last := solo[..|solo| - 1], solo[|solo| - 1];
      var found := Filter(front, In("throttling"));
      ThrottledOfThrottling(front);
      if last.category == "throttling" {
        assert (found + [last])[..|found|] == found && (found + [last])[|found|] == last;
      } else {
        assert found + [] == found;
      }
    }
  }

  lemma AxesSame(one: seq<TestResult>, two: seq<TestResult>, reports: seq<Report>, reports': seq<Report>)
    ensures var a, b := AxesOf(one, reports), AxesOf(two, reports');
      && (SameIn(one, two, "http") ==> a.uplink == b.uplink)
      && (SameIn(one, two, "tcp") ==> a.tcp == b.tcp && a.latency == b.latency)
      && (Rtts(one) == Rtts(two) ==> a.latency == b.latency)
      && (SameIn(one, two, "throttling") ==> a.throttled == b.throttled)
      && (Flatten(reports) == Flatten(reports') ==> a.protocols == b.protocols)
  {
    RttsOfTcp(one);
    RttsOfTcp(two);
    ThrottledOfThrottling(one);
    ThrottledOfThrottling(two);
  }

  lemma PercentSame(x: real, y: real, z: real, x': real, y': real, z': real, u: real, v: real, t: real)
    requires x == x' && y == y' && z == z'
    ensures Percent3(x * u, y * v, z * t) == Percent3(x' * u, y' * v, z' * t)
    ensures Percent(x * u, y * v) == Percent(x' * u, y' * v)
  {
  }

  lemma ExitSame(w: Weights, a: Axes, b: Axes)
    requires a.uplink == b.uplink && a.throttled == b.throttled
    ensures Exit(w, a) == Exit(w, b)
  {
    PercentSame(a.uplink, Censorship(a), 0.0, b.uplink, Censorship(b), 0.0, w.exitUplink, w.exitCensorship, 0.0);
  }

  lemma RelaySame(w: Weights, a: Axes, b: Axes)
    requires a.tcp == b.tcp && a.latency == b.latency
    ensures Relay(w, a) == Relay(w, b)
  {
    PercentSame(a.tcp, a.latency, 0.0, b.tcp, b.latency, 0.0, w.relayTcp, w.relayLatency, 0.0);
  }

  lemma EntrySame(w: Weights, a: Axes, b: Axes)
    requires a.protocols == b.protocols && a.uplink == b.uplink && a.latency == b.latency
    ensures Entry(w, a) == Entry(w, b)
  {
    PercentSame(a.protocols, a.uplink, a.latency, b.protocols, b.uplink, b.latency,
                w.entryProtocol, w.entryUplink, w.entryLatency);
  }

  /** The exit score rests on the http and the throttling results alone, whatever the reports. */
  lemma ExitRestsOn(w: Weights, round: real -> real, one: seq<TestResult>, two: seq<TestResult>,
                    reports: seq<Report>, reports': seq<Report>)
    requires SameIn(one, two, "http") && SameIn(one, two, "throttling")
    ensures ScoresFrom(w, round, AxesOf(one, reports)).exit == ScoresFrom(w, round, AxesOf(two, reports')).exit
  {
    var a, b := AxesOf(one, reports), AxesOf(two, reports');
    AxesSame(one, two, reports, reports');
    ExitSame(w, a, b);
  }

  /** The relay score rests on the tcp results alone. */
  lemma RelayRestsOn(w: Weights, round: real -> real, one: seq<TestResult>, two: seq<TestResult>,
                     reports: seq<Report>, reports': seq<Report>)
    requires SameIn(one, two, "tcp")
    ensures ScoresFrom(w, round, AxesOf(one, reports)).relay == ScoresFrom(w, round, AxesOf(two, reports')).relay
  {
    var a, b := AxesOf(one, reports), AxesOf(two, reports');
    AxesSame(one, two, reports, reports');
    RelaySame(w, a, b);
  }

  /** The entry score rests on the http results, the tcp round trips and the listener verdicts. */
  lemma EntryRestsOn(w: Weights, round: real -> real, one: seq<TestResult>, two: seq<TestResult>,
                     reports: seq<Report>, reports': seq<Report>)
    requires SameIn(one, two, "http") && Rtts(one) == Rtts(two) && Flatten(reports) == Flatten(reports')
    ensures ScoresFrom(w, round, AxesOf(one, reports)).entry == ScoresFrom(w, round, AxesOf(two, reports')).entry
  {
    var a, b := AxesOf(one, reports), AxesOf(two, reports');
    AxesSame(one, two, reports, reports');
    EntrySame(w, a, b);
  }

  // ---- what they come to ----

  ghost predicate AllGood(solo: seq<TestResult>, category: string)
  {
    && (exists i :: 0 <= i < |solo| && solo[i].category == category)
    && forall i :: 0 <= i < |solo| && solo[i].category == category ==> solo[i].verdict == OK
  }

  ghost predicate NoneGood(solo: seq<TestResult>, category: string)
  {
    && (exists i :: 0 <= i < |solo| && Telling(category)(solo[i]))
    && forall i :: 0 <= i < |solo| && solo[i].category == category ==> solo[i].verdict != OK
  }

  lemma SelfQuotient(x: real)
    requires x > 0.0
    ensures x / x == 1.0
  {
  }

  lemma AllGoodPortion(solo: seq<TestResult>, category: string)
    requires AllGood(solo, category)
    ensures Portion(solo, category) == 1.0
  {
    var i :| 0 <= i < |solo| && solo[i].category == category;
    assert Of(category)(solo[i]);
    CountBound(solo, Of(category));
    CountAgrees(solo, Good(category), Of(category));
    CountAgrees(solo, Telling(category), Of(category));
    SelfQuotient(Count(solo, Of(category)) as real);
  }

  lemma NoneGoodPortion(solo: seq<TestResult>, category: string)
    requires NoneGood(solo, category)
    ensures Portion(solo, category) == 0.0
  {
    CountBound(solo, Telling(category));
    CountLeq(solo, Telling(category), Of(category));
    CountAgrees(solo, Good(category), (r: TestResult) => false);
    CountBound(solo, (r: TestResult) => false);
  }

  lemma PortionAtEnds(solo: seq<TestResult>, category: string)
    ensures AllGood(solo, category) ==> Portion(solo, category) == 1.0
    ensures NoneGood(solo, category) ==> Portion(solo, category) == 0.0
  {
    if AllGood(solo, category) {
      AllGoodPortion(solo, category);
    }
    if NoneGood(solo, category) {
      NoneGoodPortion(solo, category);
    }
  }

  lemma RelayOfAxes(w: Weights, round: real -> real, a: Axes)
    requires Rounding(round) && NonNegative(w) && w.relayTcp + w.relayLatency == 1.0
    ensures a.tcp == 1.0 && a.latency == 1.0 ==> ScoresFrom(w, round, a).relay == 100.0
    ensures a.tcp == 0.0 && a.latency == 0.0 ==> ScoresFrom(w, round, a).relay == 0.0
  {
  }

  lemma ExitOfAxes(w: Weights, round: real -> real, a: Axes)
    requires Rounding(round) && NonNegative(w) && w.exitUplink + w.exitCensorship == 1.0
    ensures a.uplink == 1.0 && !a.throttled ==> ScoresFrom(w, round, a).exit == 100.0
    ensures a.uplink == 1.0 && a.throttled ==>
              ScoresFrom(w, round, a).exit == Clamp(round(100.0 - 20.0 * w.exitCensorship))
    ensures a.uplink == 0.0 ==> ScoresFrom(w, round, a).exit == 0.0
  {
  }

  /** With every http result OK the exit score is full without throttling, and loses a fifth of
      the censorship weight with it; with none OK it is zero. */
  lemma ExitAtEnds(w: Weights, round: real -> real, solo: seq<TestResult>, reports: seq<Report>)
    requires Rounding(round) && NonNegative(w) && w.exitUplink + w.exitCensorship == 1.0
    ensures var exit, throttled := ScoresFrom(w, round, AxesOf(solo, reports)).exit, AxesOf(solo, reports).throttled;
      && (AllGood(solo, "http") && !throttled ==> exit == 100.0)
      && (AllGood(solo, "http") && throttled ==> exit == Clamp(round(100.0 - 20.0 * w.exitCensorship)))
      && (NoneGood(solo, "http") ==> exit == 0.0)
  {
    AxesExactly(solo, reports);
    PortionAtEnds(solo, "http");
    ExitOfAxes(w, round, AxesOf(solo, reports));
  }

  /** With every tcp result OK and the middle round trip under ten milliseconds the relay score is
      full; with none OK and the middle one at half a second or more it is zero. */
  lemma RelayAtEnds(w: Weights, round: real -> real, solo: seq<TestResult>, reports: seq<Report>, x: real)
    requires Rounding(round) && NonNegative(w) && w.relayTcp + w.relayLatency == 1.0
    requires var n := Count(solo, Timed((y: real) => true));
      n > 0 && Count(solo, Timed(Below(x))) <= n / 2 < Count(solo, Timed(AtMost(x)))
    ensures var relay := ScoresFrom(w, round, AxesOf(solo, reports)).relay;
      && (AllGood(solo, "tcp") && x < 10.0 ==> relay == 100.0)
      && (NoneGood(solo, "tcp") && x >= 500.0 ==> relay == 0.0)
  {
    AxesExactly(solo, reports);
    PortionAtEnds(solo, "tcp");
    LatencyIsMiddle(solo, x);
    LevelOf(x);
    assert AxesOf(solo, reports).latency == Latency(solo);
    RelayOfAxes(w, round, AxesOf(solo, reports));
  }

  /** Every weight has its axis: with one of them at one and the others at zero, a score is a
      hundred times that axis. */
  lemma WeightsPick(round: real -> real, a: Axes)
    ensures Entry(Weights(1.0, 0.0, 0.0, 0.0, 0.0, 0.0, 0.0), a) == 100.0 * a.protocols
    ensures Entry(Weights(0.0, 1.0, 0.0, 0.0, 0.0, 0.0, 0.0), a) == 100.0 * a.uplink
    ensures Entry(Weights(0.0, 0.0, 1.0, 0.0, 0.0, 0.0, 0.0), a) == 100.0 * a.latency
    ensures Exit(Weights(0.0, 0.0, 0.0, 1.0, 0.0, 0.0, 0.0), a) == 100.0 * a.uplink
    ensures Exit(Weights(0.0, 0.0, 0.0, 0.0, 1.0, 0.0, 0.0), a)
         == if a.throttled then (if a.uplink < 0.2 then 0.0 else 100.0 * a.uplink - 20.0) else 100.0 * a.uplink
    ensures Relay(Weights(0.0, 0.0, 0.0, 0.0, 0.0, 1.0, 0.0), a) == 100.0 * a.tcp
    ensures Relay(Weights(0.0, 0.0, 0.0, 0.0, 0.0, 0.0, 1.0), a) == 100.0 * a.latency
  {
  }

  /** The overall score is the mean of the three, or of exit and relay where no client reported. */
  lemma OverallIsMean(w: Weights, round: real -> real, a: Axes)
    ensures var s := ScoresFrom(w, round, a);
      s.overall == round(if a.sessions == 0 then (s.exit + s.relay) / 2.0 else (s.entry + s.exit + s.relay) / 3.0)
  {
  }
}
