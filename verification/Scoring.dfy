/** Server suitability scores: percentages of OK verdicts, a latency bucket and listener
    reachability, combined by configured weights, and the recommended protocols. */
module Scoring {
  import opened Wrappers
  import opened Models
  import opened Lists

  // Of the evidence only the health score matters, which it may lack.
  datatype Evidence = NoEvidence | Evidence(healthScore: Option<real>)

  datatype TestResult = TestResult(
    test: string, category: string, verdict: Verdict, technique: Option<string>, rttMs: Option<real>,
    evidence: Evidence)

  // The protocol verdicts of one listener session, in file order.
  type Report = seq<(string, Verdict)>

  datatype Weights = Weights(
    entryProtocol: real, entryUplink: real, entryLatency: real,
    exitUplink: real, exitCensorship: real,
    relayTcp: real, relayLatency: real)

  // ---- the axes ----

  predicate IsRelevant(r: TestResult)
  {
    !r.verdict.SERVER_REFUSED? && !r.verdict.INCONCLUSIVE?
  }

  predicate IsOk(r: TestResult)
  {
    r.verdict.OK?
  }

  function In(category: string): TestResult -> bool
  {
    (r: TestResult) => r.category == category
  }

  // Percent of OK among the scoring-relevant results.
  function OkPct(results: seq<TestResult>): real
  {
    if results == [] then 0.0
    else
      var relevant := Filter(results, IsRelevant);
      if relevant == [] then 100.0
      else Count(relevant, IsOk) as real / |relevant| as real * 100.0
  }

  function Insert(x: real, s: seq<real>): (r: seq<real>)
    ensures |r| == |s| + 1
  {
    if s == [] || x <= s[0] then [x] + s else [s[0]] + Insert(x, s[1..])
  }

  function Sorted(s: seq<real>): (r: seq<real>)
    ensures |r| == |s|
  {
    if s == [] then [] else Insert(s[0], Sorted(s[1..]))
  }

  function Bucket(rtt: real): real
  {
    if rtt < 10.0 then 100.0
    else if rtt < 50.0 then 90.0
    else if rtt < 100.0 then 75.0
    else if rtt < 200.0 then 50.0
    else if rtt < 500.0 then 25.0
    else 0.0
  }

  function Rtts(solo: seq<TestResult>): seq<real>
  {
    if solo == [] then []
    else
      var r := solo[|solo| - 1];
      Rtts(solo[..|solo| - 1]) + if r.category == "tcp" && r.rttMs.Some? then [r.rttMs.value] else []
  }

  function LatencyToScore(rtts: seq<real>): real
  {
    if rtts == [] then 50.0 else Bucket(Sorted(rtts)[|rtts| / 2])
  }

  predicate EntryOk(e: (string, Verdict))
  {
    e.1.OK?
  }

  predicate EntryHandshake(e: (string, Verdict))
  {
    e.1.HANDSHAKE_ONLY?
  }

  function Points(entries: seq<(string, Verdict)>): real
  {
    Count(entries, EntryOk) as real + Count(entries, EntryHandshake) as real / 2.0
  }

  // Every entry of every session weighs the same; no entry at all is neutral.
  function Reachability(entries: seq<(string, Verdict)>): real
  {
    if entries == [] then 0.5
    else Points(entries) / |entries| as real
  }

  method ProtocolReachability(reports: seq<Report>) returns (share: real)
    ensures share == Reachability(Flatten(reports))
  {
    if reports == [] {
      return 0.5;
    }
    var totalWeight, totalScore := 0.0, 0.0;
    for i := 0 to |reports|
      invariant totalWeight == |Flatten(reports[..i])| as real
      invariant totalScore == Points(Flatten(reports[..i]))
    {
      ghost var before := Flatten(reports[..i]);
      assert before + reports[i][..0] == before;
      for j := 0 to |reports[i]|
        invariant totalWeight == |before + reports[i][..j]| as real
        invariant totalScore == Points(before + reports[i][..j])
      {
        var verdict := reports[i][j].1;
        var score := if verdict.OK? then 1.0 else if verdict.HANDSHAKE_ONLY? then 0.5 else 0.0;
        ghost var seen := before + reports[i][..j + 1];
        assert seen[..|seen| - 1] == before + reports[i][..j] && seen[|seen| - 1] == reports[i][j];
        totalScore := totalScore + score;
        totalWeight := totalWeight + 1.0;
      }
      assert before + reports[i][..|reports[i]|] == before + reports[i];
      assert reports[..i + 1][..i] == reports[..i];
    }
    assert reports[..|reports|] == reports;
    share := if totalWeight == 0.0 then 0.5 else totalScore / totalWeight;
  }

  // ---- the median does not depend on the order ----

  predicate IsSorted(s: seq<real>)
  {
    forall i, j :: 0 <= i < j < |s| ==> s[i] <= s[j]
  }

  function Below(x: real): real -> bool
  {
    (y: real) => y < x
  }

  function AtMost(x: real): real -> bool
  {
    (y: real) => y <= x
  }

  lemma SortedCons(x: real, s: seq<real>)
    requires IsSorted(s) && forall y :: y in s ==> x <= y
    ensures IsSorted([x] + s)
  {
    var t := [x] + s;
    forall i, j | 0 <= i < j < |t|
      ensures t[i] <= t[j]
    {
      assert t[j] in s;
    }
  }

  lemma {:induction false} InsertHolds(x: real, s: seq<real>)
    ensures multiset(Insert(x, s)) == multiset(s) + multiset{x}
  {
    if s != [] && s[0] < x {
      InsertHolds(x, s[1..]);
      assert s == [s[0]] + s[1..];
    }
  }

  lemma {:induction false} InsertSorts(x: real, s: seq<real>)
    requires IsSorted(s)
    ensures IsSorted(Insert(x, s))
  {
    if s != [] {
      if x <= s[0] {
        SortedCons(x, s);
      } else {
        var rest := Insert(x, s[1..]);
        InsertSorts(x, s[1..]);
        InsertHolds(x, s[1..]);
        forall y | y in rest
          ensures s[0] <= y
        {
          assert y in multiset(rest);
        }
        SortedCons(s[0], rest);
      }
    }
  }

  lemma {:induction false} SortedSorts(s: seq<real>)
    ensures IsSorted(Sorted(s)) && Permuted(Sorted(s), s)
  {
    if s != [] {
      SortedSorts(s[1..]);
      InsertSorts(s[0], Sorted(s[1..]));
      InsertHolds(s[0], Sorted(s[1..]));
      assert s == [s[0]] + s[1..];
    }
  }

  lemma RankInSorted(s: seq<real>, k: nat)
    requires IsSorted(s) && k < |s|
    ensures Count(s, Below(s[k])) <= k < Count(s, AtMost(s[k]))
  {
    FewBelow(s, k);
    ManyAtMost(s, k);
  }

  lemma FewBelow(s: seq<real>, k: nat)
    requires IsSorted(s) && k < |s|
    ensures Count(s, Below(s[k])) <= k
  {
    var low, high, p := s[..k], s[k..], Below(s[k]);
    assert s == low + high;
    CountConcat(low, high, p);
    CountBound(low, p);
    forall i | 0 <= i < |high|
      ensures !p(high[i])
    {
      assert high[i] == s[k + i];
    }
    CountBound(high, p);
  }

  lemma ManyAtMost(s: seq<real>, k: nat)
    requires IsSorted(s) && k < |s|
    ensures k < Count(s, AtMost(s[k]))
  {
    var low, high := s[..k + 1], s[k + 1..];
    assert s == low + high;
    CountConcat(low, high, AtMost(s[k]));
    AllCounted(low, AtMost(s[k]));
  }

  lemma {:induction false} AllCounted<T>(s: seq<T>, p: T -> bool)
    requires forall i :: 0 <= i < |s| ==> p(s[i])
    ensures Count(s, p) == |s|
  {
    if s != [] {
      AllCounted(s[..|s| - 1], p);
    }
  }

  lemma AtMostBelow(s: seq<real>, x: real, y: real)
    requires x < y
    ensures Count(s, AtMost(x)) <= Count(s, Below(y))
  {
    CountLeq(s, AtMost(x), Below(y));
  }

  lemma MedianPermuted(a: seq<real>, b: seq<real>)
    requires a != []
    requires forall x :: Count(a, Below(x)) == Count(b, Below(x)) && Count(a, AtMost(x)) == Count(b, AtMost(x))
    requires |a| == |b|
    ensures Sorted(a)[|a| / 2] == Sorted(b)[|b| / 2]
  {
    SortedSorts(a);
    SortedSorts(b);
    var k := |a| / 2;
    var x, y := Sorted(a)[k], Sorted(b)[k];
    RankInSorted(Sorted(a), k);
    RankInSorted(Sorted(b), k);
    CountPermuted(Sorted(a), a, AtMost(x));
    CountPermuted(Sorted(a), a, Below(x));
    CountPermuted(Sorted(b), b, AtMost(y));
    CountPermuted(Sorted(b), b, Below(y));
    if x < y {
      AtMostBelow(a, x, y);
    } else if y < x {
      AtMostBelow(b, y, x);
    }
  }

  // ---- the scores ----

  // What the scores are computed from.
  datatype Axes = Axes(uplink: real, tcp: real, protocols: real, latency: real, throttled: bool, sessions: nat)

  predicate IsThrottled(r: TestResult)
  {
    r.category == "throttling" && r.verdict.THROTTLED?
  }

  function OkShare(solo: seq<TestResult>, category: string): real
  {
    OkPct(Filter(solo, In(category))) / 100.0
  }

  function Latency(solo: seq<TestResult>): real
  {
    if Rtts(solo) != [] then LatencyToScore(Rtts(solo)) / 100.0 else 0.5
  }

  predicate Throttled(solo: seq<TestResult>)
  {
    Count(solo, IsThrottled) > 0
  }

  function AxesOf(solo: seq<TestResult>, reports: seq<Report>): Axes
  {
    Axes(OkShare(solo, "http"), OkShare(solo, "tcp"), Reachability(Flatten(reports)), Latency(solo),
         Throttled(solo), |reports|)
  }

  function Clamp(x: real): real
  {
    if x < 0.0 then 0.0 else if x > 100.0 then 100.0 else x
  }

  function Percent(x: real, y: real): real
  {
    (x + y) * 100.0
  }

  function Percent3(x: real, y: real, z: real): real
  {
    (x + y + z) * 100.0
  }

  function Entry(w: Weights, a: Axes): real
  {
    Percent3(a.protocols * w.entryProtocol, a.uplink * w.entryUplink, a.latency * w.entryLatency)
  }

  const PENALTY := 0.2

  function Censorship(a: Axes): real
  {
    if !a.throttled then a.uplink else if a.uplink - PENALTY < 0.0 then 0.0 else a.uplink - PENALTY
  }

  function Exit(w: Weights, a: Axes): real
  {
    Percent(a.uplink * w.exitUplink, Censorship(a) * w.exitCensorship)
  }

  function Relay(w: Weights, a: Axes): real
  {
    Percent(a.tcp * w.relayTcp, a.latency * w.relayLatency)
  }

  datatype Quad = Quad(entry: real, exit: real, relay: real, overall: real)

  // The unrounded mean leaves entry out when no session was reported.
  function Overall(sessions: nat, entry: real, exit: real, relay: real): real
  {
    if sessions > 0 then (entry + exit + relay) / 3.0 else (exit + relay) / 2.0
  }

  function ScoresFrom(w: Weights, round: real -> real, a: Axes): Quad
  {
    var entry, exit, relay := Clamp(round(Entry(w, a))), Clamp(round(Exit(w, a))), Clamp(round(Relay(w, a)));
    Quad(entry, exit, relay, round(Overall(a.sessions, entry, exit, relay)))
  }

  // Rounding to one decimal, as far as the scores depend on it.
  ghost predicate Rounding(round: real -> real)
  {
    round(0.0) == 0.0 && round(100.0) == 100.0 && forall x, y :: x <= y ==> round(x) <= round(y)
  }

  predicate NonNegative(w: Weights)
  {
    && w.entryProtocol >= 0.0 && w.entryUplink >= 0.0 && w.entryLatency >= 0.0
    && w.exitUplink >= 0.0 && w.exitCensorship >= 0.0
    && w.relayTcp >= 0.0 && w.relayLatency >= 0.0
  }

  predicate Unit(x: real)
  {
    0.0 <= x <= 1.0
  }

  predicate UnitAxes(a: Axes)
  {
    Unit(a.uplink) && Unit(a.tcp) && Unit(a.protocols) && Unit(a.latency)
  }

  // ---- range ----

  lemma RatioRange(part: real, whole: real)
    requires 0.0 <= part <= whole && 0.0 < whole
    ensures Unit(part / whole)
  {
    var q := part / whole;
    assert q * whole == part;
  }

  lemma CountDisjoint(entries: seq<(string, Verdict)>)
    ensures Count(entries, EntryOk) + Count(entries, EntryHandshake) <= |entries|
  {
    if entries != [] {
      CountDisjoint(entries[..|entries| - 1]);
    }
  }

  lemma OkPctRange(results: seq<TestResult>)
    ensures 0.0 <= OkPct(results) <= 100.0
  {
    var relevant := Filter(results, IsRelevant);
    if relevant != [] {
      CountBound(relevant, IsOk);
      RatioRange(Count(relevant, IsOk) as real, |relevant| as real);
    }
  }

  lemma ReachabilityRange(entries: seq<(string, Verdict)>)
    ensures Unit(Reachability(entries))
  {
    if entries != [] {
      CountDisjoint(entries);
      RatioRange(Points(entries), |entries| as real);
    }
  }

  lemma AxesRange(solo: seq<TestResult>, reports: seq<Report>)
    ensures UnitAxes(AxesOf(solo, reports))
  {
    OkPctRange(Filter(solo, In("http")));
    OkPctRange(Filter(solo, In("tcp")));
    ReachabilityRange(Flatten(reports));
  }

  /** All four scores are percentages. */
  lemma ScoresInRange(w: Weights, round: real -> real, solo: seq<TestResult>, reports: seq<Report>)
    requires Rounding(round)
    ensures var s := ScoresFrom(w, round, AxesOf(solo, reports));
            0.0 <= s.entry <= 100.0 && 0.0 <= s.exit <= 100.0 && 0.0 <= s.relay <= 100.0 && 0.0 <= s.overall <= 100.0
  {
    var a := AxesOf(solo, reports);
    var s := ScoresFrom(w, round, a);
    var mean := Overall(a.sessions, s.entry, s.exit, s.relay);
    assert 0.0 <= mean <= 100.0;
    assert round(0.0) <= round(mean) <= round(100.0);
  }

  lemma Scale(x: real, y: real, w: real)
    requires x <= y && 0.0 <= w
    ensures x * w <= y * w
  {
  }

  lemma RoundedInRange(round: real -> real, x: real)
    requires Rounding(round) && 0.0 <= x <= 100.0
    ensures Clamp(round(x)) == round(x)
  {
    assert round(0.0) <= round(x) <= round(100.0);
  }

  lemma PercentRange(x: real, y: real, z: real, u: real, v: real, t: real)
    requires 0.0 <= x <= u && 0.0 <= y <= v && 0.0 <= z <= t && u + v + t <= 1.0
    ensures 0.0 <= Percent3(x, y, z) <= 100.0
  {
  }

  lemma Weigh(x: real, w: real) returns (p: real)
    requires Unit(x) && 0.0 <= w
    ensures p == x * w && 0.0 <= p <= w
  {
    p := x * w;
    WithinUnit(x, w);
  }

  lemma WeightedRange(x: real, y: real, z: real, u: real, v: real, t: real)
    requires Unit(x) && Unit(y) && Unit(z) && 0.0 <= u && 0.0 <= v && 0.0 <= t && u + v + t <= 1.0
    ensures 0.0 <= Percent3(x * u, y * v, z * t) <= 100.0
  {
    var p := Weigh(x, u);
    var q := Weigh(y, v);
    var r := Weigh(z, t);
    PercentRange(p, q, r, u, v, t);
  }

  lemma RawRange(w: Weights, a: Axes)
    requires NonNegative(w) && UnitAxes(a)
    requires w.entryProtocol + w.entryUplink + w.entryLatency <= 1.0
    requires w.exitUplink + w.exitCensorship <= 1.0 && w.relayTcp + w.relayLatency <= 1.0
    ensures 0.0 <= Entry(w, a) <= 100.0 && 0.0 <= Exit(w, a) <= 100.0 && 0.0 <= Relay(w, a) <= 100.0
  {
    WeightedRange(a.protocols, a.uplink, a.latency, w.entryProtocol, w.entryUplink, w.entryLatency);
    WeightedPairRange(a.uplink, Censorship(a), w.exitUplink, w.exitCensorship);
    WeightedPairRange(a.tcp, a.latency, w.relayTcp, w.relayLatency);
  }

  lemma WeightedPairRange(x: real, y: real, u: real, v: real)
    requires Unit(x) && Unit(y) && 0.0 <= u && 0.0 <= v && u + v <= 1.0
    ensures 0.0 <= Percent(x * u, y * v) <= 100.0
  {
    var p := Weigh(x, u);
    var q := Weigh(y, v);
    PercentRange(p, q, 0.0, u, v, 0.0);
  }

  /** With weights that add up to at most one, the clamps never act. */
  lemma ClampsNeverAct(w: Weights, round: real -> real, solo: seq<TestResult>, reports: seq<Report>)
    requires Rounding(round) && NonNegative(w)
    requires w.entryProtocol + w.entryUplink + w.entryLatency <= 1.0
    requires w.exitUplink + w.exitCensorship <= 1.0 && w.relayTcp + w.relayLatency <= 1.0
    ensures var a, s := AxesOf(solo, reports), ScoresFrom(w, round, AxesOf(solo, reports));
            s.entry == round(Entry(w, a)) && s.exit == round(Exit(w, a)) && s.relay == round(Relay(w, a))
  {
    var a := AxesOf(solo, reports);
    AxesRange(solo, reports);
    RawRange(w, a);
    RoundedInRange(round, Entry(w, a));
    RoundedInRange(round, Exit(w, a));
    RoundedInRange(round, Relay(w, a));
  }

  lemma WithinUnit(x: real, w: real)
    requires Unit(x) && 0.0 <= w
    ensures 0.0 <= x * w <= w
  {
    Scale(0.0, x, w);
    Scale(x, 1.0, w);
  }

  // ---- no score falls when the axes rise ----

  predicate Rises(a: Axes, b: Axes)
  {
    && a.uplink <= b.uplink && a.tcp <= b.tcp && a.protocols <= b.protocols && a.latency <= b.latency
    && (b.throttled ==> a.throttled) && a.sessions == b.sessions
  }

  predicate NoLower(s: Quad, t: Quad)
  {
    s.entry <= t.entry && s.exit <= t.exit && s.relay <= t.relay && s.overall <= t.overall
  }

  lemma PercentRises(x: real, y: real, z: real, x': real, y': real, z': real)
    requires x <= x' && y <= y' && z <= z'
    ensures Percent3(x, y, z) <= Percent3(x', y', z') && Percent(x, y) <= Percent(x', y')
  {
  }

  lemma WeightedRises(x: real, y: real, z: real, x': real, y': real, z': real, u: real, v: real, t: real)
    requires x <= x' && y <= y' && z <= z' && 0.0 <= u && 0.0 <= v && 0.0 <= t
    ensures Percent3(x * u, y * v, z * t) <= Percent3(x' * u, y' * v, z' * t)
    ensures Percent(x * u, y * v) <= Percent(x' * u, y' * v)
  {
    Scale(x, x', u);
    Scale(y, y', v);
    Scale(z, z', t);
    PercentRises(x * u, y * v, z * t, x' * u, y' * v, z' * t);
  }

  lemma EntryRises(w: Weights, a: Axes, b: Axes)
    requires NonNegative(w) && Rises(a, b)
    ensures Entry(w, a) <= Entry(w, b)
  {
    WeightedRises(a.protocols, a.uplink, a.latency, b.protocols, b.uplink, b.latency,
                  w.entryProtocol, w.entryUplink, w.entryLatency);
  }

  lemma CensorshipRises(a: Axes, b: Axes)
    requires Rises(a, b) && 0.0 <= a.uplink
    ensures Censorship(a) <= Censorship(b)
  {
  }

  lemma ExitRises(w: Weights, a: Axes, b: Axes)
    requires NonNegative(w) && Rises(a, b) && 0.0 <= a.uplink
    ensures Exit(w, a) <= Exit(w, b)
  {
    CensorshipRises(a, b);
    WeightedRises(a.uplink, Censorship(a), 0.0, b.uplink, Censorship(b), 0.0, w.exitUplink, w.exitCensorship, 0.0);
  }

  lemma RelayRises(w: Weights, a: Axes, b: Axes)
    requires NonNegative(w) && Rises(a, b)
    ensures Relay(w, a) <= Relay(w, b)
  {
    WeightedRises(a.tcp, a.latency, 0.0, b.tcp, b.latency, 0.0, w.relayTcp, w.relayLatency, 0.0);
  }

  lemma RoundedRises(round: real -> real, x: real, y: real)
    requires Rounding(round) && x <= y
    ensures round(x) <= round(y) && Clamp(round(x)) <= Clamp(round(y))
  {
  }

  lemma ScoresRise(w: Weights, round: real -> real, a: Axes, b: Axes)
    requires Rounding(round) && NonNegative(w) && Rises(a, b) && UnitAxes(a)
    ensures NoLower(ScoresFrom(w, round, a), ScoresFrom(w, round, b))
  {
    var s, t := ScoresFrom(w, round, a), ScoresFrom(w, round, b);
    EntryRises(w, a, b);
    ExitRises(w, a, b);
    RelayRises(w, a, b);
    RoundedRises(round, Entry(w, a), Entry(w, b));
    RoundedRises(round, Exit(w, a), Exit(w, b));
    RoundedRises(round, Relay(w, a), Relay(w, b));
    RoundedRises(round, Overall(a.sessions, s.entry, s.exit, s.relay), Overall(b.sessions, t.entry, t.exit, t.relay));
  }

  // ---- the axes by counts ----

  function RelevantIn(category: string): TestResult -> bool
  {
    (r: TestResult) => r.category == category && IsRelevant(r)
  }

  function OkIn(category: string): TestResult -> bool
  {
    (r: TestResult) => r.category == category && IsRelevant(r) && IsOk(r)
  }

  function Share(all: nat, relevant: nat, ok: nat): real
  {
    if all == 0 then 0.0 else if relevant == 0 then 100.0 else ok as real / relevant as real * 100.0
  }

  lemma OkPctByCounts(solo: seq<TestResult>, category: string)
    ensures OkPct(Filter(solo, In(category)))
         == Share(Count(solo, In(category)), Count(solo, RelevantIn(category)), Count(solo, OkIn(category)))
    ensures Count(solo, OkIn(category)) <= Count(solo, RelevantIn(category)) <= Count(solo, In(category))
  {
    var found := Filter(solo, In(category));
    FilterLength(solo, In(category));
    FilterLength(found, IsRelevant);
    CountFilter(solo, In(category), IsRelevant, RelevantIn(category));
    CountFilter(found, IsRelevant, IsOk, RelevantAndOk);
    CountFilter(solo, In(category), RelevantAndOk, OkIn(category));
    CountLeq(solo, OkIn(category), RelevantIn(category));
    CountLeq(solo, RelevantIn(category), In(category));
  }

  predicate RelevantAndOk(r: TestResult)
  {
    IsRelevant(r) && IsOk(r)
  }

  // Timed TCP results whose time passes.
  function Timed(p: real -> bool): TestResult -> bool
  {
    (r: TestResult) => r.category == "tcp" && r.rttMs.Some? && p(r.rttMs.value)
  }

  lemma {:induction false} CountRtts(solo: seq<TestResult>, p: real -> bool)
    ensures Count(Rtts(solo), p) == Count(solo, Timed(p))
  {
    if solo != [] {
      var last := solo[|solo| - 1];
      CountRtts(solo[..|solo| - 1], p);
      CountConcat(Rtts(solo[..|solo| - 1]),
                  if last.category == "tcp" && last.rttMs.Some? then [last.rttMs.value] else [], p);
    }
  }

  // ---- order does not matter ----

  lemma LatencyPermuted(one: seq<TestResult>, two: seq<TestResult>)
    requires Permuted(one, two)
    ensures Latency(one) == Latency(two)
  {
    var a, b := Rtts(one), Rtts(two);
    var any := (x: real) => true;
    AllCounted(a, any);
    AllCounted(b, any);
    CountRtts(one, any);
    CountRtts(two, any);
    CountPermuted(one, two, Timed(any));
    if a != [] {
      forall x: real
        ensures Count(a, Below(x)) == Count(b, Below(x)) && Count(a, AtMost(x)) == Count(b, AtMost(x))
      {
        CountRtts(one, Below(x));
        CountRtts(two, Below(x));
        CountPermuted(one, two, Timed(Below(x)));
        CountRtts(one, AtMost(x));
        CountRtts(two, AtMost(x));
        CountPermuted(one, two, Timed(AtMost(x)));
      }
      MedianPermuted(a, b);
    }
  }

  lemma OkPctPermuted(one: seq<TestResult>, two: seq<TestResult>, category: string)
    requires Permuted(one, two)
    ensures OkShare(one, category) == OkShare(two, category)
  {
    OkPctByCounts(one, category);
    OkPctByCounts(two, category);
    CountPermuted(one, two, In(category));
    CountPermuted(one, two, RelevantIn(category));
    CountPermuted(one, two, OkIn(category));
  }

  lemma ReachabilityPermuted(one: seq<Report>, two: seq<Report>)
    requires Permuted(one, two)
    ensures Reachability(Flatten(one)) == Reachability(Flatten(two)) && |one| == |two|
  {
    FlattenPermuted(one, two);
    CountPermuted(one, two, (r: Report) => true);
    CountPermuted(Flatten(one), Flatten(two), EntryOk);
    CountPermuted(Flatten(one), Flatten(two), EntryHandshake);
  }

  /** The order of the results and of the reports does not change any score. */
  lemma ScoresPermuted(w: Weights, round: real -> real, solo: seq<TestResult>, solo': seq<TestResult>,
                       reports: seq<Report>, reports': seq<Report>)
    requires Permuted(solo, solo') && Permuted(reports, reports')
    ensures ScoresFrom(w, round, AxesOf(solo, reports)) == ScoresFrom(w, round, AxesOf(solo', reports'))
  {
    OkPctPermuted(solo, solo', "http");
    OkPctPermuted(solo, solo', "tcp");
    LatencyPermuted(solo, solo');
    ReachabilityPermuted(reports, reports');
    ThrottledPermuted(solo, solo');
  }

  lemma ThrottledPermuted(one: seq<TestResult>, two: seq<TestResult>)
    requires Permuted(one, two)
    ensures Throttled(one) == Throttled(two)
  {
    CountPermuted(one, two, IsThrottled);
  }

  // ---- a verdict that becomes OK ----

  // The same measurement, found OK instead.
  predicate TurnsOk(r: TestResult, r': TestResult)
  {
    r'.category == r.category && r'.rttMs == r.rttMs && r'.verdict.OK?
  }

  lemma ShareRises(all: nat, relevant: nat, ok: nat, more: nat, moreOk: nat)
    requires ok <= relevant <= all && more <= moreOk <= 1 && ok + moreOk <= relevant + more <= all
    ensures Share(all, relevant, ok) <= Share(all, relevant + more, ok + moreOk)
  {
    if relevant == 0 {
      assert more == 1 ==> moreOk == 1;
    } else {
      var n, k, a, b := relevant as real, ok as real, more as real, moreOk as real;
      var q := k / n;
      RatioRange(k, n);
      assert q * n == k;
      var t := (k + b) / (n + a);
      assert t * (n + a) == k + b;
      assert q * (n + a) <= k + b by {
        Scale(q, 1.0, a);
      }
      if t < q {
        Scale(t, q, n + a);
      }
    }
  }

  // What a result that turns OK adds to the relevant and the OK results of a category.
  lemma CountsAfter(solo: seq<TestResult>, i: nat, r': TestResult, category: string) returns (more: nat, moreOk: nat)
    requires i < |solo| && TurnsOk(solo[i], r')
    ensures more <= moreOk <= 1
    ensures Count(solo[i := r'], In(category)) == Count(solo, In(category))
    ensures Count(solo[i := r'], RelevantIn(category)) == Count(solo, RelevantIn(category)) + more
    ensures Count(solo[i := r'], OkIn(category)) == Count(solo, OkIn(category)) + moreOk
  {
    CountUpdate(solo, i, r', In(category));
    CountUpdate(solo, i, r', RelevantIn(category));
    CountUpdate(solo, i, r', OkIn(category));
    more := Count(solo[i := r'], RelevantIn(category)) - Count(solo, RelevantIn(category));
    moreOk := Count(solo[i := r'], OkIn(category)) - Count(solo, OkIn(category));
  }

  lemma OkShareByCounts(solo: seq<TestResult>, category: string) returns (all: nat, relevant: nat, ok: nat)
    ensures all == Count(solo, In(category)) && relevant == Count(solo, RelevantIn(category))
    ensures ok == Count(solo, OkIn(category))
    ensures ok <= relevant <= all && OkShare(solo, category) == Share(all, relevant, ok) / 100.0
  {
    all, relevant, ok := Count(solo, In(category)), Count(solo, RelevantIn(category)), Count(solo, OkIn(category));
    OkPctByCounts(solo, category);
  }

  lemma OkPctRises(solo: seq<TestResult>, i: nat, r': TestResult, category: string)
    requires i < |solo| && TurnsOk(solo[i], r')
    ensures OkShare(solo, category) <= OkShare(solo[i := r'], category)
  {
    var more, moreOk := CountsAfter(solo, i, r', category);
    var all, relevant, ok := OkShareByCounts(solo, category);
    var all', relevant', ok' := OkShareByCounts(solo[i := r'], category);
    ShareRises(all, relevant, ok, more, moreOk);
  }

  lemma {:induction false} RttsSame(one: seq<TestResult>, two: seq<TestResult>)
    requires |one| == |two|
    requires forall i :: 0 <= i < |one| ==> one[i].category == two[i].category && one[i].rttMs == two[i].rttMs
    ensures Rtts(one) == Rtts(two)
  {
    if one != [] {
      RttsSame(one[..|one| - 1], two[..|two| - 1]);
    }
  }

  lemma ThrottledFalls(solo: seq<TestResult>, i: nat, r': TestResult)
    requires i < |solo| && TurnsOk(solo[i], r')
    ensures Throttled(solo[i := r']) ==> Throttled(solo)
  {
    CountUpdate(solo, i, r', IsThrottled);
  }

  /** A solo result of any verdict that becomes OK never lowers a score. */
  lemma SoloOkNeverLowers(w: Weights, round: real -> real, solo: seq<TestResult>, i: nat, r': TestResult,
                          reports: seq<Report>)
    requires Rounding(round) && NonNegative(w) && i < |solo| && TurnsOk(solo[i], r')
    ensures NoLower(ScoresFrom(w, round, AxesOf(solo, reports)), ScoresFrom(w, round, AxesOf(solo[i := r'], reports)))
  {
    OkPctRises(solo, i, r', "http");
    OkPctRises(solo, i, r', "tcp");
    RttsSame(solo, solo[i := r']);
    ThrottledFalls(solo, i, r');
    AxesRange(solo, reports);
    ScoresRise(w, round, AxesOf(solo, reports), AxesOf(solo[i := r'], reports));
  }

  lemma QuotientRises(x: real, y: real, n: real)
    requires x <= y && 0.0 < n
    ensures x / n <= y / n
  {
  }

  lemma ReachabilityRises(before: seq<(string, Verdict)>, e: (string, Verdict), e': (string, Verdict),
                          after: seq<(string, Verdict)>)
    requires e'.1.OK?
    ensures Reachability(before + [e] + after) <= Reachability(before + [e'] + after)
  {
    var old_, new_ := before + [e] + after, before + [e'] + after;
    assert new_ == old_[|before| := e'];
    CountUpdate(old_, |before|, e', EntryOk);
    CountUpdate(old_, |before|, e', EntryHandshake);
    QuotientRises(Points(old_), Points(new_), |old_| as real);
  }

  /** A listener verdict that becomes OK never lowers a score. */
  lemma ListenerOkNeverLowers(w: Weights, round: real -> real, solo: seq<TestResult>, reports: seq<Report>, j: nat,
                              k: nat)
    requires Rounding(round) && NonNegative(w) && j < |reports| && k < |reports[j]|
    ensures var better := reports[j := reports[j][k := (reports[j][k].0, OK)]];
            NoLower(ScoresFrom(w, round, AxesOf(solo, reports)), ScoresFrom(w, round, AxesOf(solo, better)))
  {
    var report := reports[j];
    var e, e' := report[k], (report[k].0, OK);
    var better := reports[j := report[k := e']];
    SplitFlatten(reports, j, report[..k], e, report[k + 1..]);
    assert report[k := e'] == report[..k] + [e'] + report[k + 1..];
    SplitFlatten(better, j, report[..k], e', report[k + 1..]);
    assert better[..j] == reports[..j] && better[j + 1..] == reports[j + 1..];
    ReachabilityRises(Flatten(reports[..j]) + report[..k], e, e', report[k + 1..] + Flatten(reports[j + 1..]));
    AxesRange(solo, reports);
    ScoresRise(w, round, AxesOf(solo, reports), AxesOf(solo, better));
  }

  lemma SplitFlatten(reports: seq<Report>, j: nat, before: Report, e: (string, Verdict), after: Report)
    requires j < |reports| && reports[j] == before + [e] + after
    ensures Flatten(reports) == Flatten(reports[..j]) + before + [e] + (after + Flatten(reports[j + 1..]))
  {
    assert reports == reports[..j] + ([reports[j]] + reports[j + 1..]);
    FlattenConcat(reports[..j], [reports[j]] + reports[j + 1..]);
    FlattenConcat([reports[j]], reports[j + 1..]);
    assert Flatten([reports[j]]) == reports[j];
    RegroupFive(Flatten(reports[..j]), before, [e], after, Flatten(reports[j + 1..]));
  }

  lemma RegroupFive<T>(a: seq<T>, b: seq<T>, c: seq<T>, d: seq<T>, e: seq<T>)
    ensures a + (b + c + d + e) == a + b + c + (d + e)
  {
  }

  // ---- shorter round trips ----

  // The same measurements, none of them slower than before.
  predicate NoSlower(one: seq<TestResult>, two: seq<TestResult>)
  {
    && |one| == |two|
    && forall i :: 0 <= i < |one| ==>
         && two[i].category == one[i].category && two[i].verdict == one[i].verdict
         && (two[i].rttMs.Some? <==> one[i].rttMs.Some?)
         && (one[i].rttMs.Some? ==> two[i].rttMs.value <= one[i].rttMs.value)
  }

  lemma {:induction false} RttsFall(one: seq<TestResult>, two: seq<TestResult>)
    requires NoSlower(one, two)
    ensures |Rtts(one)| == |Rtts(two)| && forall i :: 0 <= i < |Rtts(one)| ==> Rtts(two)[i] <= Rtts(one)[i]
  {
    if one != [] {
      RttsFall(one[..|one| - 1], two[..|two| - 1]);
    }
  }

  lemma {:induction false} MoreAtMost(a: seq<real>, b: seq<real>, x: real)
    requires |a| == |b| && forall i :: 0 <= i < |a| ==> b[i] <= a[i]
    ensures Count(a, AtMost(x)) <= Count(b, AtMost(x))
  {
    if a != [] {
      MoreAtMost(a[..|a| - 1], b[..|b| - 1], x);
    }
  }

  lemma MedianFalls(a: seq<real>, b: seq<real>)
    requires a != [] && |a| == |b| && forall i :: 0 <= i < |a| ==> b[i] <= a[i]
    ensures Sorted(b)[|b| / 2] <= Sorted(a)[|a| / 2]
  {
    SortedSorts(a);
    SortedSorts(b);
    var k := |a| / 2;
    var x, y := Sorted(a)[k], Sorted(b)[k];
    if x < y {
      ManyAtMost(Sorted(a), k);
      FewBelow(Sorted(b), k);
      CountPermuted(Sorted(a), a, AtMost(x));
      CountPermuted(Sorted(b), b, Below(y));
      MoreAtMost(a, b, x);
      AtMostBelow(b, x, y);
    }
  }

  lemma LatencyRises(one: seq<TestResult>, two: seq<TestResult>)
    requires NoSlower(one, two)
    ensures Latency(one) <= Latency(two)
  {
    RttsFall(one, two);
    if Rtts(one) != [] {
      MedianFalls(Rtts(one), Rtts(two));
    }
  }

  lemma {:induction false} CountSame(one: seq<TestResult>, two: seq<TestResult>, p: TestResult -> bool)
    requires |one| == |two| && forall i :: 0 <= i < |one| ==> p(one[i]) == p(two[i])
    ensures Count(one, p) == Count(two, p)
  {
    if one != [] {
      CountSame(one[..|one| - 1], two[..|two| - 1], p);
    }
  }

  lemma OkShareSame(one: seq<TestResult>, two: seq<TestResult>, category: string)
    requires NoSlower(one, two)
    ensures OkShare(one, category) == OkShare(two, category)
  {
    OkPctByCounts(one, category);
    OkPctByCounts(two, category);
    CountSame(one, two, In(category));
    CountSame(one, two, RelevantIn(category));
    CountSame(one, two, OkIn(category));
  }

  /** Round trips that get shorter, any number of them, never lower a score. */
  lemma FasterNeverLowers(w: Weights, round: real -> real, solo: seq<TestResult>, solo': seq<TestResult>,
                          reports: seq<Report>)
    requires Rounding(round) && NonNegative(w) && NoSlower(solo, solo')
    ensures NoLower(ScoresFrom(w, round, AxesOf(solo, reports)), ScoresFrom(w, round, AxesOf(solo', reports)))
  {
    OkShareSame(solo, solo', "http");
    OkShareSame(solo, solo', "tcp");
    LatencyRises(solo, solo');
    CountSame(solo, solo', IsThrottled);
    AxesRange(solo, reports);
    ScoresRise(w, round, AxesOf(solo, reports), AxesOf(solo', reports));
  }
}
