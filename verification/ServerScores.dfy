/** Filling in the score card of one server. */
module ServerScores {
  import opened Wrappers
  import opened Lists
  import opened Scoring
  import opened Text
  import opened ScoreInputs
  import Recommendations

  const HEALTH_TEST := "telegram_health_score"

  // ---- the axes that are only shown ----

  // The percentage of a category, or nothing where it has no results.
  function Integrity(solo: seq<TestResult>, category: string): Option<real>
  {
    var results := Filter(solo, In(category));
    if results == [] then None else Some(OkPct(results))
  }

  // The health score of the first health test, if that one has evidence.
  function Health(solo: seq<TestResult>, test: string): Option<real>
  {
    if solo == [] then None
    else if solo[0].test != test then Health(solo[1..], test)
    else
      match solo[0].evidence
      case NoEvidence => None
      case Evidence(score) => Some((if score.Some? then score.value else 0.0) * 100.0)
  }

  /** A shown percentage is the portion of its category, absent where it has no result. */
  lemma IntegrityExactly(solo: seq<TestResult>, category: string)
    ensures Integrity(solo, category)
         == if Count(solo, Of(category)) == 0 then None else Some(100.0 * Portion(solo, category))
  {
    ShareIsPortion(solo, category);
    FilterLength(solo, In(category));
    CountAgrees(solo, In(category), Of(category));
  }

  /** The shown health is that of the first health test: none without evidence, zero where it
      lacks the score. */
  lemma {:induction false} HealthIsFirst(front: seq<TestResult>, r: TestResult, back: seq<TestResult>, test: string)
    requires r.test == test && forall i :: 0 <= i < |front| ==> front[i].test != test
    ensures var health := Health(front + [r] + back, test);
      && (r.evidence.NoEvidence? ==> health == None)
      && (r.evidence == Evidence(None) ==> health == Some(0.0))
      && (forall x :: r.evidence == Evidence(Some(x)) ==> health == Some(100.0 * x))
  {
    var solo := front + [r] + back;
    if front != [] {
      assert solo[0] == front[0] && solo[1..] == front[1..] + [r] + back;
      HealthIsFirst(front[1..], r, back, test);
    } else {
      assert solo[0] == r;
    }
  }

  predicate IsBlocking(r: TestResult)
  {
    (r.verdict.BLOCKED? || r.verdict.THROTTLED?) && r.technique.Some? && r.technique.value != ""
  }

  ghost predicate Detected(solo: seq<TestResult>, technique: string)
  {
    && technique != ""
    && exists i :: (0 <= i < |solo| && solo[i].technique == Some(technique)
                    && (solo[i].verdict.BLOCKED? || solo[i].verdict.THROTTLED?))
  }

  ghost predicate InOrder(names: seq<string>)
  {
    forall i, j :: 0 <= i < j < |names| ==> LexLess(names[i], names[j])
  }

  // Puts a name in its place, unless it is there.
  function Insert(name: string, names: seq<string>): seq<string>
  {
    if names == [] then [name]
    else if name == names[0] then names
    else if LexLess(name, names[0]) then [name] + names
    else [names[0]] + Insert(name, names[1..])
  }

  lemma {:induction false} InsertHolds(name: string, names: seq<string>)
    ensures forall x :: x in Insert(name, names) <==> x == name || x in names
  {
    if names != [] && name != names[0] && !LexLess(name, names[0]) {
      InsertHolds(name, names[1..]);
      assert names == [names[0]] + names[1..];
    }
  }

  lemma AscendingCons(name: string, names: seq<string>)
    requires InOrder(names) && forall x :: x in names ==> LexLess(name, x)
    ensures InOrder([name] + names)
  {
    var all := [name] + names;
    forall i, j | 0 <= i < j < |all|
      ensures LexLess(all[i], all[j])
    {
      assert all[j] in names;
    }
  }

  lemma {:induction false} InsertAscends(name: string, names: seq<string>)
    requires InOrder(names)
    ensures InOrder(Insert(name, names))
  {
    if names != [] && name != names[0] {
      var first, rest := names[0], names[1..];
      LexTotal(name, first);
      if LexLess(name, first) {
        forall x | x in names
          ensures LexLess(name, x)
        {
          if x != first {
            LexTransitive(name, first, x);
          }
        }
        AscendingCons(name, names);
      } else {
        InsertAscends(name, rest);
        InsertHolds(name, rest);
        assert forall x :: x in rest ==> LexLess(first, x);
        AscendingCons(first, Insert(name, rest));
      }
    }
  }

  /** The methods of blocking results, each once, in code-point order. */
  method DetectTechniques(solo: seq<TestResult>) returns (names: seq<string>)
    ensures InOrder(names) && forall x :: x in names <==> Detected(solo, x)
  {
    names := [];
    for n := 0 to |solo|
      invariant InOrder(names) && forall x :: x in names <==> Detected(solo[..n], x)
    {
      if IsBlocking(solo[n]) {
        InsertHolds(solo[n].technique.value, names);
        InsertAscends(solo[n].technique.value, names);
        names := Insert(solo[n].technique.value, names);
      }
      DetectedStep(solo, n);
    }
    assert solo[..|solo|] == solo;
  }

  lemma DetectedStep(solo: seq<TestResult>, n: nat)
    requires n < |solo|
    ensures forall x :: Detected(solo[..n + 1], x) <==>
              Detected(solo[..n], x) || (IsBlocking(solo[n]) && solo[n].technique == Some(x))
  {
    var now, before := solo[..n + 1], solo[..n];
    assert forall i :: 0 <= i < n ==> now[i] == before[i];
    assert now[n] == solo[n];
  }

  // The shown axes, and the methods of blocking results in order, each once.
  ghost predicate Described(solo: seq<TestResult>, dns: Option<real>, tls: Option<real>, health: Option<real>,
                            techniques: seq<string>)
  {
    && dns == Integrity(solo, "dns") && tls == Integrity(solo, "tls") && health == Health(solo, HEALTH_TEST)
    && Exactly(solo, techniques)
  }

  ghost predicate Exactly(solo: seq<TestResult>, techniques: seq<string>)
  {
    InOrder(techniques) && forall x :: x in techniques <==> Detected(solo, x)
  }

  // ---- the card ----

  class ScoreCard {
    var entryScore: real
    var exitScore: real
    var relayScore: real
    var overall: real
    var listenerSessionCount: nat
    var throttlingDetected: bool
    var recommendedProtocols: seq<string>
    var dnsIntegrity: Option<real>
    var tlsIntegrity: Option<real>
    var telegramHealth: Option<real>
    var detectedTechniques: seq<string>

    constructor ()
      ensures entryScore == exitScore == relayScore == overall == 0.0 && listenerSessionCount == 0
      ensures !throttlingDetected && recommendedProtocols == []
    {
      entryScore, exitScore, relayScore, overall := 0.0, 0.0, 0.0, 0.0;
      listenerSessionCount, throttlingDetected, recommendedProtocols := 0, false, [];
      dnsIntegrity, tlsIntegrity, telegramHealth, detectedTechniques := None, None, None, [];
    }

    // What is shown beside the scores.
    method Describe(solo: seq<TestResult>)
      modifies `dnsIntegrity, `tlsIntegrity, `telegramHealth, `detectedTechniques
      ensures Described(solo, dnsIntegrity, tlsIntegrity, telegramHealth, detectedTechniques)
    {
      dnsIntegrity := Integrity(solo, "dns");
      tlsIntegrity := Integrity(solo, "tls");
      telegramHealth := Health(solo, HEALTH_TEST);
      detectedTechniques := DetectTechniques(solo);
    }

    // The three clamped scores and their rounded mean.
    method Combine(w: Weights, round: real -> real, axes: Axes)
      modifies `entryScore, `exitScore, `relayScore, `overall, `listenerSessionCount, `throttlingDetected
      ensures Quad(entryScore, exitScore, relayScore, overall) == ScoresFrom(w, round, axes)
      ensures listenerSessionCount == axes.sessions && throttlingDetected == axes.throttled
    {
      throttlingDetected := axes.throttled;
      entryScore := Clamp(round(Entry(w, axes)));
      exitScore := Clamp(round(Exit(w, axes)));
      relayScore := Clamp(round(Relay(w, axes)));
      listenerSessionCount := axes.sessions;
      if listenerSessionCount > 0 {
        overall := round((entryScore + exitScore + relayScore) / 3.0);
      } else {
        overall := round((exitScore + relayScore) / 2.0);
      }
    }
  }

  method DetectThrottling(solo: seq<TestResult>) returns (detected: bool)
    ensures detected == exists i :: 0 <= i < |solo| && IsThrottled(solo[i])
    ensures detected == Throttled(solo)
  {
    CountBound(solo, IsThrottled);
    for i := 0 to |solo|
      invariant forall j :: 0 <= j < i ==> !IsThrottled(solo[j])
    {
      if IsThrottled(solo[i]) {
        return true;
      }
    }
    return false;
  }

  method MeasureAxes(solo: seq<TestResult>, reports: seq<Report>) returns (axes: Axes)
    ensures axes == AxesOf(solo, reports)
  {
    var throttled := DetectThrottling(solo);
    var protocols := ProtocolReachability(reports);
    axes := Axes(OkShare(solo, "http"), OkShare(solo, "tcp"), protocols, Latency(solo), throttled, |reports|);
  }

  method ScoreOn(card: ScoreCard, w: Weights, round: real -> real, solo: seq<TestResult>, reports: seq<Report>)
    modifies card`entryScore, card`exitScore, card`relayScore, card`overall
    modifies card`listenerSessionCount, card`throttlingDetected
    ensures var axes := AxesOf(solo, reports);
      && Quad(card.entryScore, card.exitScore, card.relayScore, card.overall) == ScoresFrom(w, round, axes)
      && card.listenerSessionCount == axes.sessions && card.throttlingDetected == axes.throttled
  {
    var axes := MeasureAxes(solo, reports);
    card.Combine(w, round, axes);
  }

  // The card without its recommendation.
  method FilledCard(w: Weights, round: real -> real, solo: seq<TestResult>, reports: seq<Report>)
    returns (card: ScoreCard)
    ensures fresh(card)
    ensures var axes := AxesOf(solo, reports);
      && Quad(card.entryScore, card.exitScore, card.relayScore, card.overall) == ScoresFrom(w, round, axes)
      && card.listenerSessionCount == axes.sessions && card.throttlingDetected == axes.throttled
    ensures Described(solo, card.dnsIntegrity, card.tlsIntegrity, card.telegramHealth, card.detectedTechniques)
  {
    card := new ScoreCard();
    ScoreOn(card, w, round, solo, reports);
    card.Describe(solo);
  }

  method ComputeScores(w: Weights, round: real -> real, solo: seq<TestResult>, reports: seq<Report>,
                       priority: seq<string>, valid: seq<string>)
    returns (card: ScoreCard)
    requires Recommendations.Enumerates(valid)
    ensures fresh(card)
    ensures var axes := AxesOf(solo, reports);
      && Quad(card.entryScore, card.exitScore, card.relayScore, card.overall) == ScoresFrom(w, round, axes)
      && card.listenerSessionCount == axes.sessions && card.throttlingDetected == axes.throttled
    ensures card.recommendedProtocols == Recommendations.Recommended(solo, reports, priority, valid)
    ensures Described(solo, card.dnsIntegrity, card.tlsIntegrity, card.telegramHealth, card.detectedTechniques)
  {
    card := FilledCard(w, round, solo, reports);
    card.recommendedProtocols := Recommendations.RecommendProtocols(solo, reports, priority, valid);
  }
}
