/** The recommended protocols: listener-confirmed ones that no solo probe saw blocked, in the
    operator's priority order. */
module Recommendations {
  import opened Models
  import opened Lists
  import opened Registry
  import opened Scoring
  import opened Text

  const SUFFIX := " (handshake only)"

  // `valid` lists the registered names, each once, in the order the set yields them.
  ghost predicate Enumerates(valid: seq<string>)
  {
    (forall n :: n in valid <==> n in KNOWN) && forall i, j :: 0 <= i < j < |valid| ==> valid[i] != valid[j]
  }

  function Among(names: seq<string>): string -> bool
  {
    (n: string) => n in names
  }

  function NotAmong(names: seq<string>): string -> bool
  {
    (n: string) => n !in names
  }

  function OrderOf(priority: seq<string>, valid: seq<string>): seq<string>
  {
    Filter(priority, Among(valid)) + Filter(valid, NotAmong(priority))
  }

  predicate NamesBlocked(r: TestResult, name: string)
  {
    r.category == "protocols" && r.verdict.BLOCKED? && r.technique.Some? && Contains(r.technique.value, name)
  }

  predicate SoloBlocked(solo: seq<TestResult>, name: string)
  {
    exists i :: 0 <= i < |solo| && NamesBlocked(solo[i], name)
  }

  predicate Seen(reports: seq<Report>, name: string, v: Verdict)
  {
    (name, v) in Flatten(reports)
  }

  function Unblocked(solo: seq<TestResult>): string -> bool
  {
    (n: string) => !SoloBlocked(solo, n)
  }

  function Confirmed(solo: seq<TestResult>, reports: seq<Report>): string -> bool
  {
    (n: string) => !SoloBlocked(solo, n) && Seen(reports, n, OK)
  }

  function HandshakeOnly(solo: seq<TestResult>, reports: seq<Report>): string -> bool
  {
    (n: string) => !SoloBlocked(solo, n) && Seen(reports, n, HANDSHAKE_ONLY) && !Seen(reports, n, OK)
  }

  function Suffixed(names: seq<string>): (r: seq<string>)
    ensures |r| == |names| && forall i :: 0 <= i < |r| ==> r[i] == names[i] + SUFFIX
  {
    if names == [] then [] else Suffixed(names[..|names| - 1]) + [names[|names| - 1] + SUFFIX]
  }

  function Recommended(solo: seq<TestResult>, reports: seq<Report>, priority: seq<string>,
                       valid: seq<string>): seq<string>
  {
    var order := OrderOf(priority, valid);
    if reports == [] then Filter(order, Unblocked(solo))
    else Filter(order, Confirmed(solo, reports)) + Suffixed(Filter(order, HandshakeOnly(solo, reports)))
  }

  // ---- the loops ----

  method ListedNames(priority: seq<string>, valid: seq<string>) returns (listed: seq<string>)
    ensures listed == Filter(priority, Among(valid))
  {
    listed := [];
    for i := 0 to |priority|
      invariant listed == Filter(priority[..i], Among(valid))
    {
      assert priority[..i + 1][..i] == priority[..i];
      if priority[i] in valid {
        listed := listed + [priority[i]];
      }
    }
    assert priority[..|priority|] == priority;
  }

  method ResolvePriorityOrder(priority: seq<string>, valid: seq<string>) returns (order: seq<string>)
    requires Enumerates(valid)
    ensures order == OrderOf(priority, valid)
  {
    order := ListedNames(priority, valid);
    ghost var listed := order;
    FilterIsSubsequence(priority, Among(valid));
    for i := 0 to |valid|
      invariant order == listed + Filter(valid[..i], NotAmong(priority))
    {
      assert valid[..i + 1][..i] == valid[..i];
      OmittedOrNot(priority, valid, i);
      if valid[i] !in order {
        order := order + [valid[i]];
      }
    }
    assert valid[..|valid|] == valid;
  }

  // A registered name is in the order so far exactly when the priority lists it.
  lemma OmittedOrNot(priority: seq<string>, valid: seq<string>, i: nat)
    requires Enumerates(valid) && i < |valid|
    ensures valid[i] in Filter(priority, Among(valid)) + Filter(valid[..i], NotAmong(priority)) <==>
              valid[i] in priority
  {
    FilterIsSubsequence(priority, Among(valid));
    FilterIsSubsequence(valid[..i], NotAmong(priority));
    assert valid[i] !in valid[..i];
  }

  method SoloBlockedProtocols(solo: seq<TestResult>, valid: seq<string>) returns (blocked: set<string>)
    ensures forall n :: n in blocked <==> n in valid && SoloBlocked(solo, n)
  {
    blocked := {};
    for i := 0 to |solo|
      invariant forall n :: n in blocked <==> n in valid && SoloBlocked(solo[..i], n)
    {
      var r := solo[i];
      ghost var before := blocked;
      if r.category == "protocols" && r.verdict.BLOCKED? && r.technique.Some? {
        for j := 0 to |valid|
          invariant forall n :: n in blocked <==> n in before || (n in valid[..j] && NamesBlocked(r, n))
        {
          if Contains(r.technique.value, valid[j]) {
            blocked := blocked + {valid[j]};
          }
        }
        assert valid[..|valid|] == valid;
      }
      SoloBlockedStep(solo, i);
    }
    assert solo[..|solo|] == solo;
  }

  lemma SoloBlockedStep(solo: seq<TestResult>, i: nat)
    requires i < |solo|
    ensures forall n :: SoloBlocked(solo[..i + 1], n) <==> SoloBlocked(solo[..i], n) || NamesBlocked(solo[i], n)
  {
    forall n
      ensures SoloBlocked(solo[..i + 1], n) <==> SoloBlocked(solo[..i], n) || NamesBlocked(solo[i], n)
    {
      if SoloBlocked(solo[..i], n) {
        var k :| 0 <= k < i && NamesBlocked(solo[..i][k], n);
        assert NamesBlocked(solo[..i + 1][k], n);
      }
      if NamesBlocked(solo[i], n) {
        assert NamesBlocked(solo[..i + 1][i], n);
      }
    }
  }

  method ListenerVerdicts(reports: seq<Report>, blocked: set<string>) returns (ok: set<string>, handshake: set<string>)
    ensures forall n :: n in ok <==> n !in blocked && Seen(reports, n, OK)
    ensures forall n :: n in handshake <==> n !in blocked && Seen(reports, n, HANDSHAKE_ONLY)
  {
    ok, handshake := {}, {};
    for i := 0 to |reports|
      invariant forall n :: n in ok <==> n !in blocked && Seen(reports[..i], n, OK)
      invariant forall n :: n in handshake <==> n !in blocked && Seen(reports[..i], n, HANDSHAKE_ONLY)
    {
      ghost var before := Flatten(reports[..i]);
      assert before + reports[i][..0] == before;
      for j := 0 to |reports[i]|
        invariant forall n :: n in ok <==> n !in blocked && (n, OK) in before + reports[i][..j]
        invariant forall n :: n in handshake <==> n !in blocked && (n, HANDSHAKE_ONLY) in before + reports[i][..j]
      {
        var (name, verdict) := reports[i][j];
        assert before + reports[i][..j + 1] == before + reports[i][..j] + [(name, verdict)];
        if name !in blocked {
          if verdict.OK? {
            ok := ok + {name};
          } else if verdict.HANDSHAKE_ONLY? {
            handshake := handshake + {name};
          }
        }
      }
      assert before + reports[i][..|reports[i]|] == before + reports[i];
      assert reports[..i + 1][..i] == reports[..i];
    }
    assert reports[..|reports|] == reports;
  }

  // A registered name is never another name with the suffix.
  lemma NeverSuffixed(name: string, other: string)
    requires name in KNOWN
    ensures name != other + SUFFIX
  {
    assert name[|name| - 1] != ')';
    assert (other + SUFFIX)[|other + SUFFIX| - 1] == ')';
  }

  lemma OrderHoldsValid(priority: seq<string>, valid: seq<string>)
    ensures forall n :: n in OrderOf(priority, valid) <==> n in valid
  {
    FilterIsSubsequence(priority, Among(valid));
    FilterIsSubsequence(valid, NotAmong(priority));
  }

  lemma {:induction false} FilterAgrees<T>(s: seq<T>, p: T -> bool, q: T -> bool)
    requires forall x :: x in s ==> p(x) == q(x)
    ensures Filter(s, p) == Filter(s, q)
  {
    if s != [] {
      assert s == s[..|s| - 1] + [s[|s| - 1]];
      FilterAgrees(s[..|s| - 1], p, q);
    }
  }

  // Appends the handshake-only names that are not there yet.
  method ExtendWithHandshakes(start: seq<string>, order: seq<string>, handshake: set<string>)
    returns (recommended: seq<string>)
    requires forall n :: n in order ==> n in KNOWN
    ensures recommended == start + Suffixed(Filter(order, (n: string) => n in handshake && n !in start))
  {
    recommended := start;
    ghost var wanted := (n: string) => n in handshake && n !in start;
    for i := 0 to |order|
      invariant recommended == start + Suffixed(Filter(order[..i], wanted))
    {
      assert order[..i + 1][..i] == order[..i];
      var name := order[i];
      ghost var so := Filter(order[..i], wanted);
      forall k | 0 <= k < |so|
        ensures Suffixed(so)[k] != name
      {
        NeverSuffixed(name, so[k]);
      }
      if name in handshake && name !in recommended {
        assert (so + [name])[..|so|] == so;
        recommended := recommended + [name + SUFFIX];
      }
    }
    assert order[..|order|] == order;
  }

  method RecommendProtocols(solo: seq<TestResult>, reports: seq<Report>, priority: seq<string>, valid: seq<string>)
    returns (recommended: seq<string>)
    requires Enumerates(valid)
    ensures recommended == Recommended(solo, reports, priority, valid)
  {
    var order := ResolvePriorityOrder(priority, valid);
    var blocked := SoloBlockedProtocols(solo, valid);
    OrderHoldsValid(priority, valid);
    if reports == [] {
      recommended := Filter(order, (n: string) => n !in blocked);
      FilterAgrees(order, (n: string) => n !in blocked, Unblocked(solo));
      return;
    }
    var ok, handshake := ListenerVerdicts(reports, blocked);
    recommended := Filter(order, (n: string) => n in ok);
    FilterAgrees(order, (n: string) => n in ok, Confirmed(solo, reports));
    FilterIsSubsequence(order, Confirmed(solo, reports));
    ghost var start := recommended;
    FilterAgrees(order, (n: string) => n in handshake && n !in start, HandshakeOnly(solo, reports));
    recommended := ExtendWithHandshakes(recommended, order, handshake);
  }

  // ---- what the recommendation means ----

  lemma SuffixedHolds(names: seq<string>, n: string)
    ensures n + SUFFIX in Suffixed(names) <==> n in names
    ensures forall x :: x in Suffixed(names) ==> exists m :: m in names && x == m + SUFFIX
  {
    if n + SUFFIX in Suffixed(names) {
      var i :| 0 <= i < |names| && Suffixed(names)[i] == n + SUFFIX;
      assert (names[i] + SUFFIX)[..|names[i]|] == names[i] && (n + SUFFIX)[..|n|] == n;
    }
    if n in names {
      var i :| 0 <= i < |names| && names[i] == n;
      assert Suffixed(names)[i] == n + SUFFIX;
    }
  }

  /** A protocol is recommended exactly when no solo probe saw it blocked and a listener
      confirmed it, with the suffix exactly when only its handshake was confirmed; without
      listener data exactly when it was not seen blocked. */
  lemma RecommendedExactly(solo: seq<TestResult>, reports: seq<Report>, priority: seq<string>, valid: seq<string>,
                           n: string)
    requires Enumerates(valid) && n in valid
    ensures n in Recommended(solo, reports, priority, valid) <==>
              !SoloBlocked(solo, n) && (reports == [] || Seen(reports, n, OK))
    ensures n + SUFFIX in Recommended(solo, reports, priority, valid) <==>
              reports != [] && !SoloBlocked(solo, n) && Seen(reports, n, HANDSHAKE_ONLY) && !Seen(reports, n, OK)
  {
    var order := OrderOf(priority, valid);
    OrderHoldsValid(priority, valid);
    FilterIsSubsequence(order, Unblocked(solo));
    FilterIsSubsequence(order, Confirmed(solo, reports));
    FilterIsSubsequence(order, HandshakeOnly(solo, reports));
    SuffixedHolds(Filter(order, HandshakeOnly(solo, reports)), n);
    forall m | m in order
      ensures m != n + SUFFIX && n != m + SUFFIX
    {
      NeverSuffixed(m, n);
      NeverSuffixed(n, m);
    }
  }

  // ---- and its order ----

  // `x` stands before `y` in the configured priority, or `y` is not listed there at all.
  predicate Prior(priority: seq<string>, x: string, y: string)
  {
    x in priority && (y in priority ==> First(priority, x) < First(priority, y))
  }

  lemma PriorInOrder(priority: seq<string>, valid: seq<string>, x: string, y: string)
    requires x in valid && y in valid && x != y && Prior(priority, x, y)
    ensures x in OrderOf(priority, valid) && y in OrderOf(priority, valid)
    ensures First(OrderOf(priority, valid), x) < First(OrderOf(priority, valid), y)
  {
    OrderHoldsValid(priority, valid);
    var listed, omitted := Filter(priority, Among(valid)), Filter(valid, NotAmong(priority));
    FilterIsSubsequence(priority, Among(valid));
    FirstConcat(listed, omitted, x);
    FirstConcat(listed, omitted, y);
    if y in priority {
      FilterKeepsFirst(priority, Among(valid), x, y);
    }
  }

  // `x` first, wherever both are.
  ghost predicate Before(all: seq<string>, x: string, y: string)
  {
    x in all && y in all ==> First(all, x) < First(all, y)
  }

  lemma FallbackInPriorityOrder(solo: seq<TestResult>, priority: seq<string>, valid: seq<string>, x: string, y: string)
    requires Enumerates(valid) && x in valid && y in valid && x != y
    ensures var all := Recommended(solo, [], priority, valid);
            && (Prior(priority, x, y) ==> Before(all, x, y))
            && x + SUFFIX !in all && y + SUFFIX !in all
  {
    var order := OrderOf(priority, valid);
    OrderHoldsValid(priority, valid);
    FilterIsSubsequence(order, Unblocked(solo));
    SuffixesStayOut(Filter(order, Unblocked(solo)), x);
    SuffixesStayOut(Filter(order, Unblocked(solo)), y);
    if Prior(priority, x, y) && SoloBlocked(solo, x) == SoloBlocked(solo, y) == false {
      PriorInOrder(priority, valid, x, y);
      FilterKeepsFirst(order, Unblocked(solo), x, y);
    }
  }

  /** Of two names recommended in the same way, both plain or both with the suffix, the one
      with the higher priority comes first, with listener reports or without; and every
      confirmed protocol precedes every handshake-only one. */
  lemma RecommendedInPriorityOrder(solo: seq<TestResult>, reports: seq<Report>, priority: seq<string>,
                                   valid: seq<string>,
                                   x: string, y: string)
    requires Enumerates(valid) && x in valid && y in valid && x != y
    ensures var all := Recommended(solo, reports, priority, valid);
            && (Prior(priority, x, y) ==> Before(all, x, y))
            && (Prior(priority, x, y) ==> Before(all, x + SUFFIX, y + SUFFIX))
            && Before(all, x, y + SUFFIX)
  {
    if reports == [] {
      FallbackInPriorityOrder(solo, priority, valid, x, y);
      return;
    }
    var order, all := OrderOf(priority, valid), Recommended(solo, reports, priority, valid);
    var oks, handshakes := Filter(order, Confirmed(solo, reports)), Filter(order, HandshakeOnly(solo, reports));
    var tail := Suffixed(handshakes);
    RecommendedExactly(solo, reports, priority, valid, x);
    RecommendedExactly(solo, reports, priority, valid, y);
    OrderHoldsValid(priority, valid);
    FilterIsSubsequence(order, Confirmed(solo, reports));
    FilterIsSubsequence(order, HandshakeOnly(solo, reports));
    SuffixesStayOut(oks, x);
    SuffixesStayOut(oks, y);
    if x in all && y in all && Prior(priority, x, y) {
      PriorInOrder(priority, valid, x, y);
      FilterKeepsFirst(order, Confirmed(solo, reports), x, y);
      FirstConcat(oks, tail, x);
      FirstConcat(oks, tail, y);
    }
    if x + SUFFIX in all && y + SUFFIX in all && Prior(priority, x, y) {
      PriorInOrder(priority, valid, x, y);
      FilterKeepsFirst(order, HandshakeOnly(solo, reports), x, y);
      FirstSuffixed(handshakes, x);
      FirstSuffixed(handshakes, y);
      FirstConcat(oks, tail, x + SUFFIX);
      FirstConcat(oks, tail, y + SUFFIX);
    }
    if x in all && y + SUFFIX in all {
      FirstConcat(oks, tail, x);
      FirstConcat(oks, tail, y + SUFFIX);
    }
  }

  lemma SuffixesStayOut(names: seq<string>, n: string)
    requires forall m :: m in names ==> m in KNOWN
    ensures n + SUFFIX !in names
  {
    forall m | m in names
      ensures m != n + SUFFIX
    {
      NeverSuffixed(m, n);
    }
  }

  lemma {:induction false} FirstSuffixed(names: seq<string>, n: string)
    requires n in names
    ensures n + SUFFIX in Suffixed(names) && First(Suffixed(names), n + SUFFIX) == First(names, n)
  {
    var rest := names[..|names| - 1];
    SuffixedHolds(names, n);
    SuffixedHolds(rest, n);
    assert Suffixed(names)[..|names| - 1] == Suffixed(rest);
    if n in rest {
      FirstSuffixed(rest, n);
    }
  }
}
