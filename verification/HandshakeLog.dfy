/** Counting successful handshakes from the log of the mtg proxy: a stream start adds
    one, a failure marker takes one back, never below zero. */
module HandshakeLog {
  import opened Text

  datatype Kind = Start | Failure | Other

  const START_MARKER := "stream has been started"
  const FAILURE_MARKERS := [
    "cannot parse client hello", "cannot read client hello", "cannot send welcome packet",
    "obfuscated handshake is failed", "cannot wrap into doppelganger connection",
    "ip was rejected by allowlist", "ip was blacklisted", "connection was concurrency limited"]

  // A start marker wins over any failure marker on the same line.
  function Classify(line: string): Kind
  {
    var low := Lower(Strip(line));
    if Contains(low, START_MARKER) then Start
    else if exists i :: 0 <= i < |FAILURE_MARKERS| && Contains(low, FAILURE_MARKERS[i]) then Failure
    else Other
  }

  // ---- which lines count ----

  lemma {:induction false} LowerConcat(a: string, b: string)
    ensures Lower(a + b) == Lower(a) + Lower(b)
  {
    if a == "" {
      assert a + b == b;
    } else {
      assert (a + b)[1..] == a[1..] + b;
      LowerConcat(a[1..], b);
    }
  }

  lemma {:induction false} LowerSpaces(a: string)
    requires AllSpace(a)
    ensures Lower(a) == a
  {
    if a != "" {
      LowerSpaces(a[1..]);
    }
  }

  lemma {:induction false} SkippedPart(s: string) returns (a: string)
    ensures s == a + SkipSpaces(s) && AllSpace(a)
  {
    if s != "" && IsSpace(s[0]) {
      var rest := SkippedPart(s[1..]);
      a := [s[0]] + rest;
    } else {
      a := "";
    }
  }

  lemma {:induction false} StrippedPart(s: string) returns (b: string)
    ensures s == StripRight(s) + b && AllSpace(b)
  {
    if s != "" && IsSpace(s[|s| - 1]) {
      var rest := StrippedPart(s[..|s| - 1]);
      b := rest + [s[|s| - 1]];
    } else {
      b := "";
    }
  }

  // A text that begins and ends with something else than whitespace.
  predicate Plain(m: string)
  {
    m != "" && !IsSpace(m[0]) && !IsSpace(m[|m| - 1])
  }

  lemma ContainsWithin(a: string, s: string, b: string, m: string)
    requires AllSpace(a) && AllSpace(b) && Plain(m)
    ensures Contains(a + s + b, m) <==> Contains(s, m)
  {
    var all := a + s + b;
    if i :| 0 <= i <= |all| && OccursAt(all, m, i) {
      assert all[i] == all[i..i + |m|][0] == m[0];
      assert all[i + |m| - 1] == all[i..i + |m|][|m| - 1] == m[|m| - 1];
      assert |a| <= i && i + |m| <= |a| + |s|;
      assert s[i - |a|..i - |a| + |m|] == all[i..i + |m|];
      assert OccursAt(s, m, i - |a|);
    }
    if i :| 0 <= i <= |s| && OccursAt(s, m, i) {
      assert all[|a| + i..|a| + i + |m|] == s[i..i + |m|];
      assert OccursAt(all, m, |a| + i);
    }
  }

  lemma LowerParts(a: string, s: string, b: string)
    requires AllSpace(a) && AllSpace(b)
    ensures Lower(a + (s + b)) == a + Lower(s) + b
  {
    LowerConcat(a, s + b);
    LowerConcat(s, b);
    LowerSpaces(a);
    LowerSpaces(b);
  }

  lemma StrippingHidesNothing(line: string, m: string)
    requires Plain(m)
    ensures Contains(Lower(Strip(line)), m) <==> Contains(Lower(line), m)
  {
    var a := SkippedPart(line);
    var b := StrippedPart(SkipSpaces(line));
    var s := Strip(line);
    assert line == a + (s + b);
    LowerParts(a, s, b);
    ContainsWithin(a, Lower(s), b, m);
  }

  /** Which lines are starts and which failures: those that have a marker in them, in any case. */
  lemma ClassifiedExactly(line: string)
    ensures Classify(line) == Start <==> Contains(Lower(line), "stream has been started")
    ensures Classify(line) == Failure <==>
              && !Contains(Lower(line), "stream has been started")
              && exists i :: 0 <= i < |FAILURE_MARKERS| && Contains(Lower(line), FAILURE_MARKERS[i])
    ensures FAILURE_MARKERS == [
      "cannot parse client hello", "cannot read client hello", "cannot send welcome packet",
      "obfuscated handshake is failed", "cannot wrap into doppelganger connection",
      "ip was rejected by allowlist", "ip was blacklisted", "connection was concurrency limited"]
  {
    StrippingHidesNothing(line, START_MARKER);
    forall i | 0 <= i < |FAILURE_MARKERS|
      ensures Contains(Lower(Strip(line)), FAILURE_MARKERS[i]) <==> Contains(Lower(line), FAILURE_MARKERS[i])
    {
      StrippingHidesNothing(line, FAILURE_MARKERS[i]);
    }
  }

  function Kinds(lines: seq<string>): (ks: seq<Kind>)
    ensures |ks| == |lines|
  {
    seq(|lines|, i requires 0 <= i < |lines| => Classify(lines[i]))
  }

  function Weight(k: Kind): int
  {
    match k
    case Start => 1
    case Failure => -1
    case Other => 0
  }

  function Max(a: int, b: int): int
  {
    if a >= b then a else b
  }

  // Starts minus failures.
  function Balance(kinds: seq<Kind>): int
  {
    if kinds == [] then 0 else Balance(kinds[..|kinds| - 1]) + Weight(kinds[|kinds| - 1])
  }

  // What the floored counter reads after the log.
  function Counter(kinds: seq<Kind>): int
  {
    if kinds == [] then 0
    else
      var before := Counter(kinds[..|kinds| - 1]);
      match kinds[|kinds| - 1]
      case Start => before + 1
      case Failure => Max(0, before - 1)
      case Other => before
  }

  class MtgMonitor {
    var connectionCount: int

    constructor ()
      ensures connectionCount == 0
    {
      connectionCount := 0;
    }

    /** Reads the log to its end. */
    method MonitorOutput(lines: seq<string>)
      requires connectionCount == 0
      modifies this
      ensures IsMaxSuffixBalance(connectionCount, Kinds(lines))
    {
      ghost var kinds := Kinds(lines);
      for n := 0 to |lines|
        invariant connectionCount == Counter(kinds[..n])
      {
        assert kinds[..n + 1][..n] == kinds[..n];
        match Classify(lines[n])
        case Start => connectionCount := connectionCount + 1;
        case Failure => connectionCount := Max(0, connectionCount - 1);
        case Other =>
      }
      assert kinds[..|lines|] == kinds;
      CounterIsMaxSuffix(kinds);
    }
  }

  // `c` is the largest balance over all suffixes, the empty one included.
  ghost predicate IsMaxSuffixBalance(c: int, kinds: seq<Kind>)
  {
    && (exists k :: 0 <= k <= |kinds| && c == Balance(kinds[k..]))
    && (forall k :: 0 <= k <= |kinds| ==> Balance(kinds[k..]) <= c)
  }

  lemma SuffixOfInit(kinds: seq<Kind>, k: nat)
    requires k < |kinds|
    ensures Balance(kinds[k..]) == Balance(kinds[..|kinds| - 1][k..]) + Weight(kinds[|kinds| - 1])
  {
    var s := kinds[k..];
    assert s[..|s| - 1] == kinds[..|kinds| - 1][k..];
  }

  /** The counter is the maximum over all suffixes of starts minus failures. */
  lemma {:induction false} CounterIsMaxSuffix(kinds: seq<Kind>)
    ensures IsMaxSuffixBalance(Counter(kinds), kinds)
  {
    assert Balance(kinds[|kinds|..]) == 0;
    if kinds != [] {
      var init := kinds[..|kinds| - 1];
      CounterIsMaxSuffix(init);
      forall k | 0 <= k < |kinds|
        ensures Balance(kinds[k..]) == Balance(init[k..]) + Weight(kinds[|kinds| - 1])
      {
        SuffixOfInit(kinds, k);
      }
      var k :| 0 <= k <= |init| && Counter(init) == Balance(init[k..]);
      assert Balance(init[|init|..]) == 0;
      assert Counter(kinds) == Balance(kinds[k..]) || Counter(kinds) == Balance(kinds[|kinds|..]);
    }
  }

  lemma {:induction false} BalanceSplits(kinds: seq<Kind>, k: nat)
    requires k <= |kinds|
    ensures Balance(kinds) == Balance(kinds[..k]) + Balance(kinds[k..])
  {
    if k == |kinds| {
      assert kinds[..k] == kinds && kinds[k..] == [];
    } else {
      var init := kinds[..|kinds| - 1];
      BalanceSplits(init, k);
      SuffixOfInit(kinds, k);
      assert init[..k] == kinds[..k];
    }
  }

  // Every failure has its own earlier start.
  ghost predicate Matched(kinds: seq<Kind>)
  {
    forall k :: 0 <= k <= |kinds| ==> Balance(kinds[..k]) >= 0
  }

  /** The counter is exactly starts minus failures if and only if every failure is
      matched by a start of its own before it: then the floor never acts. */
  lemma ExactIffMatched(kinds: seq<Kind>)
    ensures Counter(kinds) == Balance(kinds) <==> Matched(kinds)
  {
    CounterIsMaxSuffix(kinds);
    forall k | 0 <= k <= |kinds|
      ensures Balance(kinds) == Balance(kinds[..k]) + Balance(kinds[k..])
    {
      BalanceSplits(kinds, k);
    }
    assert kinds[0..] == kinds;
    var k :| 0 <= k <= |kinds| && Counter(kinds) == Balance(kinds[k..]);
    if Counter(kinds) == Balance(kinds) {
      forall j | 0 <= j <= |kinds|
        ensures Balance(kinds[..j]) >= 0
      {
        assert Balance(kinds[j..]) <= Counter(kinds);
      }
    }
    if Matched(kinds) {
      assert Balance(kinds[..k]) >= 0;
      assert Balance(kinds[0..]) <= Counter(kinds);
    }
  }
}
