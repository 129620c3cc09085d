/** The kernel's accounting rules: installing, removing and reading the counters the
    listener's verdicts rest on, in the IPv4 and the IPv6 table. */
module RuleTable {
  import opened Wrappers
  import opened Text

  datatype Family = V4 | V6

  const FAMILIES := [V4, V6]

  datatype Rule = Rule(chain: string, args: seq<string>, comment: string, packets: nat, bytes: nat)

  // How the family's command behaves during a call: whether it exists, and whether a
  // check, an add and a delete run to a normal end.
  datatype Tool = Tool(onPath: bool, checks: bool, adds: bool, deletes: bool)

  predicate Matches(r: Rule, chain: string, args: seq<string>)
  {
    r.chain == chain && r.args == args
  }

  predicate Present(rules: seq<Rule>, chain: string, args: seq<string>)
  {
    exists i :: 0 <= i < |rules| && Matches(rules[i], chain, args)
  }

  function Installed(rules: seq<Rule>, tool: Tool, chain: string, args: seq<string>, comment: string): (seq<Rule>, bool)
  {
    if !tool.onPath then (rules, false)
    else if tool.checks && Present(rules, chain, args) then (rules, true)
    else if tool.adds then (rules + [Rule(chain, args, comment, 0, 0)], true)
    else (rules, false)
  }

  // `-D` removes the first matching rule.
  function Deleted(rules: seq<Rule>, chain: string, args: seq<string>): seq<Rule>
  {
    if rules == [] then []
    else if Matches(rules[0], chain, args) then rules[1..]
    else [rules[0]] + Deleted(rules[1..], chain, args)
  }

  function Removed(rules: seq<Rule>, selected: bool, tool: Tool, chain: string, args: seq<string>): seq<Rule>
  {
    if selected && tool.onPath && tool.deletes then Deleted(rules, chain, args) else rules
  }

  class Kernel {
    var v4: seq<Rule>
    var v6: seq<Rule>

    function Rules(f: Family): seq<Rule>
      reads this
    {
      match f case V4 => v4 case V6 => v6
    }

    method SetRules(f: Family, rules: seq<Rule>)
      modifies this
      ensures Rules(f) == rules
      ensures forall g :: g != f ==> Rules(g) == old(Rules(g))
    {
      match f
      case V4 => v4 := rules;
      case V6 => v6 := rules;
    }

    /** Returns the families on which the rule is now in place. */
    method InstallCounter(chain: string, args: seq<string>, comment: string, tool: Family -> Tool)
      returns (status: set<Family>)
      modifies this
      ensures forall f :: (Rules(f), f in status) == Installed(old(Rules(f)), tool(f), chain, args, comment)
    {
      status := {};
      for i := 0 to |FAMILIES|
        invariant forall j :: 0 <= j < i ==>
          (Rules(FAMILIES[j]), FAMILIES[j] in status)
            == Installed(old(Rules(FAMILIES[j])), tool(FAMILIES[j]), chain, args, comment)
        invariant forall j :: i <= j < |FAMILIES| ==>
          Rules(FAMILIES[j]) == old(Rules(FAMILIES[j])) && FAMILIES[j] !in status
      {
        var f := FAMILIES[i];
        var (rules, ok) := Installed(Rules(f), tool(f), chain, args, comment);
        SetRules(f, rules);
        if ok {
          status := status + {f};
        }
      }
      assert Rules(FAMILIES[0]) == Rules(V4) && Rules(FAMILIES[1]) == Rules(V6);
    }

    /** With no status, both families are tried. */
    method RemoveCounter(chain: string, args: seq<string>, status: Option<set<Family>>, tool: Family -> Tool)
      modifies this
      ensures forall f :: Rules(f) == Removed(old(Rules(f)), status.None? || f in status.value, tool(f), chain, args)
    {
      for i := 0 to |FAMILIES|
        invariant forall j :: 0 <= j < i ==>
          var f := FAMILIES[j];
          Rules(f) == Removed(old(Rules(f)), status.None? || f in status.value, tool(f), chain, args)
        invariant forall j :: i <= j < |FAMILIES| ==> Rules(FAMILIES[j]) == old(Rules(FAMILIES[j]))
      {
        var f := FAMILIES[i];
        if (status.None? || f in status.value) && tool(f).onPath && tool(f).deletes {
          SetRules(f, Deleted(Rules(f), chain, args));
        }
      }
      assert Rules(FAMILIES[0]) == Rules(V4) && Rules(FAMILIES[1]) == Rules(V6);
    }

    /** Install, then remove with the returned status, whatever the tools do on the way: the
        tables are restored exactly when every installed family's is. */
    method InstallThenRemove(chain: string, args: seq<string>, comment: string, tool: Family -> Tool)
      returns (status: set<Family>)
      modifies this
      ensures (forall f :: Rules(f) == old(Rules(f))) <==>
              (forall f :: f in status ==> Restored(old(Rules(f)), tool(f), Rule(chain, args, comment, 0, 0)))
    {
      status := InstallCounter(chain, args, comment, tool);
      forall f
        ensures Removed(Rules(f), f in status, tool(f), chain, args) == old(Rules(f)) <==>
                  (f in status ==> Restored(old(Rules(f)), tool(f), Rule(chain, args, comment, 0, 0)))
      {
        RestoredExactly(old(Rules(f)), tool(f), chain, args, comment);
      }
      RemoveCounter(chain, args, Some(status), tool);
    }
  }

  // Every rule from the first one with the arguments of `r` on is `r` itself.
  predicate OnlyAtEnd(rules: seq<Rule>, r: Rule)
  {
    if rules == [] then true
    else if Matches(rules[0], r.chain, r.args) then forall i :: 0 <= i < |rules| ==> rules[i] == r
    else OnlyAtEnd(rules[1..], r)
  }

  // When an installed table is as before after the removal: a rule that was seen must not be
  // deleted; one that was added must, and must not have stood there unseen, unless the tables
  // cannot be told apart.
  predicate Restored(rules: seq<Rule>, tool: Tool, r: Rule)
  {
    var present := Present(rules, r.chain, r.args);
    if tool.checks && present then !tool.deletes else tool.deletes && (!present || OnlyAtEnd(rules, r))
  }

  lemma {:induction false} RotatedIsConstant(rules: seq<Rule>, r: Rule)
    requires rules != [] && rules[1..] + [r] == rules
    ensures forall i :: 0 <= i < |rules| ==> rules[i] == r
  {
    var rest := rules[1..];
    assert rules[|rules| - 1] == (rest + [r])[|rules| - 1] == r;
    if rest != [] {
      assert forall i :: 0 <= i < |rest| ==> (rest[1..] + [r])[i] == (rest + [r])[i + 1] == rules[i + 1];
      RotatedIsConstant(rest, r);
      assert rules[0] == (rest + [r])[0] == rest[0];
    }
  }

  lemma RotateExactly(rules: seq<Rule>, r: Rule)
    requires rules != []
    ensures rules[1..] + [r] == rules <==> forall i :: 0 <= i < |rules| ==> rules[i] == r
  {
    if rules[1..] + [r] == rules {
      RotatedIsConstant(rules, r);
    }
  }

  lemma {:induction false} DeleteOfAppended(rules: seq<Rule>, r: Rule)
    requires Present(rules, r.chain, r.args)
    ensures Deleted(rules + [r], r.chain, r.args) == rules <==> OnlyAtEnd(rules, r)
  {
    var more := rules + [r];
    assert more[0] == rules[0] && more[1..] == rules[1..] + [r];
    if Matches(rules[0], r.chain, r.args) {
      RotateExactly(rules, r);
    } else {
      var i :| 0 <= i < |rules| && Matches(rules[i], r.chain, r.args);
      assert Matches(rules[1..][i - 1], r.chain, r.args);
      DeleteOfAppended(rules[1..], r);
      assert Deleted(more, r.chain, r.args) == [rules[0]] + Deleted(rules[1..] + [r], r.chain, r.args);
      assert rules == [rules[0]] + rules[1..];
    }
  }

  lemma RestoredExactly(rules: seq<Rule>, tool: Tool, chain: string, args: seq<string>, comment: string)
    ensures var (after, ok) := Installed(rules, tool, chain, args, comment);
      Removed(after, ok, tool, chain, args) == rules <==>
        (ok ==> Restored(rules, tool, Rule(chain, args, comment, 0, 0)))
  {
    var r := Rule(chain, args, comment, 0, 0);
    DeletedShrinks(rules, chain, args);
    if Present(rules, chain, args) {
      DeleteOfAppended(rules, r);
    } else {
      DeleteAppended(rules, r);
    }
  }

  /** Where the tool works, that is when the rule was not there before. */
  lemma WorkingToolRestores(rules: seq<Rule>, tool: Tool, chain: string, args: seq<string>, comment: string)
    requires tool.checks && tool.deletes
    ensures Restored(rules, tool, Rule(chain, args, comment, 0, 0)) <==> !Present(rules, chain, args)
  {
  }

  lemma {:induction false} DeletedShrinks(rules: seq<Rule>, chain: string, args: seq<string>)
    ensures |Deleted(rules, chain, args)| == |rules| - (if Present(rules, chain, args) then 1 else 0)
    ensures !Present(rules, chain, args) ==> Deleted(rules, chain, args) == rules
  {
    if rules != [] && !Matches(rules[0], chain, args) {
      DeletedShrinks(rules[1..], chain, args);
      if Present(rules, chain, args) {
        var i :| 0 <= i < |rules| && Matches(rules[i], chain, args);
        assert Matches(rules[1..][i - 1], chain, args);
      }
    }
  }

  lemma {:induction false} DeleteAppended(rules: seq<Rule>, r: Rule)
    requires !Present(rules, r.chain, r.args)
    ensures Deleted(rules + [r], r.chain, r.args) == rules
  {
    if rules == [] {
      assert rules + [r] == [r];
    } else {
      assert !Matches(rules[0], r.chain, r.args);
      assert (rules + [r])[1..] == rules[1..] + [r];
      DeleteAppended(rules[1..], r);
    }
  }

  // How many rules with these arguments stand in the table.
  function Standing(rules: seq<Rule>, chain: string, args: seq<string>): nat
  {
    if rules == [] then 0
    else
      var r := rules[|rules| - 1];
      Standing(rules[..|rules| - 1], chain, args) + if r.chain == chain && r.args == args then 1 else 0
  }

  lemma {:induction false} StandingOfPresent(rules: seq<Rule>, chain: string, args: seq<string>)
    ensures Standing(rules, chain, args) > 0 <==> Present(rules, chain, args)
  {
    if rules != [] {
      var front := rules[..|rules| - 1];
      StandingOfPresent(front, chain, args);
      if Present(front, chain, args) {
        var i :| 0 <= i < |front| && Matches(front[i], chain, args);
        assert Matches(rules[i], chain, args);
      }
      if Present(rules, chain, args) && !Matches(rules[|rules| - 1], chain, args) {
        var i :| 0 <= i < |rules| && Matches(rules[i], chain, args);
        assert Matches(front[i], chain, args);
      }
    }
  }

  /** What an install leaves: a tool that can add ends with the rule in place and says so; one
      new rule, with zero counts and this comment, stands behind the others, unless the check
      saw one or nothing could be added, and then the table is as it was. */
  lemma InstallExactly(rules: seq<Rule>, tool: Tool, chain: string, args: seq<string>, comment: string)
    ensures var (after, ok) := Installed(rules, tool, chain, args, comment);
      && (tool.onPath && tool.adds ==> ok)
      && (ok ==> exists i :: 0 <= i < |after| && after[i].chain == chain && after[i].args == args)
      && (ok <==> tool.onPath && (tool.adds || (tool.checks && Standing(rules, chain, args) > 0)))
      && (if ok && !(tool.checks && Standing(rules, chain, args) > 0)
          then after == rules + [Rule(chain, args, comment, 0, 0)]
               && Standing(after, chain, args) == Standing(rules, chain, args) + 1
          else after == rules)
  {
    StandingOfPresent(rules, chain, args);
    var more := rules + [Rule(chain, args, comment, 0, 0)];
    assert more[..|more| - 1] == rules;
    assert Matches(more[|rules|], chain, args);
  }

  /** What a deletion leaves: the table without the first such rule, or as it was if there is none. */
  lemma {:induction false} DeleteExactly(rules: seq<Rule>, chain: string, args: seq<string>, i: nat)
    requires i <= |rules| && (i < |rules| ==> rules[i].chain == chain && rules[i].args == args)
    requires forall j :: 0 <= j < i ==> rules[j].chain != chain || rules[j].args != args
    ensures Deleted(rules, chain, args) == rules[..i] + if i < |rules| then rules[i + 1..] else []
  {
    if i > 0 {
      DeleteExactly(rules[1..], chain, args, i - 1);
      assert rules[..i] == [rules[0]] + rules[1..][..i - 1];
      if i < |rules| {
        assert rules[1..][i..] == rules[i + 1..];
      }
    }
  }

  /** Installing twice is installing once: same table, same answer, and the counts of
      every rule that was there, a leftover of the same rule included, are kept. */
  lemma InstallIdempotent(rules: seq<Rule>, tool: Tool, chain: string, args: seq<string>, comment: string)
    requires tool.checks
    ensures var once := Installed(rules, tool, chain, args, comment);
      && Installed(once.0, tool, chain, args, comment) == once
      && rules <= once.0
  {
    var once := Installed(rules, tool, chain, args, comment);
    if once.1 && !Present(rules, chain, args) {
      assert Matches(once.0[|rules|], chain, args);
    }
  }

  /** When the check does not run, a leftover rule is added a second time: the
      installation is idempotent exactly when the rule can be seen or cannot be added. */
  lemma BlindInstallDuplicates(rules: seq<Rule>, tool: Tool, chain: string, args: seq<string>, comment: string)
    requires tool.onPath
    ensures var once := Installed(rules, tool, chain, args, comment);
      Installed(once.0, tool, chain, args, comment) == once <==> tool.checks || !tool.adds
  {
    var once := Installed(rules, tool, chain, args, comment);
    if tool.checks {
      InstallIdempotent(rules, tool, chain, args, comment);
    } else if tool.adds {
      assert |Installed(once.0, tool, chain, args, comment).0| == |once.0| + 1;
    }
  }

  function Others(rules: seq<Rule>, chain: string, args: seq<string>): seq<Rule>
  {
    if rules == [] then []
    else
      (if rules[0].chain == chain && rules[0].args == args then [] else [rules[0]]) + Others(rules[1..], chain, args)
  }

  lemma {:induction false} OthersOfAppend(rules: seq<Rule>, r: Rule, chain: string, args: seq<string>)
    ensures Others(rules + [r], chain, args) == Others(rules, chain, args) + Others([r], chain, args)
  {
    if rules == [] {
      assert rules + [r] == [r];
    } else {
      assert (rules + [r])[1..] == rules[1..] + [r];
      OthersOfAppend(rules[1..], r, chain, args);
    }
  }

  lemma {:induction false} OthersOfDeleted(rules: seq<Rule>, chain: string, args: seq<string>)
    ensures Others(Deleted(rules, chain, args), chain, args) == Others(rules, chain, args)
  {
    if rules != [] && !Matches(rules[0], chain, args) {
      var rest := Deleted(rules[1..], chain, args);
      assert ([rules[0]] + rest)[1..] == rest;
      OthersOfDeleted(rules[1..], chain, args);
    }
  }

  /** Neither operation touches any other rule, its order or its counts. */
  lemma OthersUntouched(rules: seq<Rule>, tool: Tool, chain: string, args: seq<string>, comment: string)
    ensures Others(Installed(rules, tool, chain, args, comment).0, chain, args) == Others(rules, chain, args)
    ensures Others(Deleted(rules, chain, args), chain, args) == Others(rules, chain, args)
  {
    OthersOfAppend(rules, Rule(chain, args, comment, 0, 0), chain, args);
    OthersOfDeleted(rules, chain, args);
  }

  // ---- reading the listing ----

  datatype Column = Packets | Octets

  function ColumnIndex(c: Column): nat
  {
    if c.Packets? then 0 else 1
  }

  function Count(r: Rule, c: Column): nat
  {
    if c.Packets? then r.packets else r.bytes
  }

  // The number a line contributes to the sum for `needle`.
  function LineValue(line: string, needle: string, c: Column): int
  {
    if !Contains(line, needle) || |Split(line)| <= ColumnIndex(c) then 0
    else
      var n := ParseInt(Split(line)[ColumnIndex(c)]);
      if n.None? then 0 else n.value
  }

  function Total(values: seq<int>): int
  {
    if values == [] then 0 else Total(values[..|values| - 1]) + values[|values| - 1]
  }

  function Values(lines: seq<string>, f: string -> int): (vs: seq<int>)
    ensures |vs| == |lines| && forall i :: 0 <= i < |lines| ==> vs[i] == f(lines[i])
  {
    seq(|lines|, i requires 0 <= i < |lines| => f(lines[i]))
  }

  // The sum over the rows that contain `needle`.
  function Reading(lines: seq<string>, needle: string, c: Column): int
  {
    Total(Values(lines, line => LineValue(line, needle, c)))
  }

  method SumColumn(lines: seq<string>, needle: string, c: Column) returns (total: int)
    ensures total == Reading(lines, needle, c)
  {
    total := 0;
    ghost var vs := Values(lines, line => LineValue(line, needle, c));
    for i := 0 to |lines|
      invariant total == Total(vs[..i])
    {
      assert vs[..i + 1][..i] == vs[..i];
      total := total + LineValue(lines[i], needle, c);
    }
    assert vs[..|lines|] == vs;
  }

  function FamilyReading(listing: Option<seq<string>>, needle: string, c: Column): int
  {
    if listing.None? then 0 else Reading(listing.value, needle, c)
  }

  // Both families together; one whose tool is missing or fails counts nothing.
  method ScrapeCounterColumn(listing: Family -> Option<seq<string>>, needle: string, c: Column) returns (total: int)
    ensures total == FamilyReading(listing(V4), needle, c) + FamilyReading(listing(V6), needle, c)
  {
    total := 0;
    for i := 0 to |FAMILIES|
      invariant total == (if i > 0 then FamilyReading(listing(V4), needle, c) else 0)
                         + (if i > 1 then FamilyReading(listing(V6), needle, c) else 0)
    {
      var lines := listing(FAMILIES[i]);
      if lines.Some? {
        var sum := SumColumn(lines.value, needle, c);
        total := total + sum;
      }
    }
  }

  // `line` is the listing's row for `r`: counters, any cells free of the label, comment.
  ghost predicate Shows(line: string, r: Rule, lbl: string)
  {
    && SpaceFree(r.comment)
    && exists cells: seq<string> ::
         && (forall i :: 0 <= i < |cells| ==> !Contains(cells[i], lbl))
         && Split(line) == [Dec(r.packets), Dec(r.bytes)] + cells + ["/*", r.comment, "*/"]
  }

  lemma OccurrenceChar(hay: string, needle: string, i: int, k: nat)
    requires OccursAt(hay, needle, i) && k < |needle|
    ensures needle[k] == hay[i + k]
  {
    assert hay[i..i + |needle|][k] == hay[i + k];
  }

  lemma NotContainedWithoutDash(hay: string, needle: string)
    requires '-' in needle && '-' !in hay
    ensures !Contains(hay, needle)
  {
    var k :| 0 <= k < |needle| && needle[k] == '-';
    assert forall i :: OccursAt(hay, needle, i) ==> needle[k] == hay[i..i + |needle|][k];
  }

  lemma ContainsPrefixOf(hay: string, a: string, b: string)
    requires Contains(hay, a + b)
    ensures Contains(hay, a)
  {
    var i :| 0 <= i <= |hay| && OccursAt(hay, a + b, i);
    assert hay[i..i + |a + b|][..|a|] == hay[i..i + |a|];
    assert OccursAt(hay, a, i);
  }

  ghost predicate Label(lbl: string)
  {
    lbl != "" && lbl[|lbl| - 1] == '-' && SpaceFree(lbl)
  }

  lemma OnlyToken(tokens: seq<string>, k: nat, needle: string)
    requires k < |tokens| && forall i :: 0 <= i < |tokens| && i != k ==> !Contains(tokens[i], needle)
    ensures SomeContains(tokens, needle) <==> Contains(tokens[k], needle)
  {}

  lemma OtherTokens(packets: string, bytes: string, cells: seq<string>, comment: string, lbl: string, digits: string)
    requires lbl != "" && lbl[|lbl| - 1] == '-' && '-' !in packets && '-' !in bytes
    requires forall i :: 0 <= i < |cells| ==> !Contains(cells[i], lbl)
    ensures var tokens := [packets, bytes] + cells + ["/*", comment, "*/"];
      SomeContains(tokens, lbl + digits) <==> Contains(comment, lbl + digits)
  {
    var needle := lbl + digits;
    assert needle[|lbl| - 1] == '-';
    NotContainedWithoutDash(packets, needle);
    NotContainedWithoutDash(bytes, needle);
    NotContainedWithoutDash("/*", needle);
    NotContainedWithoutDash("*/", needle);
    forall i | 0 <= i < |cells|
      ensures !Contains(cells[i], needle)
    {
      if Contains(cells[i], needle) {
        ContainsPrefixOf(cells[i], lbl, digits);
      }
    }
    OnlyToken([packets, bytes] + cells + ["/*", comment, "*/"], 3 + |cells|, needle);
  }

  /** A row counts for `lbl + port` exactly when its comment contains that string. */
  lemma RowMatchesByComment(line: string, r: Rule, lbl: string, port: nat)
    requires Label(lbl) && Shows(line, r, lbl)
    ensures Contains(line, lbl + Dec(port)) <==> Contains(r.comment, lbl + Dec(port))
  {
    var cells: seq<string> :|
      && (forall i :: 0 <= i < |cells| ==> !Contains(cells[i], lbl))
      && Split(line) == [Dec(r.packets), Dec(r.bytes)] + cells + ["/*", r.comment, "*/"];
    ParseDec(port);
    assert SpaceFree(lbl + Dec(port));
    ContainsByToken(line, lbl + Dec(port));
    OtherTokens(Dec(r.packets), Dec(r.bytes), cells, r.comment, lbl, Dec(port));
  }

  /** Two per-port comments under one label: the one contains the other exactly when
      its port begins with the other's digits. */
  lemma PortPrefix(lbl: string, p: nat, q: nat)
    requires Label(lbl)
    ensures Contains(lbl + Dec(q), lbl + Dec(p)) <==> Dec(p) <= Dec(q)
  {
    var hay, needle := lbl + Dec(q), lbl + Dec(p);
    if Contains(hay, needle) {
      var i :| 0 <= i <= |hay| && OccursAt(hay, needle, i);
      OccurrenceChar(hay, needle, i, |lbl| - 1);
      assert i == 0;
      assert needle == hay[..|needle|];
      PrefixAfter(lbl, Dec(p), Dec(q));
    }
    if Dec(p) <= Dec(q) {
      PrefixAfter(lbl, Dec(p), Dec(q));
      assert OccursAt(hay, needle, 0);
    }
  }

  lemma PrefixAfter(front: string, a: string, b: string)
    ensures front + a <= front + b <==> a <= b
  {
    if front + a <= front + b {
      assert (front + b)[|front|..|front| + |a|] == (front + a)[|front|..];
    }
    if a <= b {
      assert front + b == front + a + b[|a|..];
    }
  }

  // A row of the listing that stands for no counter: the chain and column headings.
  ghost predicate Heading(line: string, lbl: string)
  {
    !Contains(line, lbl)
  }

  lemma HeadingCountsNothing(line: string, lbl: string, port: nat, c: Column)
    requires Heading(line, lbl)
    ensures LineValue(line, lbl + Dec(port), c) == 0
  {
    if Contains(line, lbl + Dec(port)) {
      ContainsPrefixOf(line, lbl, Dec(port));
    }
  }

  lemma RowValue(line: string, r: Rule, lbl: string, p: nat, q: nat, c: Column)
    requires Label(lbl) && Shows(line, r, lbl) && r.comment == lbl + Dec(q)
    ensures LineValue(line, lbl + Dec(p), c) == if Dec(p) <= Dec(q) then Count(r, c) else 0
  {
    RowMatchesByComment(line, r, lbl, p);
    PortPrefix(lbl, p, q);
    assert Split(line)[0] == Dec(r.packets) && Split(line)[1] == Dec(r.bytes);
    ParseDec(r.packets);
    ParseDec(r.bytes);
  }

  // The counts of the rules whose port begins with the digits of `p`.
  function Attributed(rules: seq<Rule>, ports: seq<nat>, p: nat, c: Column): (vs: seq<int>)
    requires |rules| == |ports|
    ensures |vs| == |rules|
    ensures forall i :: 0 <= i < |vs| ==> vs[i] == if Dec(p) <= Dec(ports[i]) then Count(rules[i], c) else 0
  {
    seq(|rules|, i requires 0 <= i < |rules| => if Dec(p) <= Dec(ports[i]) then Count(rules[i], c) else 0)
  }

  lemma {:induction false} TotalOfAppend(a: seq<int>, b: seq<int>)
    ensures Total(a + b) == Total(a) + Total(b)
  {
    if b == [] {
      assert a + b == a;
    } else {
      assert (a + b)[..|a + b| - 1] == a + b[..|b| - 1];
      TotalOfAppend(a, b[..|b| - 1]);
    }
  }

  lemma {:induction false} TotalOfZeros(vs: seq<int>)
    requires forall i :: 0 <= i < |vs| ==> vs[i] == 0
    ensures Total(vs) == 0
  {
    if vs != [] {
      TotalOfZeros(vs[..|vs| - 1]);
    }
  }

  lemma OneMoreValue(front: seq<string>, line: string, back: seq<string>, f: string -> int)
    ensures Total(Values(front + [line] + back, f)) == Total(Values(front + back, f)) + f(line)
  {
    var a, b := Values(front, f), Values(back, f);
    assert Values(front + [line] + back, f) == a + [f(line)] + b;
    assert Values(front + back, f) == a + b;
    TotalOfAppend(a + [f(line)], b);
    TotalOfAppend(a, [f(line)]);
    TotalOfAppend(a, b);
  }

  /** A line that does not contain the comment, or has no number in its column, counts nothing,
      wherever it stands; any other counts that number: the first cell for packets, the second
      for bytes. */
  lemma LineCounts(front: seq<string>, line: string, back: seq<string>, needle: string, c: Column)
    ensures var cells := Split(line);
      var n := if c.Packets? && |cells| >= 1 then ParseInt(cells[0])
               else if c.Octets? && |cells| >= 2 then ParseInt(cells[1]) else None;
      Reading(front + [line] + back, needle, c)
      == Reading(front + back, needle, c) + if Contains(line, needle) && n.Some? then n.value else 0
  {
    OneMoreValue(front, line, back, l => LineValue(l, needle, c));
  }

  lemma ValuesSum(headings: seq<string>, lines: seq<string>, f: string -> int, vs: seq<int>)
    requires |vs| == |lines|
    requires forall i :: 0 <= i < |headings| ==> f(headings[i]) == 0
    requires forall i :: 0 <= i < |lines| ==> f(lines[i]) == vs[i]
    ensures Total(Values(headings + lines, f)) == Total(vs)
  {
    assert Values(headings + lines, f) == Values(headings, f) + vs;
    TotalOfZeros(Values(headings, f));
    TotalOfAppend(Values(headings, f), vs);
  }

  // A listing of exactly these rules, under rows that stand for no counter.
  ghost predicate Lists(headings: seq<string>, lines: seq<string>, rules: seq<Rule>, ports: seq<nat>, lbl: string)
  {
    && |lines| == |rules| == |ports|
    && (forall i :: 0 <= i < |headings| ==> Heading(headings[i], lbl))
    && (forall i :: 0 <= i < |lines| ==> Shows(lines[i], rules[i], lbl) && rules[i].comment == lbl + Dec(ports[i]))
  }

  /** Reading the counter of `lbl + p` off a whole listing adds up the rules of every
      port that begins with the digits of `p`, and nothing else. */
  lemma ReadingIsPrefixSum(headings: seq<string>, lines: seq<string>, rules: seq<Rule>, ports: seq<nat>,
                           lbl: string, p: nat, c: Column)
    requires Label(lbl) && Lists(headings, lines, rules, ports, lbl)
    ensures Reading(headings + lines, lbl + Dec(p), c) == Total(Attributed(rules, ports, p, c))
  {
    var f := line => LineValue(line, lbl + Dec(p), c);
    forall i | 0 <= i < |headings|
      ensures f(headings[i]) == 0
    {
      HeadingCountsNothing(headings[i], lbl, p, c);
    }
    forall i | 0 <= i < |lines|
      ensures f(lines[i]) == Attributed(rules, ports, p, c)[i]
    {
      RowValue(lines[i], rules[i], lbl, p, ports[i], c);
    }
    ValuesSum(headings, lines, f, Attributed(rules, ports, p, c));
  }

  /** The value read for `lbl + p` adds up, over both families, the rules of every port that
      begins with the digits of `p`. */
  lemma BothFamiliesPrefixSum(headings: seq<string>, lines4: seq<string>, rules4: seq<Rule>, ports4: seq<nat>,
                              lines6: seq<string>, rules6: seq<Rule>, ports6: seq<nat>, lbl: string, p: nat, c: Column)
    requires Label(lbl) && Lists(headings, lines4, rules4, ports4, lbl) && Lists(headings, lines6, rules6, ports6, lbl)
    ensures FamilyReading(Some(headings + lines4), lbl + Dec(p), c)
              + FamilyReading(Some(headings + lines6), lbl + Dec(p), c)
         == Total(Attributed(rules4, ports4, p, c)) + Total(Attributed(rules6, ports6, p, c))
  {
    ReadingIsPrefixSum(headings, lines4, rules4, ports4, lbl, p, c);
    ReadingIsPrefixSum(headings, lines6, rules6, ports6, lbl, p, c);
  }

  lemma TotalOfTwo(vs: seq<int>)
    requires |vs| == 2
    ensures Total(vs) == vs[0] + vs[1]
  {
    assert Total(vs[..1]) == vs[0];
  }

  lemma ReadingOfTwo(headings: seq<string>, lines: seq<string>, own: Rule, sibling: Rule, lbl: string, p: nat, q: nat,
                     c: Column)
    requires Label(lbl) && Lists(headings, lines, [own, sibling], [p, q], lbl)
    ensures Reading(headings + lines, lbl + Dec(p), c)
            == Count(own, c) + if Dec(p) <= Dec(q) then Count(sibling, c) else 0
    ensures Reading(headings + lines, lbl + Dec(q), c)
            == Count(sibling, c) + if Dec(q) <= Dec(p) then Count(own, c) else 0
  {
    ReadingIsPrefixSum(headings, lines, [own, sibling], [p, q], lbl, p, c);
    ReadingIsPrefixSum(headings, lines, [own, sibling], [p, q], lbl, q, c);
    TotalOfTwo(Attributed([own, sibling], [p, q], p, c));
    TotalOfTwo(Attributed([own, sibling], [p, q], q, c));
  }

  /** Two instances under one label.  The reading of the first is its own count, free
      of the second's, exactly when the second has counted nothing or its port does
      not begin with the digits of the first. */
  lemma SiblingIsolation(headings: seq<string>, lines: seq<string>, own: Rule, sibling: Rule, lbl: string, p: nat,
                         q: nat, c: Column)
    requires Label(lbl) && Lists(headings, lines, [own, sibling], [p, q], lbl)
    ensures Reading(headings + lines, lbl + Dec(p), c) == Count(own, c)
        <==> Count(sibling, c) == 0 || !(Dec(p) <= Dec(q))
  {
    ReadingOfTwo(headings, lines, own, sibling, lbl, p, q, c);
  }

  /** The collision is real: wherever a rule on 443 and one on 4430 are listed under one label,
      the reading for 443 is the sum of both, and the one for 4430 is its own. */
  lemma Port443Reads4430(headings: seq<string>, lines: seq<string>, own: Rule, sibling: Rule, lbl: string, c: Column)
    requires Label(lbl) && Lists(headings, lines, [own, sibling], [443, 4430], lbl)
    ensures Reading(headings + lines, lbl + Dec(443), c) == Count(own, c) + Count(sibling, c)
    ensures Reading(headings + lines, lbl + Dec(4430), c) == Count(sibling, c)
  {
    ReadingOfTwo(headings, lines, own, sibling, lbl, 443, 4430, c);
    PrefixOf4430();
  }

  lemma PrefixOf4430()
    ensures Dec(443) <= Dec(4430) && !(Dec(4430) <= Dec(443))
  {
    assert DecNat(4430) == DecNat(443) + [DigitChar(0)];
  }
}
