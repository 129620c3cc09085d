/** proxy-multi.conf: parsing its upstream lines, splitting them by reachability, and
    writing the pruned file the original MTProxy is launched with. */
module ProxyConf {
  import opened Lists
  import opened Wrappers
  import opened Text

  datatype Upstream = Upstream(ip: string, port: int, cluster: string)

  const DEFAULT_LINE := "default 2;"

  // ---- parsing ----

  function StripSemicolons(s: string): (r: string)
    ensures |r| <= |s| && r == s[..|r|]
  {
    if s != "" && s[|s| - 1] == ';' then StripSemicolons(s[..|s| - 1]) else s
  }

  // The position of the last colon, or -1.
  function LastColon(s: string): (i: int)
    ensures -1 <= i < |s| && (i >= 0 ==> s[i] == ':')
  {
    if s == "" then -1
    else if s[|s| - 1] == ':' then |s| - 1
    else LastColon(s[..|s| - 1])
  }

  // An "ip:port;" token, cut at its last colon.
  function SplitEndpoint(token: string): Option<(string, string)>
  {
    var s := StripSemicolons(token);
    var colon := LastColon(s);
    if colon <= 0 || colon == |s| - 1 then None else Some((s[..colon], s[colon + 1..]))
  }

  function ParseTokens(parts: seq<string>): Option<Upstream>
  {
    if |parts| < 3 then None
    else
      var endpoint := SplitEndpoint(parts[2]);
      if endpoint.None? then None
      else
        var port := ParseInt(endpoint.value.1);
        if port.None? then None else Some(Upstream(endpoint.value.0, port.value, parts[1]))
  }

  function ParseLine(raw: string): Option<Upstream>
  {
    var line := Strip(raw);
    if StartsWith(line, "proxy_for ") then ParseTokens(Split(line)) else None
  }

  function Key(u: Upstream): (string, int)
  {
    (u.ip, u.port)
  }

  // What `parse` makes of the lines, the first of each key not seen yet, in order.
  function Collect(lines: seq<string>, parse: string -> Option<Upstream>, seen: set<(string, int)>): seq<Upstream>
  {
    if lines == [] then []
    else
      var u := parse(lines[0]);
      if u.None? || Key(u.value) in seen then Collect(lines[1..], parse, seen)
      else [u.value] + Collect(lines[1..], parse, seen + {Key(u.value)})
  }

  function Parse(text: string): seq<Upstream>
  {
    Collect(SplitLines(text), ParseLine, {})
  }

  /** A missing file has no upstreams. */
  method ParseUpstreams(file: Option<string>) returns (out: seq<Upstream>)
    ensures out == if file.None? then [] else Parse(file.value)
  {
    out := [];
    if file.Some? {
      out := CollectUpstreams(SplitLines(file.value), ParseLine);
    }
  }

  method CollectUpstreams(lines: seq<string>, parse: string -> Option<Upstream>) returns (out: seq<Upstream>)
    ensures out == Collect(lines, parse, {})
  {
    out := [];
    var seen: set<(string, int)> := {};
    for i := 0 to |lines|
      invariant out + Collect(lines[i..], parse, seen) == Collect(lines, parse, {})
    {
      assert lines[i..][1..] == lines[i + 1..];
      var u := parse(lines[i]);
      if u.Some? && Key(u.value) !in seen {
        seen := seen + {Key(u.value)};
        out := out + [u.value];
      }
    }
  }

  ghost predicate WellFormed(u: Upstream)
  {
    && u.ip != "" && SpaceFree(u.ip)
    && u.cluster != "" && SpaceFree(u.cluster)
  }

  ghost predicate Distinct(us: seq<Upstream>)
  {
    forall i, j :: 0 <= i < j < |us| ==> Key(us[i]) != Key(us[j])
  }

  lemma ParseTokensWellFormed(parts: seq<string>)
    requires forall i :: 0 <= i < |parts| ==> parts[i] != "" && SpaceFree(parts[i])
    requires ParseTokens(parts).Some?
    ensures WellFormed(ParseTokens(parts).value)
  {
    assert SpaceFree(parts[2]);
  }

  lemma ParseLineWellFormed(raw: string)
    requires ParseLine(raw).Some?
    ensures WellFormed(ParseLine(raw).value)
  {
    ParseTokensWellFormed(Split(Strip(raw)));
  }

  lemma {:induction false} CollectDistinct(lines: seq<string>, parse: string -> Option<Upstream>,
                                           seen: set<(string, int)>)
    ensures var us := Collect(lines, parse, seen);
      && Distinct(us)
      && forall i :: 0 <= i < |us| ==> Key(us[i]) !in seen && exists l :: parse(l) == Some(us[i])
  {
    if lines != [] {
      var u := parse(lines[0]);
      if u.None? || Key(u.value) in seen {
        CollectDistinct(lines[1..], parse, seen);
      } else {
        CollectDistinct(lines[1..], parse, seen + {Key(u.value)});
        var rest := Collect(lines[1..], parse, seen + {Key(u.value)});
        forall i | 0 <= i < |rest|
          ensures Key(rest[i]) !in seen && Key(rest[i]) != Key(u.value)
        {
          assert Key(rest[i]) !in seen + {Key(u.value)};
        }
      }
    }
  }

  lemma ParsedWellFormed(text: string)
    ensures Distinct(Parse(text)) && forall i :: 0 <= i < |Parse(text)| ==> WellFormed(Parse(text)[i])
  {
    CollectDistinct(SplitLines(text), ParseLine, {});
    forall i | 0 <= i < |Parse(text)|
      ensures WellFormed(Parse(text)[i])
    {
      var l :| ParseLine(l) == Some(Parse(text)[i]);
      ParseLineWellFormed(l);
    }
  }

  // ---- the reachability split ----

  function Select(us: seq<Upstream>, oks: seq<bool>, want: bool): seq<Upstream>
    requires |us| == |oks|
  {
    if us == [] then []
    else
      var n := |us| - 1;
      Select(us[..n], oks[..n], want) + if oks[n] == want then [us[n]] else []
  }

  method Partition(us: seq<Upstream>, oks: seq<bool>) returns (alive: seq<Upstream>, unreachable: seq<Upstream>)
    requires |us| == |oks|
    ensures alive == Select(us, oks, true) && unreachable == Select(us, oks, false)
  {
    alive, unreachable := [], [];
    for i := 0 to |us|
      invariant alive == Select(us[..i], oks[..i], true)
      invariant unreachable == Select(us[..i], oks[..i], false)
    {
      assert us[..i + 1][..i] == us[..i] && oks[..i + 1][..i] == oks[..i];
      if oks[i] {
        alive := alive + [us[i]];
      } else {
        unreachable := unreachable + [us[i]];
      }
    }
    assert us[..|us|] == us && oks[..|us|] == oks;
  }

  // Where the elements with that answer stood.
  function Positions(oks: seq<bool>, want: bool): seq<nat>
  {
    if oks == [] then []
    else
      var n := |oks| - 1;
      Positions(oks[..n], want) + if oks[n] == want then [n] else []
  }

  // `s` holds the elements of `us` that stand at `ps`, all of them answered `want`.
  ghost predicate StandAt(us: seq<Upstream>, oks: seq<bool>, want: bool, ps: seq<nat>, s: seq<Upstream>)
    requires |us| == |oks|
  {
    |ps| == |s| && forall i :: 0 <= i < |ps| ==> ps[i] < |us| && oks[ps[i]] == want && s[i] == us[ps[i]]
  }

  /** Each side is the ordered subsequence at exactly the positions with its answer, so
      the two sides share no position and miss none. */
  lemma {:induction false} SelectIsSubsequence(us: seq<Upstream>, oks: seq<bool>, want: bool)
    requires |us| == |oks|
    ensures StandAt(us, oks, want, Positions(oks, want), Select(us, oks, want))
    ensures Ascending(Positions(oks, want))
    ensures forall k :: k in Positions(oks, want) <==> 0 <= k < |us| && oks[k] == want
  {
    if us != [] {
      var n := |us| - 1;
      SelectIsSubsequence(us[..n], oks[..n], want);
      var ps, qs := Positions(oks[..n], want), Positions(oks, want);
      assert forall i :: 0 <= i < |ps| ==> ps[i] in ps;
      StandAtGrows(us, oks, want, ps, Select(us[..n], oks[..n], want));
      forall k
        ensures k in qs <==> 0 <= k < |us| && oks[k] == want
      {
        assert k in qs <==> k in ps || (oks[n] == want && k == n);
      }
    }
  }

  lemma StandAtGrows(us: seq<Upstream>, oks: seq<bool>, want: bool, ps: seq<nat>, s: seq<Upstream>)
    requires us != [] && |us| == |oks| && StandAt(us[..|us| - 1], oks[..|us| - 1], want, ps, s)
    ensures StandAt(us, oks, want, ps, s)
    ensures oks[|us| - 1] == want ==> StandAt(us, oks, want, ps + [|us| - 1], s + [us[|us| - 1]])
  {
  }

  lemma SelectKeeps(us: seq<Upstream>, oks: seq<bool>, want: bool)
    requires |us| == |oks| && Distinct(us) && forall i :: 0 <= i < |us| ==> WellFormed(us[i])
    ensures Distinct(Select(us, oks, want))
    ensures forall i :: 0 <= i < |Select(us, oks, want)| ==> WellFormed(Select(us, oks, want)[i])
  {
    SelectIsSubsequence(us, oks, want);
  }

  // ---- writing ----

  predicate IsDefaultLine(raw: string)
  {
    StartsWith(Strip(raw), "default ")
  }

  // The first line that satisfies `p`, or `otherwise`.
  function First(lines: seq<string>, p: string -> bool, otherwise: string): (d: string)
    ensures if exists i :: 0 <= i < |lines| && p(lines[i]) then d in lines && p(d) else d == otherwise
  {
    if lines == [] then otherwise
    else if p(lines[0]) then lines[0]
    else
      assert forall i :: 1 <= i < |lines| ==> lines[i] == lines[1..][i - 1];
      First(lines[1..], p, otherwise)
  }

  function LinesOf(source: Option<string>): (lines: seq<string>)
    ensures forall i :: 0 <= i < |lines| ==> BreakFree(lines[i])
  {
    if source.Some? then SplitLines(source.value) else []
  }

  function DefaultLine(lines: seq<string>): string
  {
    First(lines, IsDefaultLine, DEFAULT_LINE)
  }

  function UpstreamLine(u: Upstream): string
  {
    "proxy_for " + u.cluster + " " + u.ip + ":" + Dec(u.port) + ";"
  }

  function UpstreamLines(us: seq<Upstream>): (lines: seq<string>)
    ensures |lines| == |us| && forall i :: 0 <= i < |us| ==> lines[i] == UpstreamLine(us[i])
  {
    seq(|us|, i requires 0 <= i < |us| => UpstreamLine(us[i]))
  }

  function Pruned(alive: seq<Upstream>, source: Option<string>): string
  {
    Unlines([DefaultLine(LinesOf(source))] + UpstreamLines(alive))
  }

  method WritePruned(alive: seq<Upstream>, source: Option<string>) returns (r: Result<string, ()>)
    ensures r == if alive == [] then Err(()) else Ok(Pruned(alive, source))
  {
    if alive == [] {
      return Err(());
    }
    var defaultLine := FindFirst(LinesOf(source), IsDefaultLine, DEFAULT_LINE);
    var out := AppendLines(defaultLine, alive);
    r := Ok(Unlines(out));
  }

  method FindFirst(lines: seq<string>, p: string -> bool, otherwise: string) returns (d: string)
    ensures d == First(lines, p, otherwise)
  {
    for i := 0 to |lines|
      invariant First(lines[i..], p, otherwise) == First(lines, p, otherwise)
    {
      assert lines[i..][1..] == lines[i + 1..];
      if p(lines[i]) {
        return lines[i];
      }
    }
    d := otherwise;
  }

  method AppendLines(first: string, alive: seq<Upstream>) returns (out: seq<string>)
    ensures out == [first] + UpstreamLines(alive)
  {
    out := [first];
    for i := 0 to |alive|
      invariant out == [first] + UpstreamLines(alive)[..i]
    {
      out := out + [UpstreamLine(alive[i])];
    }
  }

  // ---- the round trip ----

  lemma StripKeeps(s: string)
    requires s != "" && !IsSpace(s[0]) && !IsSpace(s[|s| - 1])
    ensures Strip(s) == s
  {}

  lemma SplitCons(a: string, rest: string)
    requires a != "" && SpaceFree(a)
    ensures Split(a + " " + rest) == [a] + Split(rest)
    ensures Split(a) == [a]
  {
    SplitsExactly(' ', a, rest);
  }

  lemma {:induction false} LastColonOf(ip: string, digits: string)
    requires forall i :: 0 <= i < |digits| ==> digits[i] != ':'
    ensures LastColon(ip + ":" + digits) == |ip|
  {
    var s := ip + ":" + digits;
    if digits != "" {
      assert s[..|s| - 1] == ip + ":" + digits[..|digits| - 1];
      LastColonOf(ip, digits[..|digits| - 1]);
    }
  }

  function Semicolons(n: nat): string
  {
    if n == 0 then "" else Semicolons(n - 1) + ";"
  }

  lemma OneMoreSemicolon(s: string, more: string)
    ensures StripSemicolons(s + (more + ";")) == StripSemicolons(s + more)
  {
    var all := s + (more + ";");
    assert all[|all| - 1] == ';' && all[..|all| - 1] == s + more;
  }

  lemma {:induction false} StripsSemicolons(s: string, n: nat)
    requires s == "" || s[|s| - 1] != ';'
    ensures StripSemicolons(s + Semicolons(n)) == s
  {
    if n == 0 {
      assert s + "" == s;
    } else {
      OneMoreSemicolon(s, Semicolons(n - 1));
      StripsSemicolons(s, n - 1);
    }
  }

  lemma {:induction false} SemicolonsStripped(s: string) returns (n: nat)
    ensures s == StripSemicolons(s) + Semicolons(n)
    ensures var r := StripSemicolons(s); r == "" || r[|r| - 1] != ';'
  {
    if s != "" && s[|s| - 1] == ';' {
      var m := SemicolonsStripped(s[..|s| - 1]);
      n := m + 1;
    } else {
      n := 0;
      assert s + "" == s;
    }
  }

  lemma {:induction false} NoColonAfterLast(s: string)
    ensures forall i :: LastColon(s) < i < |s| ==> s[i] != ':'
  {
    if s != "" && s[|s| - 1] != ':' {
      NoColonAfterLast(s[..|s| - 1]);
    }
  }

  // The address, the last colon, the port, and any number of semicolons.
  ghost predicate Endpoint(token: string, ip: string, port: string, n: nat)
  {
    && token == ip + ":" + port + Semicolons(n)
    && ip != "" && port != "" && port[|port| - 1] != ';' && forall i :: 0 <= i < |port| ==> port[i] != ':'
  }

  lemma EndpointSplits(token: string, ip: string, port: string, n: nat)
    requires Endpoint(token, ip, port, n)
    ensures SplitEndpoint(token) == Some((ip, port))
  {
    var s := ip + ":" + port;
    assert s[|s| - 1] == port[|port| - 1];
    StripsSemicolons(s, n);
    LastColonOf(ip, port);
    assert s[..|ip|] == ip && s[|ip| + 1..] == port;
  }

  lemma SplitIsEndpoint(token: string) returns (n: nat)
    requires SplitEndpoint(token).Some?
    ensures Endpoint(token, SplitEndpoint(token).value.0, SplitEndpoint(token).value.1, n)
  {
    n := SemicolonsStripped(token);
    var s := StripSemicolons(token);
    var colon := LastColon(s);
    NoColonAfterLast(s);
    assert s == s[..colon] + ":" + s[colon + 1..];
    assert s[colon + 1..][|s| - colon - 2] == s[|s| - 1];
  }

  // A line that names an upstream: the directive, the cluster, the endpoint, and whatever follows.
  ghost predicate Names(raw: string, u: Upstream, port: string, n: nat)
  {
    var tokens := Split(Strip(raw));
    && StartsWith(Strip(raw), "proxy_for ") && |tokens| >= 3
    && tokens[1] == u.cluster && Endpoint(tokens[2], u.ip, port, n) && ParseInt(port) == Some(u.port)
  }

  /** Exactly which lines are parsed, and to what. */
  lemma LineParsesExactly(raw: string, u: Upstream)
    ensures ParseLine(raw) == Some(u) <==> exists port, n :: Names(raw, u, port, n)
  {
    var tokens := Split(Strip(raw));
    if ParseLine(raw) == Some(u) {
      var n := SplitIsEndpoint(tokens[2]);
      assert Names(raw, u, SplitEndpoint(tokens[2]).value.1, n);
    }
    if port, n :| Names(raw, u, port, n) {
      EndpointSplits(tokens[2], u.ip, port, n);
    }
  }

  // Line `i` is the first that names its endpoint.
  ghost predicate FirstOfKey(lines: seq<string>, parse: string -> Option<Upstream>, seen: set<(string, int)>, i: int)
  {
    && 0 <= i < |lines| && parse(lines[i]).Some? && Key(parse(lines[i]).value) !in seen
    && forall j :: 0 <= j < i && parse(lines[j]).Some? ==> Key(parse(lines[j]).value) != Key(parse(lines[i]).value)
  }

  // `us` is what stands at the ascending positions `ps`, which are all those with `first`.
  ghost predicate StandsAt(lines: seq<string>, parse: string -> Option<Upstream>, first: int -> bool,
                           us: seq<Upstream>, ps: seq<int>)
  {
    && |ps| == |us| && (forall j, k :: 0 <= j < k < |ps| ==> ps[j] < ps[k])
    && (forall k :: 0 <= k < |ps| ==> 0 <= ps[k] < |lines| && first(ps[k]) && Some(us[k]) == parse(lines[ps[k]]))
    && forall i :: first(i) ==> i in ps
  }

  ghost function Firsts(lines: seq<string>, parse: string -> Option<Upstream>, seen: set<(string, int)>): int -> bool
  {
    i => FirstOfKey(lines, parse, seen, i)
  }

  function Shifted(ps: seq<int>): (r: seq<int>)
    ensures |r| == |ps| && forall k :: 0 <= k < |ps| ==> r[k] == ps[k] + 1
  {
    seq(|ps|, k requires 0 <= k < |ps| => ps[k] + 1)
  }

  lemma SkipLine(lines: seq<string>, parse: string -> Option<Upstream>, first: int -> bool, restFirst: int -> bool,
                 us: seq<Upstream>, qs: seq<int>)
    requires lines != [] && StandsAt(lines[1..], parse, restFirst, us, qs)
    requires !first(0) && forall i :: i != 0 ==> first(i) == restFirst(i - 1)
    ensures StandsAt(lines, parse, first, us, Shifted(qs))
  {
    var ps := Shifted(qs);
    forall i | first(i)
      ensures i in ps
    {
      var k :| 0 <= k < |qs| && qs[k] == i - 1;
      assert ps[k] == i;
    }
  }

  lemma PutFirst(lines: seq<string>, parse: string -> Option<Upstream>, first: int -> bool, later: int -> bool,
                 us: seq<Upstream>, ps: seq<int>)
    requires lines != [] && StandsAt(lines, parse, later, us, ps) && parse(lines[0]).Some?
    requires first(0) && !later(0) && forall i :: i != 0 ==> first(i) == later(i)
    ensures StandsAt(lines, parse, first, [parse(lines[0]).value] + us, [0] + ps)
  {
    forall k | 0 <= k < |ps|
      ensures ps[k] > 0
    {
      assert later(ps[k]);
    }
    assert ([0] + ps)[0] == 0;
    forall i | first(i)
      ensures i in [0] + ps
    {
      assert i != 0 ==> i in ps;
    }
  }

  lemma TakeLine(lines: seq<string>, parse: string -> Option<Upstream>, first: int -> bool, restFirst: int -> bool,
                 us: seq<Upstream>, qs: seq<int>)
    requires lines != [] && StandsAt(lines[1..], parse, restFirst, us, qs) && parse(lines[0]).Some?
    requires first(0) && forall i :: i != 0 ==> first(i) == restFirst(i - 1)
    ensures StandsAt(lines, parse, first, [parse(lines[0]).value] + us, [0] + Shifted(qs))
  {
    var later := (i: int) => i != 0 && first(i);
    SkipLine(lines, parse, later, restFirst, us, qs);
    PutFirst(lines, parse, first, later, us, Shifted(qs));
  }

  lemma FirstOfRest(lines: seq<string>, parse: string -> Option<Upstream>, seen: set<(string, int)>, i: int)
    requires lines != []
    ensures var u := parse(lines[0]);
      var seen' := if u.Some? then seen + {Key(u.value)} else seen;
      FirstOfKey(lines, parse, seen, i) <==>
        if i == 0 then u.Some? && Key(u.value) !in seen else FirstOfKey(lines[1..], parse, seen', i - 1)
  {
    var rest := lines[1..];
    if i > 0 {
      assert forall j :: 0 < j < |lines| ==> lines[j] == rest[j - 1];
      if FirstOfKey(lines, parse, seen, i) {
        assert forall j :: 0 <= j < i - 1 ==> rest[j] == lines[j + 1];
      }
    }
  }

  lemma {:induction false} CollectsFirsts(lines: seq<string>, parse: string -> Option<Upstream>,
                                          seen: set<(string, int)>) returns (ps: seq<int>)
    ensures StandsAt(lines, parse, Firsts(lines, parse, seen), Collect(lines, parse, seen), ps)
  {
    if lines == [] {
      ps := [];
    } else {
      var u := parse(lines[0]);
      var seen' := if u.Some? then seen + {Key(u.value)} else seen;
      var qs := CollectsFirsts(lines[1..], parse, seen');
      var first, restFirst := Firsts(lines, parse, seen), Firsts(lines[1..], parse, seen');
      forall i
        ensures first(i) == if i == 0 then u.Some? && Key(u.value) !in seen else restFirst(i - 1)
      {
        FirstOfRest(lines, parse, seen, i);
      }
      if u.Some? && Key(u.value) !in seen {
        ps := [0] + Shifted(qs);
        TakeLine(lines, parse, first, restFirst, Collect(lines[1..], parse, seen'), qs);
      } else {
        assert seen' == seen;
        ps := Shifted(qs);
        SkipLine(lines, parse, first, restFirst, Collect(lines[1..], parse, seen'), qs);
      }
    }
  }

  /** For every text, the parsed list is exactly what the lines say that are the first to name
      their endpoint, in line order. */
  lemma ParsedExactly(text: string) returns (ps: seq<int>)
    ensures StandsAt(SplitLines(text), ParseLine, Firsts(SplitLines(text), ParseLine, {}), Parse(text), ps)
  {
    ps := CollectsFirsts(SplitLines(text), ParseLine, {});
  }

  lemma DecIsPlain(n: int)
    ensures forall i :: 0 <= i < |Dec(n)| ==> Dec(n)[i] != ':' && Dec(n)[i] != ';'
    ensures SpaceFree(Dec(n))
  {
    ParseDec(n);
  }

  lemma TokensParse(u: Upstream, tag: string)
    requires u.ip != ""
    ensures ParseTokens([tag, u.cluster, u.ip + ":" + Dec(u.port) + ";"]) == Some(u)
  {
    DecIsPlain(u.port);
    var token := u.ip + ":" + Dec(u.port) + ";";
    assert Semicolons(1) == ";" by {
      assert Semicolons(0) + ";" == ";";
    }
    assert Endpoint(token, u.ip, Dec(u.port), 1);
    EndpointSplits(token, u.ip, Dec(u.port), 1);
    ParseDec(u.port);
  }

  lemma SpaceFreeConcat(a: string, b: string)
    requires SpaceFree(a) && SpaceFree(b)
    ensures SpaceFree(a + b)
  {}

  lemma TokenIsSpaceFree(u: Upstream)
    requires WellFormed(u)
    ensures SpaceFree(u.ip + ":" + Dec(u.port) + ";")
  {
    DecIsPlain(u.port);
    assert SpaceFree(":") && SpaceFree(";");
    SpaceFreeConcat(u.ip, ":");
    SpaceFreeConcat(u.ip + ":", Dec(u.port));
    SpaceFreeConcat(u.ip + ":" + Dec(u.port), ";");
  }

  lemma ThreeTokens(a: string, b: string, c: string)
    requires a != "" && b != "" && c != "" && SpaceFree(a) && SpaceFree(b) && SpaceFree(c)
    ensures Split(a + " " + (b + " " + c)) == [a, b, c]
    ensures Strip(a + " " + (b + " " + c)) == a + " " + (b + " " + c)
  {
    SplitCons(a, b + " " + c);
    SplitCons(b, c);
    SplitCons(c, "");
    StripKeeps(a + " " + (b + " " + c));
  }

  lemma UpstreamLineParses(u: Upstream)
    requires WellFormed(u)
    ensures ParseLine(UpstreamLine(u)) == Some(u)
  {
    var token := u.ip + ":" + Dec(u.port) + ";";
    var tag := "proxy_for";
    assert SpaceFree(tag);
    TokenIsSpaceFree(u);
    ThreeTokens(tag, u.cluster, token);
    TokensParse(u, tag);
    UpstreamLineShape(u);
  }

  lemma UpstreamLineShape(u: Upstream)
    ensures UpstreamLine(u) == "proxy_for" + " " + (u.cluster + " " + (u.ip + ":" + Dec(u.port) + ";"))
    ensures StartsWith(UpstreamLine(u), "proxy_for ")
  {}

  lemma UpstreamLineBreakFree(u: Upstream)
    requires WellFormed(u)
    ensures BreakFree(UpstreamLine(u))
  {
    TokenIsSpaceFree(u);
    UpstreamLineShape(u);
    var token := u.ip + ":" + Dec(u.port) + ";";
    var line := "proxy_for" + " " + (u.cluster + " " + token);
    assert BreakFree("proxy_for" + " ") && BreakFree(u.cluster + " " + token);
  }

  lemma DefaultLineIsSkipped(d: string)
    requires IsDefaultLine(d)
    ensures ParseLine(d) == None
  {
    var line := Strip(d);
    assert line[..|"default "|][0] == 'd';
    assert line[0] == 'd';
    assert "proxy_for "[0] == 'p';
  }

  lemma BuiltInDefault()
    ensures IsDefaultLine(DEFAULT_LINE) && BreakFree(DEFAULT_LINE)
  {
    StripKeeps(DEFAULT_LINE);
    assert DEFAULT_LINE[..8] == "default ";
  }

  lemma ChosenDefault(source: Option<string>)
    ensures var d := DefaultLine(LinesOf(source)); IsDefaultLine(d) && BreakFree(d) && ParseLine(d) == None
  {
    BuiltInDefault();
    DefaultLineIsSkipped(DefaultLine(LinesOf(source)));
  }

  lemma {:induction false} CollectParsed(lines: seq<string>, us: seq<Upstream>, parse: string -> Option<Upstream>,
                                         seen: set<(string, int)>)
    requires |lines| == |us| && forall i :: 0 <= i < |us| ==> parse(lines[i]) == Some(us[i]) && Key(us[i]) !in seen
    requires Distinct(us)
    ensures Collect(lines, parse, seen) == us
  {
    if us != [] {
      CollectParsed(lines[1..], us[1..], parse, seen + {Key(us[0])});
    }
  }

  lemma CollectSkips(line: string, lines: seq<string>, parse: string -> Option<Upstream>)
    requires parse(line) == None
    ensures Collect([line] + lines, parse, {}) == Collect(lines, parse, {})
  {
    assert ([line] + lines)[1..] == lines;
  }

  lemma PrunedLines(alive: seq<Upstream>, source: Option<string>)
    requires forall i :: 0 <= i < |alive| ==> WellFormed(alive[i])
    ensures SplitLines(Pruned(alive, source)) == [DefaultLine(LinesOf(source))] + UpstreamLines(alive)
  {
    ChosenDefault(source);
    var lines := [DefaultLine(LinesOf(source))] + UpstreamLines(alive);
    forall i | 0 <= i < |lines|
      ensures BreakFree(lines[i])
    {
      if i > 0 {
        UpstreamLineBreakFree(alive[i - 1]);
      }
    }
    SplitUnlines(lines);
  }

  /** Parsing the rewritten file gives back exactly the upstreams it was written from,
      in order, for any list the parser or the split can produce. */
  lemma PrunedParsesBack(alive: seq<Upstream>, source: Option<string>)
    requires Distinct(alive) && forall i :: 0 <= i < |alive| ==> WellFormed(alive[i])
    ensures Parse(Pruned(alive, source)) == alive
  {
    PrunedLines(alive, source);
    ChosenDefault(source);
    forall i | 0 <= i < |alive|
      ensures ParseLine(UpstreamLines(alive)[i]) == Some(alive[i])
    {
      UpstreamLineParses(alive[i]);
    }
    CollectSkips(DefaultLine(LinesOf(source)), UpstreamLines(alive), ParseLine);
    CollectParsed(UpstreamLines(alive), alive, ParseLine, {});
  }

  /** The whole pipeline: parse the source, keep what answered, rewrite, parse again.
      The result is the reachable upstreams of the source, without duplicates. */
  lemma ReachableSurviveRewrite(source: string, oks: seq<bool>)
    requires |oks| == |Parse(source)|
    ensures var alive := Select(Parse(source), oks, true);
      && Parse(Pruned(alive, Some(source))) == alive
      && Distinct(alive)
  {
    ParsedWellFormed(source);
    SelectKeeps(Parse(source), oks, true);
    PrunedParsesBack(Select(Parse(source), oks, true), Some(source));
  }

  /** What is written: the default line, and one directive per upstream. */
  lemma PrunedSays(alive: seq<Upstream>, source: Option<string>, i: nat)
    requires i < |alive| && forall k :: 0 <= k < |alive| ==> WellFormed(alive[k])
    ensures var u, out := alive[i], SplitLines(Pruned(alive, source));
      |out| == 1 + |alive| && out[1 + i] == "proxy_for " + u.cluster + " " + u.ip + ":" + Dec(u.port) + ";"
  {
    PrunedLines(alive, source);
  }

  /** The rewritten file starts with the source's first default line, verbatim, or
      with the built-in one when the source has none; pruning again keeps it. */
  lemma PrunedKeepsDefault(alive: seq<Upstream>, source: Option<string>)
    requires forall i :: 0 <= i < |alive| ==> WellFormed(alive[i])
    ensures var lines := LinesOf(source);
      var out := SplitLines(Pruned(alive, source));
      && |out| == 1 + |alive|
      && DefaultLine(out) == out[0]
      && (if exists i :: 0 <= i < |lines| && IsDefaultLine(lines[i])
          then exists i :: 0 <= i < |lines| && IsDefaultLine(lines[i]) && out[0] == lines[i]
                           && forall j :: 0 <= j < i ==> !IsDefaultLine(lines[j])
          else out[0] == DEFAULT_LINE)
  {
    PrunedLines(alive, source);
    ChosenDefault(source);
    FirstIsFirst(LinesOf(source), IsDefaultLine, DEFAULT_LINE);
    FirstOfHead(SplitLines(Pruned(alive, source)), IsDefaultLine, DEFAULT_LINE);
  }

  lemma FirstOfHead(lines: seq<string>, p: string -> bool, otherwise: string)
    requires lines != [] && p(lines[0])
    ensures First(lines, p, otherwise) == lines[0]
  {}

  lemma {:induction false} FirstIsFirst(lines: seq<string>, p: string -> bool, otherwise: string)
    ensures (exists i :: 0 <= i < |lines| && p(lines[i])) ==>
      exists i :: 0 <= i < |lines| && p(lines[i]) && First(lines, p, otherwise) == lines[i]
                  && forall j :: 0 <= j < i ==> !p(lines[j])
  {
    if lines != [] && !p(lines[0]) {
      FirstIsFirst(lines[1..], p, otherwise);
      if exists i :: 0 <= i < |lines| && p(lines[i]) {
        var i :| 0 <= i < |lines| && p(lines[i]);
        assert p(lines[1..][i - 1]);
        var k :| 0 <= k < |lines[1..]| && p(lines[1..][k]) && First(lines[1..], p, otherwise) == lines[1..][k]
                 && forall j :: 0 <= j < k ==> !p(lines[1..][j]);
        assert forall j :: 1 <= j < k + 1 ==> lines[j] == lines[1..][j - 1];
        assert p(lines[k + 1]);
      }
    }
  }
}
