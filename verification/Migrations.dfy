/** Bringing old verdicts into the current vocabulary: the ordered updates that run over the
    stored rows, and the translation applied when a report is read again. */
module Migrations {
  import opened Wrappers

  datatype Row = Row(verdict: string, technique: Option<string>)

  // What one UPDATE writes, to which rows.
  datatype Update =
    | Rename(from: string, to: string)
    | Backfill(when: string, technique: string)
    | Collapse(legacy: set<string>, to: string)

  const BLOCKING_LEGACY := {"DNS_POISONING", "DNS_BLOCKED", "DOH_BLOCKED", "IP_DROPPED", "RST_INJECTED", "REFUSED"}

  const RENAMES: seq<Update> := [
    Rename("GEOBLOCK_NOT_CENSORSHIP", "SERVER_REFUSED"), Rename("YOUTUBE_SNI_THROTTLED", "THROTTLED")]

  const BACKFILLS: seq<Update> := [
    Backfill("DNS_POISONING", "dns_poisoning"),
    Backfill("DNS_BLOCKED", "dns_blocked_nxdomain"),
    Backfill("DOH_BLOCKED", "doh_blocked"),
    Backfill("IP_DROPPED", "ip_dropped"),
    Backfill("RST_INJECTED", "tcp_rst_injection"),
    Backfill("REFUSED", "tcp_refused")]

  const FLATTEN: seq<Update> := [Collapse(BLOCKING_LEGACY, "BLOCKED")]

  const TEST_RESULTS := RENAMES + (BACKFILLS + FLATTEN)

  const PROTOCOL_RESULTS := RENAMES + FLATTEN

  // The WHERE clause.
  predicate Matches(u: Update, r: Row)
  {
    match u
    case Rename(from, _) => r.verdict == from
    case Backfill(when_, _) => r.verdict == when_ && r.technique.None?
    case Collapse(legacy, _) => r.verdict in legacy
  }

  function Apply(u: Update, r: Row): Row
  {
    if !Matches(u, r) then r
    else
      match u
      case Rename(_, to) => r.(verdict := to)
      case Backfill(_, technique) => r.(technique := Some(technique))
      case Collapse(_, to) => r.(verdict := to)
  }

  function ApplyAll(us: seq<Update>, r: Row): Row
  {
    if us == [] then r else ApplyAll(us[1..], Apply(us[0], r))
  }

  // The stored rows.
  class Table {
    var rows: seq<Row>

    /** One UPDATE over the whole table; its row count is that of the rows it matched. */
    method Execute(u: Update) returns (matched: nat)
      modifies this
      ensures |rows| == |old(rows)| && forall i :: 0 <= i < |rows| ==> rows[i] == Apply(u, old(rows)[i])
      ensures matched == 0 <==> forall i :: 0 <= i < |old(rows)| ==> !Matches(u, old(rows)[i])
    {
      matched := 0;
      for i := 0 to |rows|
        invariant |rows| == |old(rows)|
        invariant forall k :: 0 <= k < i ==> rows[k] == Apply(u, old(rows)[k])
        invariant forall k :: i <= k < |rows| ==> rows[k] == old(rows)[k]
        invariant matched == 0 <==> forall k :: 0 <= k < i ==> !Matches(u, old(rows)[k])
      {
        if Matches(u, rows[i]) {
          matched := matched + 1;
          rows := rows[i := Apply(u, rows[i])];
        }
      }
    }

    /** Every update in order, each over the rows the earlier ones left. */
    method Migrate(us: seq<Update>) returns (total: nat)
      modifies this
      ensures |rows| == |old(rows)| && forall i :: 0 <= i < |rows| ==> rows[i] == ApplyAll(us, old(rows)[i])
      ensures total == 0 ==> rows == old(rows)
      ensures (forall i :: 0 <= i < |old(rows)| ==> Misses(us, old(rows)[i])) ==> total == 0
    {
      total := 0;
      for n := 0 to |us|
        invariant |rows| == |old(rows)|
        invariant forall i :: 0 <= i < |rows| ==> ApplyAll(us[n..], rows[i]) == ApplyAll(us, old(rows)[i])
        invariant total == 0 ==> rows == old(rows)
        invariant (forall i :: 0 <= i < |old(rows)| ==> Misses(us, old(rows)[i])) ==> total == 0
      {
        assert us[n..][0] == us[n] && us[n..][1..] == us[n + 1..];
        var matched := Execute(us[n]);
        total := total + matched;
      }
    }
  }

  // ---- the translation applied on reading ----

  function Legacy(verdict: string): Option<(string, Option<string>)>
  {
    match verdict
    case "DNS_POISONING" => Some(("BLOCKED", Some("dns_poisoning")))
    case "DNS_BLOCKED" => Some(("BLOCKED", Some("dns_blocked_nxdomain")))
    case "DOH_BLOCKED" => Some(("BLOCKED", Some("doh_blocked")))
    case "IP_DROPPED" => Some(("BLOCKED", Some("ip_dropped")))
    case "RST_INJECTED" => Some(("BLOCKED", Some("tcp_rst_injection")))
    case "REFUSED" => Some(("BLOCKED", Some("tcp_refused")))
    case "YOUTUBE_SNI_THROTTLED" => Some(("THROTTLED", Some("sni_throttling")))
    case "GEOBLOCK_NOT_CENSORSHIP" => Some(("SERVER_REFUSED", None))
    case _ => None
  }

  // An empty method counts as missing.
  function Translate(r: Row): Row
  {
    match Legacy(r.verdict)
    case None => r
    case Some((verdict, default_)) =>
      Row(verdict, if r.technique.None? || r.technique.value == "" then default_ else r.technique)
  }

  // ---- both, in closed form ----

  function Default(verdict: string): Option<string>
  {
    match Legacy(verdict)
    case Some((_, technique)) => technique
    case None => None
  }

  // What the ordered updates come to for one row.
  function Migrated(r: Row): Row
  {
    if r.verdict in BLOCKING_LEGACY then Row("BLOCKED", if r.technique.None? then Default(r.verdict) else r.technique)
    else if r.verdict == "YOUTUBE_SNI_THROTTLED" then r.(verdict := "THROTTLED")
    else if r.verdict == "GEOBLOCK_NOT_CENSORSHIP" then r.(verdict := "SERVER_REFUSED")
    else r
  }

  predicate Misses(us: seq<Update>, r: Row)
  {
    forall i :: 0 <= i < |us| ==> !Matches(us[i], r)
  }

  lemma {:induction false} MissedUnchanged(us: seq<Update>, r: Row)
    requires Misses(us, r)
    ensures ApplyAll(us, r) == r
  {
    if us != [] {
      assert !Matches(us[0], r);
      assert forall i :: 0 <= i < |us| - 1 ==> us[1..][i] == us[i + 1];
      MissedUnchanged(us[1..], r);
    }
  }

  // When one update matches, none before it did, and none after it matches the outcome.
  lemma {:induction false} HitOnce(us: seq<Update>, r: Row, i: nat)
    requires i < |us| && Misses(us[..i], r) && Misses(us[i + 1..], Apply(us[i], r))
    ensures ApplyAll(us, r) == Apply(us[i], r)
  {
    if i == 0 {
      MissedUnchanged(us[1..], Apply(us[0], r));
    } else {
      assert !Matches(us[..i][0], r);
      assert us[1..][..i - 1] == us[..i][1..];
      assert us[1..][i..] == us[i + 1..];
      HitOnce(us[1..], r, i - 1);
    }
  }

  lemma {:induction false} ApplyConcat(us: seq<Update>, vs: seq<Update>, r: Row)
    ensures ApplyAll(us + vs, r) == ApplyAll(vs, ApplyAll(us, r))
  {
    if us == [] {
      assert us + vs == vs;
    } else {
      assert (us + vs)[1..] == us[1..] + vs;
      ApplyConcat(us[1..], vs, Apply(us[0], r));
    }
  }

  lemma RenamesOf(r: Row)
    ensures ApplyAll(RENAMES, r) == if r.verdict == "YOUTUBE_SNI_THROTTLED" then r.(verdict := "THROTTLED")
                                    else if r.verdict == "GEOBLOCK_NOT_CENSORSHIP" then r.(verdict := "SERVER_REFUSED")
                                    else r
  {
    if r.verdict == "GEOBLOCK_NOT_CENSORSHIP" {
      HitOnce(RENAMES, r, 0);
    } else if r.verdict == "YOUTUBE_SNI_THROTTLED" {
      HitOnce(RENAMES, r, 1);
    } else {
      MissedUnchanged(RENAMES, r);
    }
  }

  // The place of a blocking legacy verdict among the backfills.
  function Place(verdict: string): (i: nat)
    requires verdict in BLOCKING_LEGACY
    ensures i < 6 && BACKFILLS[i].when == verdict && Some(BACKFILLS[i].technique) == Default(verdict)
  {
    if verdict == "DNS_POISONING" then 0
    else if verdict == "DNS_BLOCKED" then 1
    else if verdict == "DOH_BLOCKED" then 2
    else if verdict == "IP_DROPPED" then 3
    else if verdict == "RST_INJECTED" then 4
    else 5
  }

  lemma BackfillsDiffer()
    ensures forall i, j :: 0 <= i < j < 6 ==> BACKFILLS[i].when != BACKFILLS[j].when
    ensures forall i :: 0 <= i < 6 ==> BACKFILLS[i].Backfill? && BACKFILLS[i].when in BLOCKING_LEGACY
  {
  }

  lemma BackfillsOf(r: Row)
    ensures ApplyAll(BACKFILLS, r) == if r.verdict in BLOCKING_LEGACY && r.technique.None?
                                      then r.(technique := Default(r.verdict)) else r
  {
    BackfillsDiffer();
    if r.verdict in BLOCKING_LEGACY && r.technique.None? {
      HitOnce(BACKFILLS, r, Place(r.verdict));
    } else {
      MissedUnchanged(BACKFILLS, r);
    }
  }

  lemma MigratedInOrder(r: Row)
    ensures ApplyAll(TEST_RESULTS, r) == Migrated(r)
  {
    ApplyConcat(RENAMES, BACKFILLS + FLATTEN, r);
    RenamesOf(r);
    var renamed := ApplyAll(RENAMES, r);
    ApplyConcat(BACKFILLS, FLATTEN, renamed);
    BackfillsOf(renamed);
  }

  lemma LegacyVerdicts(verdict: string)
    ensures Legacy(verdict).Some? <==>
              verdict in BLOCKING_LEGACY || verdict == "YOUTUBE_SNI_THROTTLED" || verdict == "GEOBLOCK_NOT_CENSORSHIP"
    ensures verdict in BLOCKING_LEGACY ==> Legacy(verdict).value.0 == "BLOCKED" && Legacy(verdict).value.1.Some?
  {
  }

  // A verdict the current vocabulary has matches no update of either table.
  lemma CurrentUntouched(r: Row)
    requires Legacy(r.verdict).None?
    ensures Misses(TEST_RESULTS, r) && Misses(PROTOCOL_RESULTS, r)
  {
    LegacyVerdicts(r.verdict);
    BackfillsDiffer();
    assert Misses(RENAMES, r) && Misses(BACKFILLS, r) && Misses(FLATTEN, r);
    forall i | 0 <= i < |TEST_RESULTS|
      ensures !Matches(TEST_RESULTS[i], r)
    {
      assert TEST_RESULTS[i] == if i < 2 then RENAMES[i] else if i < 8 then BACKFILLS[i - 2] else FLATTEN[i - 8];
    }
    forall i | 0 <= i < |PROTOCOL_RESULTS|
      ensures !Matches(PROTOCOL_RESULTS[i], r)
    {
      assert PROTOCOL_RESULTS[i] == if i < 2 then RENAMES[i] else FLATTEN[i - 2];
    }
  }

  lemma ProtocolsInOrder(r: Row)
    ensures ApplyAll(PROTOCOL_RESULTS, r) == Row(Migrated(r).verdict, r.technique)
  {
    ApplyConcat(RENAMES, FLATTEN, r);
    RenamesOf(r);
    assert ApplyAll(FLATTEN, ApplyAll(RENAMES, r)) == Apply(FLATTEN[0], ApplyAll(RENAMES, r));
  }

  /** A migrated row of either table matches none of its updates, so running them again
      changes no row. */
  lemma MigratedOnce(r: Row)
    ensures var after := ApplyAll(TEST_RESULTS, r);
      Misses(TEST_RESULTS, after) && ApplyAll(TEST_RESULTS, after) == after
    ensures var after := ApplyAll(PROTOCOL_RESULTS, r);
      Misses(PROTOCOL_RESULTS, after) && ApplyAll(PROTOCOL_RESULTS, after) == after
  {
    MigratedInOrder(r);
    ProtocolsInOrder(r);
    LegacyVerdicts(r.verdict);
    CurrentUntouched(ApplyAll(TEST_RESULTS, r));
    CurrentUntouched(ApplyAll(PROTOCOL_RESULTS, r));
    MissedUnchanged(TEST_RESULTS, ApplyAll(TEST_RESULTS, r));
    MissedUnchanged(PROTOCOL_RESULTS, ApplyAll(PROTOCOL_RESULTS, r));
  }

  /** Translation is idempotent, and neither way of bringing a row up to date disturbs what
      the other produced. */
  lemma TranslatedOnce(r: Row)
    ensures Translate(Translate(r)) == Translate(r)
    ensures ApplyAll(TEST_RESULTS, Translate(r)) == ApplyAll(PROTOCOL_RESULTS, Translate(r)) == Translate(r)
    ensures Translate(ApplyAll(TEST_RESULTS, r)) == ApplyAll(TEST_RESULTS, r)
    ensures Translate(ApplyAll(PROTOCOL_RESULTS, r)) == ApplyAll(PROTOCOL_RESULTS, r)
  {
    MigratedInOrder(r);
    ProtocolsInOrder(r);
    LegacyVerdicts(r.verdict);
    CurrentUntouched(Translate(r));
    MissedUnchanged(TEST_RESULTS, Translate(r));
    MissedUnchanged(PROTOCOL_RESULTS, Translate(r));
  }

  /** The updates and the translation agree on a row exactly when it is neither an old
      throttling verdict without a method nor an old verdict with an empty method. */
  lemma UpdatesAgreeExactly(r: Row)
    ensures ApplyAll(TEST_RESULTS, r) == Translate(r) <==>
              && !(r.verdict == "YOUTUBE_SNI_THROTTLED" && r.technique.None?)
              && !(Legacy(r.verdict).Some? && r.technique == Some(""))
  {
    MigratedInOrder(r);
    LegacyVerdicts(r.verdict);
  }

  /** The verdicts of protocol rows, which carry no method, always agree. */
  lemma ProtocolVerdictsAgree(r: Row)
    ensures ApplyAll(PROTOCOL_RESULTS, r).verdict == Translate(r).verdict
  {
    ProtocolsInOrder(r);
    LegacyVerdicts(r.verdict);
  }

  /** Collapsing the verdicts before the backfills would lose every missing method. */
  lemma BackfillsMustComeFirst(r: Row)
    requires r.verdict in BLOCKING_LEGACY && r.technique.None?
    ensures ApplyAll(RENAMES + (FLATTEN + BACKFILLS), r).technique == None
    ensures ApplyAll(TEST_RESULTS, r).technique == Default(r.verdict) != None
  {
    MigratedInOrder(r);
    LegacyVerdicts(r.verdict);
    ApplyConcat(RENAMES, FLATTEN + BACKFILLS, r);
    RenamesOf(r);
    ApplyConcat(FLATTEN, BACKFILLS, r);
    assert ApplyAll(FLATTEN, r) == Apply(FLATTEN[0], r);
    BackfillsOf(r.(verdict := "BLOCKED"));
  }
}
