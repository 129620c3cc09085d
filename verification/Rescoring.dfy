/** When a pass rescores a directory, and what the stored scores then say: unlike the rows,
    they remember the history. */
module Rescoring {
  import opened Reconciler
  import opened Text
  import opened Wrappers
  import opened History

  // ---- a pass rescores exactly when it changes rows ----

  // The pass deletes or adds something.
  ghost predicate Touched(run: Run, files: seq<File>)
  {
    PassFiles(Prune(run, Names(files)), Imported(run) - Names(files) != {}, Imported(run), files).1
  }

  ghost predicate RowsDiffer(one: Run, two: Run)
  {
    one.results != two.results || one.sessions != two.sessions
  }

  // An import that adds leaves a row of its file, one that does not leaves the run.
  lemma ImportShows(run: Run, f: File)
    ensures var (run', added) := ImportFile(run, f);
            if added then f.name in Imported(run') else run' == run
    ensures Imported(ImportFile(run, f).0) <= Imported(run) + {f.name}
  {
  }

  lemma {:induction false} PassFilesShows(run: Run, touched: bool, imported: set<string>, files: seq<File>)
    ensures var (run', t) := PassFiles(run, touched, imported, files);
            && (t ==> touched || Imported(run') - imported != {})
            && (!t ==> !touched && run' == run)
            && (touched ==> t)
            && (Imported(run) - imported != {} ==> Imported(run') - imported != {})
            && Imported(run') <= Imported(run) + Names(files)
    decreases |files|
  {
    if files != [] {
      var f, rest := files[0], files[1..];
      assert Names(rest) <= Names(files) by {
        assert forall i :: 0 <= i < |rest| ==> rest[i] == files[i + 1];
      }
      if f.name in imported || !f.stable {
        PassFilesShows(run, touched, imported, rest);
      } else {
        var (run', added) := ImportFile(run, f);
        ImportShows(run, f);
        assert f.name in Names(files);
        assert added ==> f.name in Imported(run') - imported;
        PassFilesShows(run', touched || added, imported, rest);
      }
    }
  }

  /** On every run and every listing, the pass is touched exactly when it leaves other rows. */
  lemma TouchedIffRowsDiffer(run: Run, files: seq<File>)
    ensures Touched(run, files) <==> RowsDiffer(run, PassDir(run, files))
  {
    var disk, pruned, orphans := Names(files), Prune(run, Names(files)), Imported(run) - Names(files);
    PassFilesShows(pruned, orphans != {}, Imported(run), files);
    var after := PassFiles(pruned, orphans != {}, Imported(run), files).0;
    if orphans != {} {
      var n :| n in orphans;
      assert n !in Imported(pruned) && n !in Imported(after);
    } else {
      forall n | n in Imported(run)
        ensures n in disk
      {
        assert n !in orphans;
      }
      PruneNothing(run, disk);
    }
  }

  /** After a pass the stored scores are those of the disk if and only if they were before or
      the pass changed a row. */
  lemma ScoresCurrentExactly(run: Run, files: seq<File>)
    ensures PassDir(run, files).scores == ScoresOf(files) <==>
              run.scores == ScoresOf(files) || RowsDiffer(run, PassDir(run, files))
    ensures RowsDiffer(run, PassDir(run, files)) || PassDir(run, files).scores == run.scores
  {
    TouchedIffRowsDiffer(run, files);
    PassFilesKeepsScores(Prune(run, Names(files)), Imported(run) - Names(files) != {}, Imported(run), files);
  }

  lemma {:induction false} PassFilesKeepsScores(run: Run, touched: bool, imported: set<string>, files: seq<File>)
    ensures PassFiles(run, touched, imported, files).0.scores == run.scores
    decreases |files|
  {
    if files != [] {
      if files[0].name in imported || !files[0].stable {
        PassFilesKeepsScores(run, touched, imported, files[1..]);
      } else {
        var (run', added) := ImportFile(run, files[0]);
        PassFilesKeepsScores(run', touched || added, imported, files[1..]);
      }
    }
  }

  // ---- what is scored ----

  /** The last solo report, and no other, is scored. */
  lemma {:induction false} LatestSoloIsLast(front: seq<File>, f: File, back: seq<File>)
    requires IsSolo(f.name) && forall i :: 0 <= i < |back| ==> !IsSolo(back[i].name)
    ensures LatestSolo(front + [f] + back) == f.doc.scoringRows
  {
    var files := front + [f] + back;
    if back == [] {
      assert files[|files| - 1] == f;
    } else {
      assert files[|files| - 1] == back[|back| - 1];
      assert files[..|files| - 1] == front + [f] + back[..|back| - 1];
      LatestSoloIsLast(front, f, back[..|back| - 1]);
    }
  }

  lemma {:induction false} NoSoloNoRows(files: seq<File>)
    requires forall i :: 0 <= i < |files| ==> !IsSolo(files[i].name)
    ensures LatestSolo(files) == []
  {
    if files != [] {
      NoSoloNoRows(files[..|files| - 1]);
    }
  }

  ghost predicate Scored(f: File)
  {
    IsListener(f.name) && f.doc.scoringValid && f.doc.session.Some?
  }

  // The sessions stand at the ascending positions `ps`, and those are all the reports to score.
  ghost predicate ScoredAt(files: seq<File>, ps: seq<nat>, sessions: seq<Session>)
  {
    && |ps| == |sessions| && (forall i, j :: 0 <= i < j < |ps| ==> ps[i] < ps[j])
    && (forall i :: 0 <= i < |ps| ==>
          ps[i] < |files| && Scored(files[ps[i]]) && Some(sessions[i]) == files[ps[i]].doc.session)
    && forall k :: 0 <= k < |files| && Scored(files[k]) ==> k in ps
  }

  lemma OneMoreScored(files: seq<File>, f: File, ps: seq<nat>, sessions: seq<Session>)
    requires ScoredAt(files, ps, sessions)
    ensures Scored(f) ==> ScoredAt(files + [f], ps + [|files|], sessions + [f.doc.session.value])
    ensures !Scored(f) ==> ScoredAt(files + [f], ps, sessions)
  {
    var all, qs := files + [f], ps + [|files|];
    forall k | 0 <= k < |all| && Scored(all[k])
      ensures if k < |files| then k in ps else qs[|ps|] == k
    {
      if k < |files| {
        assert all[k] == files[k];
      }
    }
  }

  lemma LastScored(front: seq<File>, f: File)
    ensures ScoringListeners(front + [f])
         == if Scored(f) then ScoringListeners(front) + [f.doc.session.value] else ScoringListeners(front)
  {
    assert (front + [f])[..|front|] == front;
  }

  lemma ScoredStep(front: seq<File>, f: File, qs: seq<nat>) returns (ps: seq<nat>)
    requires ScoredAt(front, qs, ScoringListeners(front))
    ensures ScoredAt(front + [f], ps, ScoringListeners(front + [f]))
  {
    LastScored(front, f);
    OneMoreScored(front, f, qs, ScoringListeners(front));
    if Scored(f) {
      ps := qs + [|front|];
    } else {
      ps := qs;
    }
  }

  lemma {:induction false} ScoredUpTo(files: seq<File>, n: nat) returns (ps: seq<nat>)
    requires n <= |files|
    ensures ScoredAt(files[..n], ps, ScoringListeners(files[..n]))
  {
    if n == 0 {
      ps := [];
    } else {
      var qs := ScoredUpTo(files, n - 1);
      ps := ScoredStep(files[..n - 1], files[n - 1], qs);
      assert files[..n] == files[..n - 1] + [files[n - 1]];
    }
  }

  /** Exactly the listener reports that validate are scored, in the order of the listing. */
  lemma ScoringListenersExactly(files: seq<File>) returns (ps: seq<nat>)
    ensures ScoredAt(files, ps, ScoringListeners(files))
  {
    ps := ScoredUpTo(files, |files|);
    assert files[..|files|] == files;
  }

  /** After a pass that changed a row the stored scores rest on the last solo report and the valid
      listener reports on disk; without rows to score nothing but the count is stored. */
  lemma StoredScoresExactly(run: Run, front: seq<File>, f: File, back: seq<File>)
    requires IsSolo(f.name) && forall i :: 0 <= i < |back| ==> !IsSolo(back[i].name)
    ensures var files := front + [f] + back; var after := PassDir(run, files);
      RowsDiffer(run, after) ==>
        && after.scores.inputs == (if f.doc.scoringRows == [] then None
                                   else Some((f.doc.scoringRows, ScoringListeners(files))))
        && after.scores.sessionCount == |ScoringListeners(files)|
  {
    ScoresCurrentExactly(run, front + [f] + back);
    LatestSoloIsLast(front, f, back);
  }

  lemma StoredScoresWithoutSolo(run: Run, files: seq<File>)
    requires forall i :: 0 <= i < |files| ==> !IsSolo(files[i].name)
    ensures var after := PassDir(run, files);
      RowsDiffer(run, after) ==> after.scores.inputs == None && after.scores.sessionCount == |ScoringListeners(files)|
  {
    ScoresCurrentExactly(run, files);
    NoSoloNoRows(files);
  }

  lemma Framed(name: string, prefix: string)
    requires |prefix| > 0 && prefix[|prefix| - 1] == '-' && StartsWith(name, prefix) && EndsWith(name, ".json")
    requires forall i :: 0 <= i < |prefix| ==> prefix[i] != '.'
    ensures |name| >= |prefix| + 5 && name == prefix + name[|prefix|..|name| - 5] + ".json"
  {
    assert name[|name| - 5] == ".json"[0];
    assert forall i :: 0 <= i < |prefix| ==> name[i] == name[..|prefix|][i] == prefix[i];
  }

  /** Which files are reports, and of which kind. */
  lemma ReportNames(name: string)
    ensures IsSolo(name) <==> exists mid: string :: name == "server-solo-" + mid + ".json"
    ensures IsListener(name) <==> exists mid: string :: name == "server-listener-" + mid + ".json"
    ensures !(IsSolo(name) && IsListener(name))
  {
    if IsSolo(name) {
      SoloIsNotListener(name);
      Framed(name, "server-solo-");
    }
    if IsListener(name) {
      Framed(name, "server-listener-");
    }
  }

  // ---- the same in terms of the disk ----

  // The report would get a row: a whole solo report, or a listener report that finds its
  // session id free or beats the row that holds it.
  ghost predicate Takes(c: Content, run: Run, n: string)
  {
    || SoloImportable(c, n)
    || (&& ListenerImportable(c, n)
        && (Sid(c, n) == "" || forall h :: h in run.sessions && Holds(run, Sid(c, n), h) ==> Beats(c, n, h)))
  }

  lemma ListenerTakes(c: Content, run: Run, f: File)
    requires Faithful(c, run) && f.name !in run.sessions && f.doc == c(f.name) && IsListener(f.name)
    ensures ImportListener(run, f).1 <==> Takes(c, run, f.name)
  {
    if IsSolo(f.name) {
      SoloIsNotListener(f.name);
    }
    if f.doc.session.Some? && Sid(c, f.name) != "" {
      var sid := Sid(c, f.name);
      NotHeldTwice(c, run, sid);
      forall h, g | h in run.sessions && g in run.sessions && Holds(run, sid, h) && Holds(run, sid, g)
        ensures h == g
      {
        assert !HeldTwice(run, sid);
      }
    }
  }

  lemma FileTakes(c: Content, run: Run, f: File)
    requires Faithful(c, run) && f.name !in Imported(run) && f.doc == c(f.name)
    ensures ImportFile(run, f).1 <==> Takes(c, run, f.name)
  {
    if IsSolo(f.name) {
      SoloIsNotListener(f.name);
    } else if IsListener(f.name) {
      ListenerTakes(c, run, f);
    }
  }

  // Some settled file that has no row yet would get one.
  ghost predicate SomeTakes(c: Content, run: Run, imported: set<string>, files: seq<File>)
  {
    exists i :: 0 <= i < |files| && files[i].stable && files[i].name !in imported && Takes(c, run, files[i].name)
  }

  lemma SomeTakesRest(c: Content, run: Run, imported: set<string>, files: seq<File>)
    requires files != []
    ensures SomeTakes(c, run, imported, files) <==>
              || (files[0].stable && files[0].name !in imported && Takes(c, run, files[0].name))
              || SomeTakes(c, run, imported, files[1..])
  {
    var rest := files[1..];
    if SomeTakes(c, run, imported, rest) {
      var i :| 0 <= i < |rest| && rest[i].stable && rest[i].name !in imported && Takes(c, run, rest[i].name);
      assert files[i + 1] == rest[i];
    }
    if SomeTakes(c, run, imported, files) {
      var i :| 0 <= i < |files| && files[i].stable && files[i].name !in imported && Takes(c, run, files[i].name);
      assert i > 0 ==> rest[i - 1] == files[i];
    }
  }

  lemma {:induction false} PassFilesTakes(c: Content, run: Run, imported: set<string>, files: seq<File>)
    requires Faithful(c, run) && Imported(run) <= imported
    requires forall i :: 0 <= i < |files| && files[i].stable ==> files[i].doc == c(files[i].name)
    ensures PassFiles(run, false, imported, files).1 <==> SomeTakes(c, run, imported, files)
    decreases |files|
  {
    if files != [] {
      var f, rest := files[0], files[1..];
      SomeTakesRest(c, run, imported, files);
      if f.name in imported || !f.stable {
        PassFilesTakes(c, run, imported, rest);
      } else {
        FileTakes(c, run, f);
        ImportShows(run, f);
        if Takes(c, run, f.name) {
          PassFilesShows(ImportFile(run, f).0, true, imported, rest);
        } else {
          PassFilesTakes(c, run, imported, rest);
        }
      }
    }
  }

  /** A pass changes rows, and so rescores, exactly when a file with rows is gone from disk or
      a settled file without rows would get some. */
  lemma RowsDifferExactly(c: Content, run: Run, files: seq<File>)
    requires Faithful(c, run) && Written(c, files)
    ensures RowsDiffer(run, PassDir(run, files)) <==>
              Imported(run) - Names(files) != {} || SomeTakes(c, Prune(run, Names(files)), Imported(run), files)
  {
    var pruned := Prune(run, Names(files));
    TouchedIffRowsDiffer(run, files);
    if Imported(run) - Names(files) != {} {
      PassFilesShows(pruned, true, Imported(run), files);
    } else {
      PruneCovers(c, Names(files), run);
      PassFilesTakes(c, pruned, Imported(run), files);
    }
  }

  // ---- scores, unlike rows, remember ----

  lemma BeatenArrivalIsRepresented(c: Content, disk: set<string>, run: Run, n: string)
    requires SessionsCover(c, disk, run) && HasChampions(c, disk + {n}) && n !in disk
    requires ListenerImportable(c, n) && Sid(c, n) != "" && !Champion(c, disk + {n}, n)
    ensures SessionsCover(c, disk + {n}, run)
  {
    assert HasChampion(c, disk + {n}, Sid(c, n));
    var w :| Champion(c, disk + {n}, w) && Sid(c, w) == Sid(c, n);
    assert Represented(c, run, w);
  }

  lemma FewerFilesKeepChampion(c: Content, disk: set<string>, more: set<string>, w: string)
    requires Champion(c, more, w) && disk <= more && w in disk
    ensures Champion(c, disk, w)
  {
  }

  lemma BeatenArrivalIsCovered(c: Content, disk: set<string>, run: Run, n: string)
    requires Covers(c, disk, disk, run) && HasChampions(c, disk + {n}) && n !in disk
    requires ListenerImportable(c, n) && Sid(c, n) != "" && !Champion(c, disk + {n}, n)
    ensures Covers(c, disk + {n}, disk + {n}, run)
  {
    ListenerKeepsResults(c, disk, run, run, n);
    BeatenArrivalIsRepresented(c, disk, run, n);
    forall w | w in disk + {n} && Champion(c, disk + {n}, w)
      ensures w in run.sessions
    {
      FewerFilesKeepChampion(c, disk, disk + {n}, w);
    }
  }

  // A report that is beaten on disk, wherever the directory lists it.
  ghost predicate BeatenAmong(c: Content, front: seq<File>, f: File, back: seq<File>)
  {
    && Listed(c, front + [f] + back) && HasChampions(c, Names(front + back) + {f.name})
    && ListenerImportable(c, f.name) && Sid(c, f.name) != "" && f.doc.scoringValid
    && !Champion(c, Names(front + back) + {f.name}, f.name)
  }

  lemma {:induction false} ScoringConcat(front: seq<File>, back: seq<File>)
    ensures ScoringListeners(front + back) == ScoringListeners(front) + ScoringListeners(back)
  {
    if back == [] {
      assert front + back == front;
    } else {
      var all := front + back;
      assert all[..|all| - 1] == front + back[..|back| - 1] && all[|all| - 1] == back[|back| - 1];
      ScoringConcat(front, back[..|back| - 1]);
    }
  }

  lemma NamesConcat(a: seq<File>, b: seq<File>)
    ensures Names(a + b) == Names(a) + Names(b)
  {
    var all := a + b;
    assert forall i :: 0 <= i < |a| ==> all[i] == a[i];
    assert forall i :: 0 <= i < |b| ==> all[|a| + i] == b[i];
    forall n | n in Names(all)
      ensures n in Names(a) + Names(b)
    {
      var i :| 0 <= i < |all| && all[i].name == n;
      assert all[i] == if i < |a| then a[i] else b[i - |a|];
    }
  }

  lemma ListedWithout(c: Content, front: seq<File>, f: File, back: seq<File>)
    requires Listed(c, front + [f] + back)
    ensures Listed(c, front + back)
  {
    var all, without, k := front + [f] + back, front + back, |front|;
    assert forall i :: 0 <= i < |without| ==> without[i] == all[if i < k then i else i + 1];
  }

  lemma NotAmongOthers(c: Content, front: seq<File>, f: File, back: seq<File>)
    requires Listed(c, front + [f] + back)
    ensures f.name !in Names(front) + Names(back)
  {
    var all, k := front + [f] + back, |front|;
    assert all[k] == f;
    forall i | 0 <= i < |front|
      ensures front[i].name != f.name
    {
      assert all[i] == front[i];
    }
    forall i | 0 <= i < |back|
      ensures back[i].name != f.name
    {
      assert all[k + 1 + i] == back[i];
    }
  }

  lemma OneMoreListed(c: Content, front: seq<File>, f: File, back: seq<File>)
    requires Listed(c, front + [f] + back)
    ensures Listed(c, front + back) && f.name !in Names(front + back)
    ensures Names(front + [f] + back) == Names(front + back) + {f.name}
  {
    ListedWithout(c, front, f, back);
    NotAmongOthers(c, front, f, back);
    NamesConcat(front, back);
    NamesConcat(front, [f]);
    NamesConcat(front + [f], back);
    assert [f][0] == f;
  }

  lemma BeatenAmongFacts(c: Content, front: seq<File>, f: File, back: seq<File>)
    requires BeatenAmong(c, front, f, back)
    ensures Listed(c, front + back) && f.name !in Names(front + back) && f.doc == c(f.name)
    ensures Names(front + [f] + back) == Names(front + back) + {f.name}
    ensures ScoresOf(front + [f] + back).sessionCount == ScoresOf(front + back).sessionCount + 1
  {
    OneMoreListed(c, front, f, back);
    assert (front + [f] + back)[|front|] == f;
    ScoringConcat(front, [f]);
    ScoringConcat(front + [f], back);
    ScoringConcat(front, back);
    assert [f][..0] == [];
    assert |ScoringListeners([f])| == 1;
  }

  /** A report that arrives late, though its session has a later one, changes nothing: scores
      that were those of the old disk are now one session short. */
  lemma LateOlderReportIsNotScored(c: Content, run: Run, front: seq<File>, f: File, back: seq<File>)
    requires Faithful(c, run) && BeatenAmong(c, front, f, back)
    ensures var old_, new_ := front + back, front + [f] + back;
            var once := PassDir(run, old_);
            && PassDir(once, new_) == once
            && (once.scores == ScoresOf(old_) ==> once.scores.sessionCount + 1 == ScoresOf(new_).sessionCount)
  {
    var old_, new_ := front + back, front + [f] + back;
    var once := PassDir(run, old_);
    BeatenAmongFacts(c, front, f, back);
    PassDirCovers(c, run, old_);
    BeatenArrivalIsCovered(c, Names(old_), once, f.name);
    ChampionsAreUnbeaten(c, Names(new_), once);
    NothingToDo(c, once, new_);
  }

  lemma BeatenHasNoRow(c: Content, disk: set<string>, run: Run, n: string)
    requires Covers(c, disk, disk, run) && HasChampions(c, disk)
    requires n in disk && ListenerImportable(c, n) && Sid(c, n) != "" && !Champion(c, disk, n)
    ensures n !in Imported(run)
  {
    CoveredKeeps(c, disk, run, n);
    if n in run.results {
      SoloIsNotListener(n);
    }
  }

  // A champion of fewer files that is beaten by none of the removed ones keeps its row.
  lemma RemovedIsCovered(c: Content, disk: set<string>, run: Run, n: string)
    requires Covers(c, disk + {n}, disk + {n}, run) && HasChampions(c, disk + {n}) && n !in disk
    requires ListenerImportable(c, n) && Sid(c, n) != "" && !Champion(c, disk + {n}, n)
    ensures Covers(c, disk, disk, run)
  {
    BeatenHasNoRow(c, disk + {n}, run, n);
    forall w | w in disk && Champion(c, disk, w)
      ensures w in run.sessions
    {
      ChampionSurvives(c, disk, run, n, w);
    }
  }

  lemma ChampionSurvives(c: Content, disk: set<string>, run: Run, n: string, w: string)
    requires ChampionsKept(c, disk + {n}, disk + {n}, run) && HasChampions(c, disk + {n}) && n !in disk
    requires !Champion(c, disk + {n}, n) && Champion(c, disk, w)
    ensures w in run.sessions
  {
    assert HasChampion(c, disk + {n}, Sid(c, w));
    var v :| Champion(c, disk + {n}, v) && Sid(c, v) == Sid(c, w);
    if v != w {
      assert Rivals(c, w, v) && Rivals(c, v, w);
      BeatsAsymmetric(c, w, v);
    }
  }

  /** And a beaten report that is removed again changes nothing either: scores that counted
      it stay one session too high. */
  lemma RemovedOlderReportStaysScored(c: Content, run: Run, front: seq<File>, f: File, back: seq<File>)
    requires Faithful(c, run) && BeatenAmong(c, front, f, back)
    ensures var old_, new_ := front + [f] + back, front + back;
            var once := PassDir(run, old_);
            && PassDir(once, new_) == once
            && (once.scores == ScoresOf(old_) ==> once.scores.sessionCount == ScoresOf(new_).sessionCount + 1)
  {
    var old_, new_ := front + [f] + back, front + back;
    var once := PassDir(run, old_);
    BeatenAmongFacts(c, front, f, back);
    PassDirCovers(c, run, old_);
    ChampionsAreUnbeaten(c, Names(old_), once);
    RemovedIsCovered(c, Names(new_), once, f.name);
    NothingToDo(c, once, new_);
  }

  // ---- two histories, one disk, two scores ----

  lemma TwoAreListed(c: Content, x: string, y: string)
    requires x != y
    ensures Listed(c, OneFile(c, x) + OneFile(c, y)) && Listed(c, OneFile(c, x)) && Names(OneFile(c, x)) == {x}
  {
    assert OneFile(c, x)[0].name == x;
  }

  lemma BeatenOfTwo(c: Content, x: string, y: string)
    requires Rivals(c, x, y) && Beats(c, x, y) && c(y).scoringValid
    ensures BeatenAmong(c, OneFile(c, x), File(y, c(y), true), [])
    ensures HasChampions(c, Names(OneFile(c, x) + OneFile(c, y)))
  {
    var files, f := OneFile(c, x), File(y, c(y), true);
    TwoAreListed(c, x, y);
    BeatsAsymmetric(c, x, y);
    assert Rivals(c, y, x);
    assert Champion(c, {x} + {y}, x);
    assert files + [] == files && files + [f] + [] == files + OneFile(c, y);
    assert (files + OneFile(c, y))[0].name == x && (files + OneFile(c, y))[1].name == y;
    assert Names(files + OneFile(c, y)) == {x} + {y};
  }

  // A pass over a fresh run that finds an importable listener report scores the disk.
  lemma FirstPassScores(c: Content, files: seq<File>, n: string)
    requires Listed(c, files) && n in Names(files) && ListenerImportable(c, n)
    ensures PassDir(NewRun, files).scores == ScoresOf(files)
  {
    PassDirCovers(c, NewRun, files);
    assert Represented(c, PassDir(NewRun, files), n);
    assert PassDir(NewRun, files).sessions != map[];
    ScoresCurrentExactly(NewRun, files);
  }

  // One pass over both reports scores both; after a pass over the later one, it does not.
  lemma TwoWaysToScore(c: Content, x: string, y: string)
    requires Rivals(c, x, y) && Beats(c, x, y) && c(y).scoringValid
    ensures var files, all := OneFile(c, x), OneFile(c, x) + OneFile(c, y);
            PassDir(NewRun, all).scores != PassDir(PassDir(NewRun, files), all).scores
  {
    var f, files, all := File(y, c(y), true), OneFile(c, x), OneFile(c, x) + OneFile(c, y);
    TwoAreListed(c, x, y);
    BeatenOfTwo(c, x, y);
    assert files + [] == files && files + [f] + [] == all;
    BeatenAmongFacts(c, files, f, []);
    FirstPassScores(c, all, x);
    FirstPassScores(c, files, x);
    LateOlderReportIsNotScored(c, NewRun, files, f, []);
  }

  /** Two histories that end in the same disk with the same rows, and store different scores:
      both reports at once, or the later one first. */
  lemma ScoresDependOnHistory(c: Content, id: string, x: string, y: string)
    requires Rivals(c, x, y) && Beats(c, x, y) && c(y).scoringValid
    ensures var before, disk := Only(id, OneFile(c, x)), Only(id, OneFile(c, x) + OneFile(c, y));
            && id in After([] + [disk]) && id in After([before] + [disk])
            && RowsAgree(After([] + [disk]), After([before] + [disk]), id)
            && After([] + [disk])[id].scores != After([before] + [disk])[id].scores
  {
    var files, all := OneFile(c, x), OneFile(c, x) + OneFile(c, y);
    var before, disk := Only(id, files), Only(id, all);
    TwoAreListed(c, x, y);
    BeatenOfTwo(c, x, y);
    AllSettled(c, files);
    HistoryIndependence(c, [], [before], disk, id);
    AfterOneMore([], disk);
    PassOnly(After([]), id, all);
    AfterAlone(c, disk, id, x);
    TwoWaysToScore(c, x, y);
  }

  /** Such reports exist. */
  lemma ScoresDiffer(id: string)
    ensures exists one, two, disk :: id in After(one + [disk]) && id in After(two + [disk])
              && RowsAgree(After(one + [disk]), After(two + [disk]), id)
              && After(one + [disk])[id].scores != After(two + [disk])[id].scores
  {
    MixedCycle();
    ScoresDependOnHistory(Mixed, id, A, C);
  }

  // ---- sessions counted ----

  ghost predicate Shared(c: Content, disk: set<string>)
  {
    exists n, m :: n in disk && m in disk && Rivals(c, n, m)
  }

  function Listeners(names: set<string>): set<string>
  {
    set n | n in names && IsListener(n)
  }

  lemma NamesOfLast(files: seq<File>)
    requires files != []
    ensures Names(files) == Names(files[..|files| - 1]) + {files[|files| - 1].name}
  {
    var last, rest := files[|files| - 1].name, files[..|files| - 1];
    assert forall i :: 0 <= i < |rest| ==> rest[i] == files[i];
  }

  lemma ListenersOfLast(c: Content, files: seq<File>)
    requires files != [] && Listed(c, files)
    ensures var last, rest := files[|files| - 1].name, files[..|files| - 1];
            && Listed(c, rest) && last !in Names(rest)
            && Listeners(Names(files)) == Listeners(Names(rest)) + if IsListener(last) then {last} else {}
  {
    var last, rest := files[|files| - 1].name, files[..|files| - 1];
    assert forall i :: 0 <= i < |rest| ==> rest[i] == files[i] && rest[i].name != last;
    NamesOfLast(files);
  }

  lemma {:induction false} ScoredListenersCounted(c: Content, files: seq<File>)
    requires Listed(c, files)
    requires forall i :: 0 <= i < |files| && IsListener(files[i].name) ==>
               files[i].doc.scoringValid && files[i].doc.session.Some?
    ensures |ScoringListeners(files)| == |Listeners(Names(files))|
  {
    if files == [] {
      assert Names(files) == {};
    } else {
      ListenersOfLast(c, files);
      ScoredListenersCounted(c, files[..|files| - 1]);
    }
  }

  lemma SubsetSize(part: set<string>, whole: set<string>)
    requires part <= whole
    ensures |part| <= |whole| && (|part| == |whole| <==> part == whole)
  {
    assert whole == part + (whole - part);
    assert |whole| == |part| + |whole - part|;
  }

  // Every listener report on disk has a row exactly when none shares its session id.
  lemma AllHaveRows(c: Content, disk: set<string>, run: Run)
    requires Covers(c, disk, disk, run) && forall n :: n in Listeners(disk) ==> ListenerImportable(c, n)
    ensures run.sessions.Keys <= Listeners(disk)
    ensures run.sessions.Keys == Listeners(disk) <==> !Shared(c, disk)
  {
    if Shared(c, disk) {
      var n, m :| n in disk && m in disk && Rivals(c, n, m);
      assert n in Listeners(disk) && m in Listeners(disk);
    } else {
      forall n | n in Listeners(disk)
        ensures n in run.sessions
      {
        assert Represented(c, run, n);
        if Sid(c, n) != "" {
          var g :| g in run.sessions && Holds(run, Sid(c, n), g);
          assert !Rivals(c, g, n);
        }
      }
    }
  }

  /** With valid reports only, the number of scored sessions is the number of session rows
      exactly when no two reports on disk share a session id. */
  lemma SessionCountMatchesRows(c: Content, run: Run, files: seq<File>)
    requires Faithful(c, run) && Listed(c, files)
    requires forall i :: 0 <= i < |files| && IsListener(files[i].name) ==>
               files[i].doc.scoringValid && ListenerImportable(c, files[i].name)
    ensures ScoresOf(files).sessionCount == |PassDir(run, files).sessions| <==> !Shared(c, Names(files))
  {
    var disk, once := Names(files), PassDir(run, files);
    PassDirCovers(c, run, files);
    AllHaveRows(c, disk, once);
    ScoredListenersCounted(c, files);
    SubsetSize(once.sessions.Keys, Listeners(disk));
  }

}
