/** What the importer guarantees over whole histories of disk states. */
module History {
  import opened Wrappers
  import opened Text
  import opened Reconciler

  // ---- write-once content ----

  // The report a file name stands for, in one directory, for all time.
  type Content = string -> Doc

  // File names are distinct, and a settled file holds its content; others may hold anything.
  ghost predicate Written(c: Content, files: seq<File>)
  {
    && (forall i :: 0 <= i < |files| && files[i].stable ==> files[i].doc == c(files[i].name))
    && (forall i, j :: 0 <= i < j < |files| ==> files[i].name != files[j].name)
  }

  // All files are settled.
  ghost predicate Listed(c: Content, files: seq<File>)
  {
    && (forall i :: 0 <= i < |files| ==> files[i].stable && files[i].doc == c(files[i].name))
    && (forall i, j :: 0 <= i < j < |files| ==> files[i].name != files[j].name)
  }

  ghost predicate SoloImportable(c: Content, n: string)
  {
    IsSolo(n) && c(n).rows != [] && InsertRows(c(n).rows, map[]).Some? && c(n).fits
  }

  ghost predicate ListenerImportable(c: Content, n: string)
  {
    IsListener(n) && c(n).session.Some? && c(n).fits
  }

  function Sid(c: Content, n: string): string
    requires c(n).session.Some?
  {
    c(n).session.value.sid
  }

  // Importable reports of one non-empty session id.
  ghost predicate Rivals(c: Content, n: string, m: string)
  {
    n != m && ListenerImportable(c, n) && ListenerImportable(c, m) && Sid(c, n) == Sid(c, m) && Sid(c, n) != ""
  }

  // The report `n` replaces the row of `m`.
  ghost predicate Beats(c: Content, n: string, m: string)
  {
    c(n).session.Some? && c(m).session.Some? && !ExistingIsNewer(m, c(m).session.value, n, c(n).session.value)
  }

  // `w` beats every other report of its session id on disk.
  ghost predicate Champion(c: Content, disk: set<string>, w: string)
  {
    && w in disk && ListenerImportable(c, w) && Sid(c, w) != ""
    && forall m :: m in disk && Rivals(c, w, m) ==> Beats(c, w, m)
  }

  ghost predicate HasChampion(c: Content, disk: set<string>, sid: string)
  {
    exists w :: Champion(c, disk, w) && Sid(c, w) == sid
  }

  ghost predicate HasChampions(c: Content, disk: set<string>)
  {
    forall n :: n in disk && ListenerImportable(c, n) && Sid(c, n) != "" ==> HasChampion(c, disk, Sid(c, n))
  }

  // The rows a disk stands for, whatever happened before.
  ghost predicate KeptSession(c: Content, disk: set<string>, n: string)
  {
    n in disk && ListenerImportable(c, n) && (Sid(c, n) == "" || Champion(c, disk, n))
  }

  ghost predicate Canonical(c: Content, disk: set<string>, run: Run)
  {
    && (forall n :: n in run.results <==> n in disk && SoloImportable(c, n))
    && (forall n :: n in run.results ==> Some(run.results[n]) == InsertRows(c(n).rows, map[]))
    && (forall n :: n in run.sessions <==> KeptSession(c, disk, n))
    && (forall n :: n in run.sessions ==> Some(run.sessions[n]) == c(n).session)
  }

  // ---- what every reachable run satisfies ----

  ghost predicate ResultsFaithful(c: Content, run: Run)
  {
    forall n :: n in run.results ==> SoloImportable(c, n) && Some(run.results[n]) == InsertRows(c(n).rows, map[])
  }

  ghost predicate SessionsFaithful(c: Content, run: Run)
  {
    forall n :: n in run.sessions ==> ListenerImportable(c, n) && Some(run.sessions[n]) == c(n).session
  }

  ghost predicate Rivalless(c: Content, run: Run)
  {
    forall n, m :: n in run.sessions && m in run.sessions ==> !Rivals(c, n, m)
  }

  ghost predicate Faithful(c: Content, run: Run)
  {
    ResultsFaithful(c, run) && SessionsFaithful(c, run) && Rivalless(c, run)
  }

  // What a considered listener report calls for: its own row, or one of its session id.
  ghost predicate Represented(c: Content, run: Run, n: string)
  {
    ListenerImportable(c, n) ==> if Sid(c, n) == "" then n in run.sessions else Held(run, Sid(c, n))
  }

  ghost predicate ResultsCover(c: Content, considered: set<string>, run: Run)
  {
    forall n :: n in considered && SoloImportable(c, n) ==> n in run.results
  }

  ghost predicate SessionsCover(c: Content, considered: set<string>, run: Run)
  {
    forall n :: n in considered ==> Represented(c, run, n)
  }

  ghost predicate ChampionsKept(c: Content, disk: set<string>, considered: set<string>, run: Run)
  {
    forall w :: w in considered && Champion(c, disk, w) ==> w in run.sessions
  }

  // `run` holds exactly what the files considered so far call for.
  ghost predicate Covers(c: Content, disk: set<string>, considered: set<string>, run: Run)
  {
    && Faithful(c, run)
    && Imported(run) <= considered <= disk
    && ResultsCover(c, considered, run)
    && SessionsCover(c, considered, run)
    && ChampionsKept(c, disk, considered, run)
  }

  lemma BeatsAsymmetric(c: Content, n: string, m: string)
    requires Beats(c, n, m)
    ensures !Beats(c, m, n)
  {
    if !(c(n).session.value.startedAt.Some? && c(m).session.value.startedAt.Some?) {
      LexAsymmetric(m, n);
    }
  }

  lemma SoloIsNotListener(n: string)
    requires IsSolo(n)
    ensures !IsListener(n)
  {
    assert n[..12][7] == 's';
    assert "server-listener-"[7] == 'l';
  }

  // ---- one import keeps the books ----

  lemma NotHeldTwice(c: Content, run: Run, sid: string)
    requires Faithful(c, run) && sid != ""
    ensures !HeldTwice(run, sid)
  {
    if HeldTwice(run, sid) {
      var g, h :| g in run.sessions && h in run.sessions && g != h && Holds(run, sid, g) && Holds(run, sid, h);
      assert Rivals(c, g, h);
    }
  }

  lemma SoloStep(c: Content, disk: set<string>, considered: set<string>, run: Run, f: File)
    requires Covers(c, disk, considered, run)
    requires f.name in disk - considered && f.doc == c(f.name) && IsSolo(f.name)
    ensures Covers(c, disk, considered + {f.name}, ImportSolo(run, f).0)
  {
    SoloIsNotListener(f.name);
    var run' := ImportSolo(run, f).0;
    assert f.name in run'.results <==> SoloImportable(c, f.name);
    SameSessionsRepresent(c, run, run', considered);
    assert !ListenerImportable(c, f.name);
    assert Represented(c, run', f.name);
    assert SessionsCover(c, considered + {f.name}, run');
    assert ChampionsKept(c, disk, considered + {f.name}, run');
  }

  lemma SameSessionsRepresent(c: Content, run: Run, run': Run, considered: set<string>)
    requires run'.sessions == run.sessions
    requires SessionsCover(c, considered, run)
    ensures SessionsCover(c, considered, run')
  {
    forall n | n in considered && ListenerImportable(c, n) && Sid(c, n) != ""
      ensures Held(run', Sid(c, n))
    {
      assert Represented(c, run, n);
      var g :| g in run.sessions && Holds(run, Sid(c, n), g);
      assert Holds(run', Sid(c, n), g);
    }
  }

  // The new row of a listener report, if it has one, has no rival left.
  lemma NewRowIsRivalless(c: Content, run: Run, run': Run, name: string)
    requires Rivalless(c, run)
    requires run'.sessions.Keys <= run.sessions.Keys + {name}
    requires forall m :: m in run'.sessions ==> !Rivals(c, name, m)
    ensures Rivalless(c, run')
  {
    forall n, m | n in run'.sessions && m in run'.sessions
      ensures !Rivals(c, n, m)
    {
      assert Rivals(c, n, m) == Rivals(c, m, n);
      assert n != name ==> !Rivals(c, name, n);
    }
  }

  lemma ListenerKeepsResults(c: Content, considered: set<string>, run: Run, run': Run, name: string)
    requires ResultsFaithful(c, run) && ResultsCover(c, considered, run)
    requires run'.results == run.results && IsListener(name)
    ensures ResultsFaithful(c, run') && ResultsCover(c, considered + {name}, run')
  {
    if IsSolo(name) {
      SoloIsNotListener(name);
    }
  }

  // A new row, for a session id that has none or is empty.
  lemma InsertStep(c: Content, disk: set<string>, considered: set<string>, run: Run, f: File)
    requires Covers(c, disk, considered, run)
    requires f.name in disk - considered && f.doc == c(f.name) && IsListener(f.name) && f.doc.session.Some?
    requires Sid(c, f.name) == "" || !Held(run, Sid(c, f.name))
    ensures Covers(c, disk, considered + {f.name}, InsertSession(run, f).0)
  {
    var run' := InsertSession(run, f).0;
    ListenerKeepsResults(c, considered, run, run', f.name);
    forall m | m in run'.sessions
      ensures !Rivals(c, f.name, m)
    {
      assert m != f.name && Sid(c, m) != "" ==> Holds(run, Sid(c, m), m);
    }
    NewRowIsRivalless(c, run, run', f.name);
    forall n | n in considered + {f.name}
      ensures Represented(c, run', n)
    {
      InsertRepresents(c, run, run', f.name, n);
    }
  }

  lemma InsertRepresents(c: Content, run: Run, run': Run, name: string, n: string)
    requires c(name).session.Some? && name !in run.sessions
    requires run'.sessions == if c(name).fits then run.sessions[name := c(name).session.value] else run.sessions
    requires n == name || Represented(c, run, n)
    ensures Represented(c, run', n)
  {
    if ListenerImportable(c, n) && Sid(c, n) != "" {
      if n == name {
        assert Holds(run', Sid(c, n), n);
      } else {
        var g :| g in run.sessions && Holds(run, Sid(c, n), g);
        assert Holds(run', Sid(c, n), g);
      }
    }
  }

  // What replacing the holder's row by that of `name`, if it beats it, leaves.
  function Replaced(c: Content, run: Run, holder: string, name: string): (r: map<string, Session>)
    requires c(name).session.Some? && holder in run.sessions
  {
    if c(name).fits && !ExistingIsNewer(holder, run.sessions[holder], name, c(name).session.value)
    then (run.sessions - {holder})[name := c(name).session.value]
    else run.sessions
  }

  // A row takes over from the holder of its session id, or does not.
  lemma ReplaceStep(c: Content, disk: set<string>, considered: set<string>, run: Run, f: File, holder: string)
    requires Covers(c, disk, considered, run)
    requires f.name in disk - considered && f.doc == c(f.name) && IsListener(f.name) && f.doc.session.Some?
    requires Sid(c, f.name) != "" && holder in run.sessions && Holds(run, Sid(c, f.name), holder)
    ensures Covers(c, disk, considered + {f.name}, Replace(run, holder, f).0)
  {
    var run' := Replace(run, holder, f).0;
    assert run'.sessions == Replaced(c, run, holder, f.name);
    ListenerKeepsResults(c, considered, run, run', f.name);
    ReplaceRivalless(c, run, run', f.name, holder);
    forall n | n in considered + {f.name}
      ensures Represented(c, run', n)
    {
      ReplaceRepresents(c, run, run', f.name, holder, n);
    }
    forall w | w in considered + {f.name} && Champion(c, disk, w)
      ensures w in run'.sessions
    {
      ReplaceKeepsChampion(c, disk, run, f.name, holder, w);
    }
  }

  lemma ReplaceRivalless(c: Content, run: Run, run': Run, name: string, holder: string)
    requires SessionsFaithful(c, run) && Rivalless(c, run) && IsListener(name) && c(name).session.Some?
    requires name !in run.sessions && Sid(c, name) != "" && holder in run.sessions && Holds(run, Sid(c, name), holder)
    requires run'.sessions == Replaced(c, run, holder, name)
    ensures Rivalless(c, run')
  {
    if run'.sessions != run.sessions {
      forall m | m in run'.sessions
        ensures !Rivals(c, name, m)
      {
        assert m != name ==> !Rivals(c, holder, m);
      }
      NewRowIsRivalless(c, run, run', name);
    }
  }

  lemma ReplaceRepresents(c: Content, run: Run, run': Run, name: string, holder: string, n: string)
    requires SessionsFaithful(c, run) && name !in run.sessions && c(name).session.Some?
    requires Sid(c, name) != "" && holder in run.sessions && Holds(run, Sid(c, name), holder)
    requires run'.sessions == Replaced(c, run, holder, name)
    requires n == name || Represented(c, run, n)
    ensures Represented(c, run', n)
  {
    if ListenerImportable(c, n) && Sid(c, n) != "" {
      if n != name {
        var g :| g in run.sessions && Holds(run, Sid(c, n), g);
        assert Holds(run', Sid(c, n), if g == holder && g !in run'.sessions then name else g);
      } else {
        assert Holds(run', Sid(c, n), if holder in run'.sessions then holder else name);
      }
    }
  }

  lemma ReplaceKeepsChampion(c: Content, disk: set<string>, run: Run, name: string, holder: string, w: string)
    requires SessionsFaithful(c, run) && IsListener(name) && c(name).session.Some? && name in disk - run.sessions.Keys
    requires Sid(c, name) != "" && holder in disk && holder in run.sessions && Holds(run, Sid(c, name), holder)
    requires Champion(c, disk, w) && (w == name || w in run.sessions)
    ensures w in Replaced(c, run, holder, name)
  {
    if w == name {
      assert Rivals(c, w, holder);
    } else if w == holder && c(name).fits && Beats(c, name, holder) {
      assert Rivals(c, w, name);
      BeatsAsymmetric(c, w, name);
    }
  }

  lemma ListenerStep(c: Content, disk: set<string>, considered: set<string>, run: Run, f: File)
    requires Covers(c, disk, considered, run)
    requires f.name in disk - considered && f.doc == c(f.name) && IsListener(f.name)
    ensures Covers(c, disk, considered + {f.name}, ImportListener(run, f).0)
  {
    if f.doc.session.None? {
      ListenerKeepsResults(c, considered, run, run, f.name);
      assert Represented(c, run, f.name);
    } else {
      var sid := Sid(c, f.name);
      if sid == "" || !Held(run, sid) {
        InsertStep(c, disk, considered, run, f);
      } else {
        NotHeldTwice(c, run, sid);
        forall holder | holder in run.sessions && Holds(run, sid, holder)
          ensures Covers(c, disk, considered + {f.name}, Replace(run, holder, f).0)
        {
          ReplaceStep(c, disk, considered, run, f, holder);
        }
      }
    }
  }

  lemma FileStep(c: Content, disk: set<string>, considered: set<string>, run: Run, f: File)
    requires Covers(c, disk, considered, run)
    requires f.name in disk - considered && f.doc == c(f.name)
    ensures Covers(c, disk, considered + {f.name}, ImportFile(run, f).0)
  {
    if IsSolo(f.name) {
      SoloStep(c, disk, considered, run, f);
    } else if IsListener(f.name) {
      ListenerStep(c, disk, considered, run, f);
    } else {
      assert Represented(c, run, f.name);
    }
  }

  // ---- one pass over a directory ----

  // The names of the settled files.
  function SettledNames(files: seq<File>): set<string>
  {
    set i | 0 <= i < |files| && files[i].stable :: files[i].name
  }

  lemma SettledNamesOfRest(files: seq<File>)
    requires files != []
    ensures SettledNames(files) == (if files[0].stable then {files[0].name} else {}) + SettledNames(files[1..])
  {
    var rest := files[1..];
    assert forall i :: 0 <= i < |rest| ==> rest[i] == files[i + 1];
    forall n | n in SettledNames(files) && !(files[0].stable && n == files[0].name)
      ensures n in SettledNames(rest)
    {
      var i :| 0 <= i < |files| && files[i].stable && files[i].name == n;
      assert rest[i - 1].name == n;
    }
  }

  lemma AllSettled(c: Content, files: seq<File>)
    requires Listed(c, files)
    ensures Written(c, files) && SettledNames(files) == Names(files)
  {
  }

  // The names skipped as already imported are the ones considered beforehand.
  ghost predicate Fresh(imported: set<string>, considered: set<string>, disk: set<string>, files: seq<File>)
  {
    forall i :: 0 <= i < |files| ==>
      files[i].name in disk && (files[i].name in imported <==> files[i].name in considered)
  }

  lemma FreshRest(c: Content, imported: set<string>, considered: set<string>, disk: set<string>, files: seq<File>)
    requires files != [] && Written(c, files) && Fresh(imported, considered, disk, files)
    ensures Written(c, files[1..])
    ensures Fresh(imported, considered, disk, files[1..])
    ensures Fresh(imported, considered + {files[0].name}, disk, files[1..])
  {
    var rest := files[1..];
    assert forall i :: 0 <= i < |rest| ==> rest[i] == files[i + 1];
  }

  lemma {:induction false} PassFilesCovers(c: Content, disk: set<string>, considered: set<string>, run: Run,
                                           touched: bool, imported: set<string>, files: seq<File>)
    requires Covers(c, disk, considered, run) && Written(c, files) && Fresh(imported, considered, disk, files)
    ensures Covers(c, disk, considered + SettledNames(files), PassFiles(run, touched, imported, files).0)
    decreases |files|
  {
    if files == [] {
      assert considered + SettledNames(files) == considered;
    } else {
      var f, rest := files[0], files[1..];
      SettledNamesOfRest(files);
      FreshRest(c, imported, considered, disk, files);
      if f.name in imported || !f.stable {
        assert considered + SettledNames(files) == considered + SettledNames(rest);
        PassFilesCovers(c, disk, considered, run, touched, imported, rest);
      } else {
        var considered' := considered + {f.name};
        assert considered + SettledNames(files) == considered' + SettledNames(rest);
        FileStep(c, disk, considered, run, f);
        var (run', added) := ImportFile(run, f);
        PassFilesCovers(c, disk, considered', run', touched || added, imported, rest);
      }
    }
  }

  // Pruning a faithful run leaves one that covers the files it already holds.
  lemma PruneCovers(c: Content, disk: set<string>, run: Run)
    requires Faithful(c, run)
    ensures var pruned := Prune(run, disk);
      Imported(pruned) == Imported(run) * disk && Covers(c, disk, Imported(pruned), pruned)
  {
    var pruned := Prune(run, disk);
    forall n | n in Imported(pruned)
      ensures Represented(c, pruned, n)
      ensures SoloImportable(c, n) ==> n in pruned.results
      ensures ListenerImportable(c, n) ==> n in pruned.sessions
    {
      if IsSolo(n) {
        SoloIsNotListener(n);
      }
      if n in pruned.sessions {
        assert Holds(pruned, Sid(c, n), n);
      }
    }
  }

  // The run one pass leaves covers what it kept and every settled file on disk.
  lemma PassDirCoversSettled(c: Content, run: Run, files: seq<File>)
    requires Faithful(c, run) && Written(c, files)
    ensures Covers(c, Names(files), Imported(run) * Names(files) + SettledNames(files), PassDir(run, files))
  {
    var disk, imported := Names(files), Imported(run);
    var pruned, orphans := Prune(run, disk), Imported(run) - Names(files) != {};
    PruneCovers(c, disk, run);
    PassFilesCovers(c, disk, Imported(pruned), pruned, orphans, imported, files);
    var (after, touched) := PassFiles(pruned, orphans, imported, files);
    var considered := imported * disk + SettledNames(files);
    assert Covers(c, disk, considered, after);
    if touched {
      ScoresAside(c, disk, considered, after, ScoresOf(files));
    }
  }

  // When every file is settled, it covers them all.
  lemma PassDirCovers(c: Content, run: Run, files: seq<File>)
    requires Faithful(c, run) && Listed(c, files)
    ensures Covers(c, Names(files), Names(files), PassDir(run, files))
  {
    AllSettled(c, files);
    PassDirCoversSettled(c, run, files);
    assert Imported(run) * Names(files) + SettledNames(files) == Names(files);
  }

  lemma ScoresAside(c: Content, disk: set<string>, considered: set<string>, run: Run, scores: Scores)
    requires Covers(c, disk, considered, run)
    ensures Covers(c, disk, considered, run.(scores := scores))
  {
    SameSessionsRepresent(c, run, run.(scores := scores), considered);
  }

  // Without rivals, the champion of a represented session id is the one that represents it.
  lemma CoveredKeeps(c: Content, disk: set<string>, run: Run, n: string)
    requires Covers(c, disk, disk, run) && HasChampions(c, disk)
    ensures n in run.sessions <==> KeptSession(c, disk, n)
  {
    assert n in disk ==> Represented(c, run, n);
    if n in run.sessions {
      if Sid(c, n) != "" {
        assert HasChampion(c, disk, Sid(c, n));
        var w :| Champion(c, disk, w) && Sid(c, w) == Sid(c, n);
        assert w in run.sessions;
        assert !Rivals(c, w, n);
      }
    }
  }

  lemma CoveredIsCanonical(c: Content, disk: set<string>, run: Run)
    requires Covers(c, disk, disk, run) && HasChampions(c, disk)
    ensures Canonical(c, disk, run)
  {
    assert forall n :: n in run.sessions <==> KeptSession(c, disk, n) by {
      forall n
        ensures n in run.sessions <==> KeptSession(c, disk, n)
      {
        CoveredKeeps(c, disk, run, n);
      }
    }
    assert ResultsFaithful(c, run) && ResultsCover(c, disk, run) && SessionsFaithful(c, run);
    assert Imported(run) <= disk;
  }

  /** Whatever the database held before, one pass leaves the rows the disk calls for. */
  lemma PassIsCanonical(c: Content, run: Run, files: seq<File>)
    requires Faithful(c, run) && Listed(c, files) && HasChampions(c, Names(files))
    ensures Canonical(c, Names(files), PassDir(run, files))
  {
    PassDirCovers(c, run, files);
    CoveredIsCanonical(c, Names(files), PassDir(run, files));
  }

  lemma CanonicalIsUnique(c: Content, disk: set<string>, one: Run, two: Run)
    requires Canonical(c, disk, one) && Canonical(c, disk, two)
    ensures one.results == two.results && one.sessions == two.sessions
  {
    assert one.results.Keys == two.results.Keys;
    assert one.sessions.Keys == two.sessions.Keys;
    assert forall n :: n in one.results ==> Some(one.results[n]) == Some(two.results[n]);
    assert forall n :: n in one.sessions ==> Some(one.sessions[n]) == Some(two.sessions[n]);
  }

  // ---- histories of the workspace ----

  // One directory over a history: whenever it is on disk, its settled files hold their content.
  ghost predicate WrittenAt(c: Content, history: seq<Disk>, id: string)
  {
    forall i :: 0 <= i < |history| && id in history[i] ==> Written(c, history[i][id].files)
  }

  ghost predicate FaithfulAt(c: Content, db: Database, id: string)
  {
    id in db ==> Faithful(c, db[id])
  }

  // The directory is on disk, settled, and every session id has its champion.
  ghost predicate DecidedAt(c: Content, disk: Disk, id: string)
  {
    id in disk && Listed(c, disk[id].files) && HasChampions(c, Names(disk[id].files))
  }

  // The database after one pass per disk state, oldest first.
  ghost function After(history: seq<Disk>): Database
  {
    if history == [] then map[] else Pass(After(history[..|history| - 1]), history[|history| - 1])
  }

  lemma AfterOneMore(history: seq<Disk>, disk: Disk)
    ensures After(history + [disk]) == Pass(After(history), disk)
  {
    assert (history + [disk])[..|history|] == history;
  }

  lemma {:induction false} AfterIsFaithful(c: Content, history: seq<Disk>, id: string)
    requires WrittenAt(c, history, id)
    ensures FaithfulAt(c, After(history), id)
  {
    if history != [] {
      var before, disk := history[..|history| - 1], history[|history| - 1];
      AfterIsFaithful(c, before, id);
      if id in After(history) {
        PassDirCoversSettled(c, RunOf(After(before), id), disk[id].files);
      }
    }
  }

  /** After any history, unsettled files on the way included, a directory has a run exactly
      when it holds a file and the run was there or could be created, and the run has
      exactly the rows the directory's files stand for.  No other directory matters. */
  lemma AfterIsCanonical(c: Content, history: seq<Disk>, disk: Disk, id: string)
    requires WrittenAt(c, history, id)
    ensures id in After(history + [disk]) <==>
              id in disk && disk[id].files != [] && (id in After(history) || disk[id].metaFits)
    ensures DecidedAt(c, disk, id) && id in After(history + [disk]) ==>
              Canonical(c, Names(disk[id].files), After(history + [disk])[id])
  {
    AfterOneMore(history, disk);
    AfterIsFaithful(c, history, id);
    if DecidedAt(c, disk, id) {
      PassIsCanonical(c, RunOf(After(history), id), disk[id].files);
    }
  }

  // The two databases hold the same result and session rows for the directory.
  ghost predicate RowsAgree(one: Database, two: Database, id: string)
  {
    && (id in one <==> id in two)
    && (id in one ==> one[id].results == two[id].results && one[id].sessions == two[id].sessions)
  }

  /** Two histories that end in the same disk end in the same rows for a directory, whatever
      the other directories hold, as long as its run can be created. */
  lemma HistoryIndependence(c: Content, one: seq<Disk>, two: seq<Disk>, disk: Disk, id: string)
    requires WrittenAt(c, one, id) && WrittenAt(c, two, id)
    requires id in disk ==> DecidedAt(c, disk, id) && disk[id].metaFits
    ensures RowsAgree(After(one + [disk]), After(two + [disk]), id)
  {
    AfterIsCanonical(c, one, disk, id);
    AfterIsCanonical(c, two, disk, id);
    if id in After(one + [disk]) {
      CanonicalIsUnique(c, Names(disk[id].files), After(one + [disk])[id], After(two + [disk])[id]);
    }
  }

  // ---- who the champion is ----

  function Start(c: Content, n: string): Option<int>
    requires c(n).session.Some?
  {
    c(n).session.value.startedAt
  }

  // Every report of a non-empty session id has a start time, and no two share it.
  ghost predicate TypedDistinct(c: Content, disk: set<string>)
  {
    && (forall n :: n in disk && ListenerImportable(c, n) && Sid(c, n) != "" ==> Start(c, n).Some?)
    && (forall n, m :: n in disk && m in disk && Rivals(c, n, m) ==> Start(c, n) != Start(c, m))
  }

  // Among some reports of one session id there is a latest.
  lemma {:induction false} LatestExists(c: Content, some: set<string>) returns (w: string)
    requires some != {} && forall n :: n in some ==> c(n).session.Some? && Start(c, n).Some?
    ensures w in some && forall n :: n in some ==> Start(c, n).value <= Start(c, w).value
    decreases some
  {
    w :| w in some;
    if some != {w} {
      var v := LatestExists(c, some - {w});
      w := if Start(c, v).value > Start(c, w).value then v else w;
    }
  }

  /** With start times that are present and distinct, every session id has a champion, and
      the champion is the report that started last. */
  lemma LatestReportIsChampion(c: Content, disk: set<string>)
    requires TypedDistinct(c, disk)
    ensures HasChampions(c, disk)
    ensures forall w, m :: Champion(c, disk, w) && m in disk && Rivals(c, w, m) ==>
              Start(c, m).value < Start(c, w).value
  {
    forall n | n in disk && ListenerImportable(c, n) && Sid(c, n) != ""
      ensures HasChampion(c, disk, Sid(c, n))
    {
      var group := set m | m in disk && ListenerImportable(c, m) && Sid(c, m) == Sid(c, n);
      assert n in group;
      var w := LatestExists(c, group);
      assert Champion(c, disk, w);
    }
    forall w, m | Champion(c, disk, w) && m in disk && Rivals(c, w, m)
      ensures Start(c, m).value < Start(c, w).value
    {
      assert Beats(c, w, m);
    }
  }

  lemma {:induction false} LastNameExists(some: set<string>) returns (w: string)
    requires some != {}
    ensures w in some && forall n :: n in some && n != w ==> LexLess(n, w)
    decreases some
  {
    w :| w in some;
    if some != {w} {
      var rest, first := some - {w}, w;
      var v := LastNameExists(rest);
      LexTotal(v, first);
      if LexLess(first, v) {
        w := v;
      } else {
        forall n | n in rest && n != v
          ensures LexLess(n, first)
        {
          LexTransitive(n, v, first);
        }
      }
    }
  }

  // No report of a non-empty session id has a start time.
  ghost predicate Untyped(c: Content, disk: set<string>)
  {
    forall n :: n in disk && ListenerImportable(c, n) && Sid(c, n) != "" ==> Start(c, n).None?
  }

  /** Without any start times every session id has a champion too: its last file name. */
  lemma LastNameIsChampion(c: Content, disk: set<string>)
    requires Untyped(c, disk)
    ensures HasChampions(c, disk)
    ensures forall w, m :: Champion(c, disk, w) && m in disk && Rivals(c, w, m) ==> LexLess(m, w)
  {
    forall n | n in disk && ListenerImportable(c, n) && Sid(c, n) != ""
      ensures HasChampion(c, disk, Sid(c, n))
    {
      var group := set m | m in disk && ListenerImportable(c, m) && Sid(c, m) == Sid(c, n);
      assert n in group;
      var w := LastNameExists(group);
      assert Champion(c, disk, w);
    }
    forall w, m | Champion(c, disk, w) && m in disk && Rivals(c, w, m)
      ensures LexLess(m, w)
    {
      assert Beats(c, w, m);
    }
  }

  // A row for every session id, and no report on disk later than the row's.
  ghost predicate HasRow(c: Content, run: Run, sid: string)
  {
    exists g :: g in run.sessions && c(g).session.Some? && Sid(c, g) == sid
  }

  ghost predicate EverySessionHasRow(c: Content, disk: set<string>, run: Run)
  {
    forall n :: n in disk && ListenerImportable(c, n) && Sid(c, n) != "" ==> HasRow(c, run, Sid(c, n))
  }

  ghost predicate RowsAreLatest(c: Content, disk: set<string>, run: Run)
  {
    forall g, m :: g in run.sessions && m in disk && Rivals(c, g, m) ==>
      m !in run.sessions && Start(c, m).Some? && Start(c, g).Some? && Start(c, m).value < Start(c, g).value
  }

  lemma CanonicalShowsTheLatest(c: Content, disk: set<string>, run: Run)
    requires TypedDistinct(c, disk) && Canonical(c, disk, run)
    ensures EverySessionHasRow(c, disk, run) && RowsAreLatest(c, disk, run)
  {
    LatestReportIsChampion(c, disk);
    forall n | n in disk && ListenerImportable(c, n) && Sid(c, n) != ""
      ensures HasRow(c, run, Sid(c, n))
    {
      assert HasChampion(c, disk, Sid(c, n));
      var g :| Champion(c, disk, g) && Sid(c, g) == Sid(c, n);
      assert KeptSession(c, disk, g);
    }
    forall g, m | g in run.sessions && m in disk && Rivals(c, g, m)
      ensures m !in run.sessions && Start(c, m).value < Start(c, g).value
    {
      assert KeptSession(c, disk, g);
      assert Rivals(c, m, g);
      assert m in run.sessions ==> KeptSession(c, disk, m);
    }
  }

  /** After any history there is one row per session id, and it is the latest report's. */
  lemma SessionsShowTheLatest(c: Content, history: seq<Disk>, disk: Disk, id: string)
    requires WrittenAt(c, history, id) && id in After(history + [disk])
    requires id in disk ==> Listed(c, disk[id].files) && TypedDistinct(c, Names(disk[id].files))
    ensures id in disk && EverySessionHasRow(c, Names(disk[id].files), After(history + [disk])[id])
    ensures RowsAreLatest(c, Names(disk[id].files), After(history + [disk])[id])
  {
    AfterIsCanonical(c, history, disk, id);
    LatestReportIsChampion(c, Names(disk[id].files));
    CanonicalShowsTheLatest(c, Names(disk[id].files), After(history + [disk])[id]);
  }

  // ---- when a pass settles ----

  // No other report of its session id on disk would replace the row.
  ghost predicate Unbeaten(c: Content, disk: set<string>, n: string)
  {
    forall m :: m in disk && Rivals(c, m, n) ==> !Beats(c, m, n)
  }

  ghost predicate AllUnbeaten(c: Content, disk: set<string>, run: Run)
  {
    forall n :: n in run.sessions ==> Unbeaten(c, disk, n)
  }

  lemma IdleListener(c: Content, disk: set<string>, run: Run, f: File)
    requires Covers(c, disk, disk, run) && AllUnbeaten(c, disk, run)
    requires f.name in disk - Imported(run) && f.doc == c(f.name) && IsListener(f.name)
    ensures ImportListener(run, f) == (run, false)
  {
    if f.doc.session.Some? && f.doc.fits {
      assert Represented(c, run, f.name);
      NotHeldTwice(c, run, Sid(c, f.name));
      forall holder | holder in run.sessions && Holds(run, Sid(c, f.name), holder)
        ensures Replace(run, holder, f) == (run, false)
      {
        assert Rivals(c, f.name, holder);
        assert Unbeaten(c, disk, holder);
      }
    }
  }

  lemma IdleFile(c: Content, disk: set<string>, run: Run, f: File)
    requires Covers(c, disk, disk, run) && AllUnbeaten(c, disk, run)
    requires f.name in disk - Imported(run) && f.doc == c(f.name)
    ensures ImportFile(run, f) == (run, false)
  {
    if IsSolo(f.name) {
      assert !SoloImportable(c, f.name);
    } else if IsListener(f.name) {
      IdleListener(c, disk, run, f);
    }
  }

  lemma {:induction false} IdleFiles(c: Content, disk: set<string>, run: Run, files: seq<File>)
    requires Covers(c, disk, disk, run) && AllUnbeaten(c, disk, run)
    requires forall i :: 0 <= i < |files| ==> files[i].name in disk && files[i].doc == c(files[i].name)
    ensures PassFiles(run, false, Imported(run), files) == (run, false)
    decreases |files|
  {
    if files != [] {
      if files[0].name !in Imported(run) {
        IdleFile(c, disk, run, files[0]);
      }
      IdleFiles(c, disk, run, files[1..]);
    }
  }

  // A row that was there when the pass began does not come back once it is gone.
  lemma {:induction false} StaysOut(c: Content, run: Run, touched: bool, imported: set<string>, files: seq<File>,
                                    n: string)
    requires n in imported && n !in run.sessions
    ensures n !in PassFiles(run, touched, imported, files).0.sessions
    decreases |files|
  {
    if files != [] {
      if files[0].name in imported || !files[0].stable {
        StaysOut(c, run, touched, imported, files[1..], n);
      } else {
        var (run', added) := ImportFile(run, files[0]);
        StaysOut(c, run', touched || added, imported, files[1..], n);
      }
    }
  }

  // Whoever beats the holder removes it, if it is still there.
  lemma Ousts(c: Content, run: Run, f: File, n: string)
    requires Faithful(c, run) && f.doc == c(f.name) && f.name !in run.sessions
    requires Rivals(c, f.name, n) && Beats(c, f.name, n)
    ensures n !in ImportFile(run, f).0.sessions
  {
    if IsSolo(f.name) {
      SoloIsNotListener(f.name);
    }
    if n in run.sessions {
      var sid := Sid(c, n);
      assert Holds(run, sid, n);
      NotHeldTwice(c, run, sid);
      forall holder | holder in run.sessions && Holds(run, sid, holder)
        ensures holder == n
      {
        assert !Rivals(c, holder, n);
      }
    }
  }

  lemma {:induction false} OustedInPass(c: Content, disk: set<string>, considered: set<string>, run: Run,
                                        touched: bool, imported: set<string>, files: seq<File>, n: string, m: string)
    requires Covers(c, disk, considered, run) && Written(c, files) && Fresh(imported, considered, disk, files)
    requires n in imported && m in SettledNames(files) - imported && Rivals(c, m, n) && Beats(c, m, n)
    ensures n !in PassFiles(run, touched, imported, files).0.sessions
    decreases |files|
  {
    var f, rest := files[0], files[1..];
    var considered' := considered + {f.name};
    SettledNamesOfRest(files);
    FreshRest(c, imported, considered, disk, files);
    if f.name in imported || !f.stable {
      OustedInPass(c, disk, considered, run, touched, imported, rest, n, m);
    } else {
      var (run', added) := ImportFile(run, f);
      if f.name == m {
        Ousts(c, run, f, n);
        StaysOut(c, run', touched || added, imported, rest, n);
      } else {
        FileStep(c, disk, considered, run, f);
        OustedInPass(c, disk, considered', run', touched || added, imported, rest, n, m);
      }
    }
  }

  lemma PruneNothing(run: Run, disk: set<string>)
    requires Imported(run) <= disk
    ensures Prune(run, disk) == run
  {
    var results := map n | n in run.results && n in disk :: run.results[n];
    var sessions := map n | n in run.sessions && n in disk :: run.sessions[n];
    forall n | n in run.results || n in run.sessions
      ensures n in disk
    {
      assert n in Imported(run);
    }
    assert results == run.results && sessions == run.sessions;
  }

  lemma NothingToDo(c: Content, run: Run, files: seq<File>)
    requires Listed(c, files) && Covers(c, Names(files), Names(files), run) && AllUnbeaten(c, Names(files), run)
    ensures PassDir(run, files) == run
  {
    assert Imported(run) - Names(files) == {};
    PruneNothing(run, Names(files));
    IdleFiles(c, Names(files), run, files);
  }

  lemma NothingToPrune(c: Content, disk: set<string>, run: Run)
    requires Faithful(c, run) && Imported(run) <= disk
    ensures Prune(run, disk) == run && Covers(c, disk, Imported(run), run)
  {
    PruneNothing(run, disk);
    PruneCovers(c, disk, run);
  }

  lemma HeldIsFresh(disk: set<string>, run: Run, files: seq<File>)
    requires disk == Names(files)
    ensures Fresh(Imported(run), Imported(run), disk, files)
  {
  }

  lemma Unsettled(c: Content, run: Run, files: seq<File>, n: string, m: string)
    requires Listed(c, files) && Faithful(c, run) && Imported(run) <= Names(files)
    requires n in run.sessions && m in Names(files) && Rivals(c, m, n) && Beats(c, m, n)
    ensures n !in PassDir(run, files).sessions
  {
    var disk, imported := Names(files), Imported(run);
    assert n in imported;
    assert m !in imported by {
      SoloIsNotRival(c, run, m, n);
    }
    NothingToPrune(c, disk, run);
    HeldIsFresh(disk, run, files);
    AllSettled(c, files);
    OustedInPass(c, disk, imported, run, imported - disk != {}, imported, files, n, m);
  }

  /** A second pass over an unchanged directory changes nothing exactly when no report on
      disk would replace a row of the first pass. */
  lemma SettlesExactly(c: Content, run: Run, files: seq<File>)
    requires Faithful(c, run) && Listed(c, files)
    ensures var once := PassDir(run, files);
            PassDir(once, files) == once <==> AllUnbeaten(c, Names(files), once)
  {
    var once := PassDir(run, files);
    PassDirCovers(c, run, files);
    if AllUnbeaten(c, Names(files), once) {
      NothingToDo(c, once, files);
    } else {
      var n :| n in once.sessions && !Unbeaten(c, Names(files), n);
      var m :| m in Names(files) && Rivals(c, m, n) && Beats(c, m, n);
      Unsettled(c, once, files, n, m);
    }
  }

  lemma SoloIsNotRival(c: Content, run: Run, m: string, n: string)
    requires ResultsFaithful(c, run) && Rivals(c, m, n)
    ensures m !in run.results
  {
    if m in run.results {
      SoloIsNotListener(m);
    }
  }

  // Of two rivals on disk, one beats the other.
  ghost predicate Decisive(c: Content, disk: set<string>)
  {
    forall n, m :: n in disk && m in disk && Rivals(c, n, m) ==> Beats(c, n, m) || Beats(c, m, n)
  }

  lemma UnbeatenIsChampion(c: Content, disk: set<string>, n: string)
    requires Decisive(c, disk) && n in disk && ListenerImportable(c, n) && Sid(c, n) != ""
    ensures Unbeaten(c, disk, n) <==> Champion(c, disk, n)
  {
    forall m | m in disk && n != m
      ensures Rivals(c, n, m) == Rivals(c, m, n)
      ensures Rivals(c, n, m) ==> (Beats(c, n, m) <==> !Beats(c, m, n))
    {
      if Rivals(c, n, m) && Beats(c, n, m) {
        BeatsAsymmetric(c, n, m);
      }
    }
  }

  lemma SettledHasChampions(c: Content, disk: set<string>, run: Run)
    requires Covers(c, disk, disk, run) && Decisive(c, disk) && AllUnbeaten(c, disk, run)
    ensures HasChampions(c, disk)
  {
    forall n | n in disk && ListenerImportable(c, n) && Sid(c, n) != ""
      ensures HasChampion(c, disk, Sid(c, n))
    {
      assert Represented(c, run, n);
      var g :| g in run.sessions && Holds(run, Sid(c, n), g);
      UnbeatenIsChampion(c, disk, g);
    }
  }

  lemma ChampionsAreUnbeaten(c: Content, disk: set<string>, run: Run)
    requires Covers(c, disk, disk, run) && HasChampions(c, disk)
    ensures AllUnbeaten(c, disk, run)
  {
    forall n | n in run.sessions
      ensures Unbeaten(c, disk, n)
    {
      CoveredKeeps(c, disk, run, n);
      forall m | m in disk && Rivals(c, m, n)
        ensures !Beats(c, m, n)
      {
        assert Rivals(c, n, m);
        BeatsAsymmetric(c, n, m);
      }
    }
  }

  /** Without ties, a second pass over an unchanged directory changes nothing exactly when
      every session id has a report that beats all its others. */
  lemma SettlesIffChampions(c: Content, run: Run, files: seq<File>)
    requires Faithful(c, run) && Listed(c, files) && Decisive(c, Names(files))
    ensures PassDir(PassDir(run, files), files) == PassDir(run, files) <==> HasChampions(c, Names(files))
  {
    var once := PassDir(run, files);
    PassDirCovers(c, run, files);
    SettlesExactly(c, run, files);
    if HasChampions(c, Names(files)) {
      ChampionsAreUnbeaten(c, Names(files), once);
    } else if AllUnbeaten(c, Names(files), once) {
      SettledHasChampions(c, Names(files), once);
    }
  }

  // Every two histories that end in the disk agree on the directory's rows.
  ghost predicate Independent(c: Content, disk: Disk, id: string)
  {
    forall one, two :: WrittenAt(c, one, id) && WrittenAt(c, two, id) ==>
      RowsAgree(After(one + [disk]), After(two + [disk]), id)
  }

  lemma AfterOneOrTwo(disk: Disk, id: string)
    requires id in disk && disk[id].files != [] && disk[id].metaFits
    ensures var once := PassDir(NewRun, disk[id].files);
            && id in After([] + [disk]) && After([] + [disk])[id] == once
            && id in After([disk] + [disk]) && After([disk] + [disk])[id] == PassDir(once, disk[id].files)
  {
    AfterOneMore([], disk);
    assert [] + [disk] == [disk];
    AfterOneMore([disk], disk);
  }

  lemma ChampionsAreIndependent(c: Content, disk: Disk, id: string)
    requires DecidedAt(c, disk, id) && disk[id].metaFits
    ensures Independent(c, disk, id)
  {
    forall one, two | WrittenAt(c, one, id) && WrittenAt(c, two, id)
      ensures RowsAgree(After(one + [disk]), After(two + [disk]), id)
    {
      HistoryIndependence(c, one, two, disk, id);
    }
  }

  // The report is beaten by none of its session id on disk, and each of the others is by one.
  ghost predicate SoleUnbeaten(c: Content, disk: set<string>, w: string)
  {
    && w in disk && ListenerImportable(c, w) && Sid(c, w) != "" && Unbeaten(c, disk, w)
    && forall m :: m in disk && Rivals(c, w, m) ==> !Unbeaten(c, disk, m)
  }

  ghost predicate HasSole(c: Content, disk: set<string>, sid: string)
  {
    exists w :: SoleUnbeaten(c, disk, w) && Sid(c, w) == sid
  }

  ghost predicate OneUnbeatenEach(c: Content, disk: set<string>)
  {
    forall n :: n in disk && ListenerImportable(c, n) && Sid(c, n) != "" ==> HasSole(c, disk, Sid(c, n))
  }

  // Where no report of a session id is unbeaten, one pass and two leave different rows.
  lemma OneOrTwoDiffer(c: Content, disk: Disk, id: string, n: string)
    requires id in disk && disk[id].files != [] && disk[id].metaFits && Listed(c, disk[id].files)
    requires n in Names(disk[id].files) && ListenerImportable(c, n) && Sid(c, n) != ""
    requires forall g :: g in Names(disk[id].files) && (g == n || Rivals(c, n, g)) ==>
               !Unbeaten(c, Names(disk[id].files), g)
    ensures !RowsAgree(After([] + [disk]), After([disk] + [disk]), id)
  {
    var names, once := Names(disk[id].files), PassDir(NewRun, disk[id].files);
    AfterOneOrTwo(disk, id);
    PassDirCovers(c, NewRun, disk[id].files);
    assert Represented(c, once, n);
    var g :| g in once.sessions && Holds(once, Sid(c, n), g);
    assert g in names && !Unbeaten(c, names, g);
    var m :| m in names && Rivals(c, m, g) && Beats(c, m, g);
    Unsettled(c, once, disk[id].files, g, m);
  }

  // An unbeaten row that is there stays.
  lemma ReplaceKeepsUnbeaten(c: Content, disk: set<string>, run: Run, f: File, holder: string, u: string)
    requires SessionsFaithful(c, run) && f.doc == c(f.name) && f.name in disk && f.name !in run.sessions
    requires IsListener(f.name) && f.doc.session.Some? && Sid(c, f.name) != ""
    requires holder in run.sessions && Holds(run, Sid(c, f.name), holder)
    requires u in run.sessions && Unbeaten(c, disk, u)
    ensures u in Replace(run, holder, f).0.sessions
  {
    if holder == u && f.doc.fits {
      assert Rivals(c, f.name, u);
    }
  }

  lemma UnbeatenStays(c: Content, disk: set<string>, run: Run, f: File, u: string)
    requires SessionsFaithful(c, run) && f.doc == c(f.name) && f.name in disk && f.name !in run.sessions
    requires u in run.sessions && Unbeaten(c, disk, u)
    ensures u in ImportFile(run, f).0.sessions
  {
    if IsListener(f.name) && !IsSolo(f.name) && f.doc.session.Some? && Sid(c, f.name) != "" {
      var sid := Sid(c, f.name);
      forall holder | holder in run.sessions && Holds(run, sid, holder)
        ensures u in Replace(run, holder, f).0.sessions
      {
        ReplaceKeepsUnbeaten(c, disk, run, f, holder, u);
      }
    }
  }

  lemma {:induction false} UnbeatenInPass(c: Content, disk: set<string>, considered: set<string>, run: Run,
                                          touched: bool, imported: set<string>, files: seq<File>, u: string)
    requires Covers(c, disk, considered, run) && Written(c, files) && Fresh(imported, considered, disk, files)
    requires u in run.sessions && Unbeaten(c, disk, u) && Sid(c, u) != ""
    ensures u in PassFiles(run, touched, imported, files).0.sessions
    decreases |files|
  {
    if files != [] {
      var f, rest := files[0], files[1..];
      FreshRest(c, imported, considered, disk, files);
      if f.name in imported || !f.stable {
        UnbeatenInPass(c, disk, considered, run, touched, imported, rest, u);
      } else {
        var (run', added) := ImportFile(run, f);
        FileStep(c, disk, considered, run, f);
        UnbeatenStays(c, disk, run, f, u);
        UnbeatenInPass(c, disk, considered + {f.name}, run', touched || added, imported, rest, u);
      }
    }
  }

  // A run that holds no row but the unbeaten one keeps it through a pass.
  lemma UnbeatenKept(c: Content, run: Run, files: seq<File>, u: string)
    requires Faithful(c, run) && Listed(c, files) && Imported(run) <= Names(files)
    requires u in run.sessions && Unbeaten(c, Names(files), u) && Sid(c, u) != ""
    ensures u in PassDir(run, files).sessions
  {
    var disk, imported := Names(files), Imported(run);
    NothingToPrune(c, disk, run);
    HeldIsFresh(disk, run, files);
    AllSettled(c, files);
    UnbeatenInPass(c, disk, imported, run, imported - disk != {}, imported, files, u);
  }

  function OneFile(c: Content, n: string): seq<File>
  {
    [File(n, c(n), true)]
  }

  // The directory `id` with these files, and nothing else in the workspace.
  function Only(id: string, files: seq<File>): Disk
  {
    map[id := Dir(files, true)]
  }

  lemma PassOnly(db: Database, id: string, files: seq<File>)
    requires files != []
    ensures id in Pass(db, Only(id, files)) && Pass(db, Only(id, files))[id] == PassDir(RunOf(db, id), files)
  {
  }

  // The report alone leaves its row, and no other.
  lemma AloneHolds(c: Content, u: string)
    requires ListenerImportable(c, u) && Sid(c, u) != ""
    ensures var once := PassDir(NewRun, OneFile(c, u));
      Faithful(c, once) && u in once.sessions && Imported(once) <= {u}
  {
    var alone := OneFile(c, u);
    assert alone[0].name == u && Names(alone) == {u};
    PassDirCovers(c, NewRun, alone);
    assert Champion(c, {u}, u);
  }

  lemma AfterAlone(c: Content, disk: Disk, id: string, u: string)
    requires id in disk && disk[id].files != []
    ensures var after := After([Only(id, OneFile(c, u))] + [disk]);
      id in after && after[id] == PassDir(PassDir(NewRun, OneFile(c, u)), disk[id].files)
  {
    var first := Only(id, OneFile(c, u));
    AfterOneMore([], first);
    assert [] + [first] == [first];
    AfterOneMore([first], disk);
    PassOnly(After([]), id, OneFile(c, u));
  }

  // A history whose last pass but one saw this report alone keeps its row.
  lemma FirstComeFirstKept(c: Content, disk: Disk, id: string, u: string)
    requires id in disk && disk[id].files != [] && Listed(c, disk[id].files)
    requires u in Names(disk[id].files) && ListenerImportable(c, u) && Sid(c, u) != ""
    requires Unbeaten(c, Names(disk[id].files), u)
    ensures WrittenAt(c, [Only(id, OneFile(c, u))], id)
    ensures var after := After([Only(id, OneFile(c, u))] + [disk]);
      id in after && Rivalless(c, after[id]) && u in after[id].sessions
  {
    var once := PassDir(NewRun, OneFile(c, u));
    AloneHolds(c, u);
    AfterAlone(c, disk, id, u);
    PassDirCovers(c, once, disk[id].files);
    UnbeatenKept(c, once, disk[id].files, u);
  }

  lemma RivalsNotBoth(c: Content, one: Database, two: Database, id: string, u: string, v: string)
    requires id in one && id in two && Rivalless(c, one[id]) && Rivals(c, u, v)
    requires u in one[id].sessions && v in two[id].sessions
    ensures !RowsAgree(one, two, id)
  {
  }

  lemma TwoUnbeatenDiffer(c: Content, disk: Disk, id: string, u: string, v: string)
    requires id in disk && disk[id].files != [] && Listed(c, disk[id].files)
    requires u in Names(disk[id].files) && v in Names(disk[id].files) && Rivals(c, u, v)
    requires Unbeaten(c, Names(disk[id].files), u) && Unbeaten(c, Names(disk[id].files), v)
    ensures !Independent(c, disk, id)
  {
    var one, two := [Only(id, OneFile(c, u))], [Only(id, OneFile(c, v))];
    FirstComeFirstKept(c, disk, id, u);
    FirstComeFirstKept(c, disk, id, v);
    RivalsNotBoth(c, After(one + [disk]), After(two + [disk]), id, u, v);
  }

  lemma WrittenOnce(c: Content, disk: Disk, id: string)
    requires id in disk && Listed(c, disk[id].files)
    ensures WrittenAt(c, [], id) && WrittenAt(c, [disk], id)
  {
    AllSettled(c, disk[id].files);
  }

  /** Whatever the start times: rows that are independent of the history need exactly one
      unbeaten report per session id.  With none they change on every pass; with two, the
      one that was imported first stays. */
  lemma IndependentNeedsOneUnbeaten(c: Content, disk: Disk, id: string)
    requires id in disk && disk[id].files != [] && disk[id].metaFits && Listed(c, disk[id].files)
    requires Independent(c, disk, id)
    ensures OneUnbeatenEach(c, Names(disk[id].files))
  {
    var names := Names(disk[id].files);
    forall n | n in names && ListenerImportable(c, n) && Sid(c, n) != ""
      ensures HasSole(c, names, Sid(c, n))
    {
      if w :| w in names && (w == n || Rivals(c, n, w)) && Unbeaten(c, names, w) {
        forall m | m in names && Rivals(c, w, m)
          ensures !Unbeaten(c, names, m)
        {
          if Unbeaten(c, names, m) {
            TwoUnbeatenDiffer(c, disk, id, w, m);
          }
        }
        assert SoleUnbeaten(c, names, w);
      } else {
        WrittenOnce(c, disk, id);
        OneOrTwoDiffer(c, disk, id, n);
      }
    }
  }

  // Reports that tie, neither beating the other, have only rivals with start times.
  ghost predicate TiesAreTyped(c: Content, disk: set<string>)
  {
    forall n, m, k :: n in disk && m in disk && k in disk && Tie(c, n, m) && Rivals(c, n, k) ==> Start(c, k).Some?
  }

  ghost predicate Tie(c: Content, n: string, m: string)
  {
    Rivals(c, n, m) && !Beats(c, n, m) && !Beats(c, m, n)
  }

  // Two that tie have equal start times, so a third with a start time that beats one beats both.
  lemma BeatsBoth(c: Content, w: string, m: string, k: string)
    requires Tie(c, w, m) && Rivals(c, k, m) && Beats(c, k, m) && Start(c, k).Some?
    ensures Beats(c, k, w)
  {
    LexTotal(w, m);
  }

  lemma SoleUnbeatenIsChampion(c: Content, disk: set<string>, w: string)
    requires TiesAreTyped(c, disk) && SoleUnbeaten(c, disk, w)
    ensures Champion(c, disk, w)
  {
    forall m | m in disk && Rivals(c, w, m)
      ensures Beats(c, w, m)
    {
      assert Rivals(c, m, w);
      if !Beats(c, w, m) {
        var k :| k in disk && Rivals(c, k, m) && Beats(c, k, m);
        assert Tie(c, w, m) && Rivals(c, w, k) && Rivals(c, k, w);
        BeatsBoth(c, w, m, k);
      }
    }
  }

  lemma SoleGivesChampion(c: Content, disk: set<string>, sid: string)
    requires TiesAreTyped(c, disk) && HasSole(c, disk, sid)
    ensures HasChampion(c, disk, sid)
  {
    var w :| SoleUnbeaten(c, disk, w) && Sid(c, w) == sid;
    SoleUnbeatenIsChampion(c, disk, w);
  }

  lemma OneUnbeatenGivesChampions(c: Content, disk: set<string>)
    requires TiesAreTyped(c, disk) && OneUnbeatenEach(c, disk)
    ensures HasChampions(c, disk)
  {
    forall n | n in disk && ListenerImportable(c, n) && Sid(c, n) != ""
      ensures HasChampion(c, disk, Sid(c, n))
    {
      SoleGivesChampion(c, disk, Sid(c, n));
    }
  }

  /** Unless a tie meets a report without a start time, a settled directory's rows are
      independent of its history if and only if every session id has a report that beats all
      its others; so reports that share the latest start time make them depend on it. */
  lemma IndependentIffChampions(c: Content, disk: Disk, id: string)
    requires id in disk && disk[id].files != [] && disk[id].metaFits
    requires Listed(c, disk[id].files) && TiesAreTyped(c, Names(disk[id].files))
    ensures Independent(c, disk, id) <==> HasChampions(c, Names(disk[id].files))
  {
    if HasChampions(c, Names(disk[id].files)) {
      ChampionsAreIndependent(c, disk, id);
    } else if Independent(c, disk, id) {
      IndependentNeedsOneUnbeaten(c, disk, id);
      OneUnbeatenGivesChampions(c, Names(disk[id].files));
    }
  }

  lemma SecondPassIdle(c: Content, db: Database, disk: Disk, id: string)
    requires id in Pass(db, disk) && FaithfulAt(c, db, id) && DecidedAt(c, disk, id)
    ensures Pass(Pass(db, disk), disk)[id] == Pass(db, disk)[id]
  {
    var files := disk[id].files;
    var once := PassDir(RunOf(db, id), files);
    PassDirCovers(c, RunOf(db, id), files);
    ChampionsAreUnbeaten(c, Names(files), once);
    NothingToDo(c, once, files);
  }

  lemma PassKeys(db: Database, disk: Disk)
    ensures Pass(db, disk).Keys == set id | id in disk && Present(db, disk, id)
  {
  }

  // What every directory's file names stand for, for all time.
  type Workspace = string -> Content

  lemma SameMap<K, V>(one: map<K, V>, two: map<K, V>)
    requires one.Keys == two.Keys && forall k :: k in one ==> one[k] == two[k]
    ensures one == two
  {
  }

  /** With champions, a second pass over an unchanged workspace changes nothing at all. */
  lemma SecondPassChangesNothing(w: Workspace, db: Database, disk: Disk)
    requires forall id :: id in db ==> FaithfulAt(w(id), db, id)
    requires forall id :: id in disk ==> DecidedAt(w(id), disk, id)
    ensures Pass(Pass(db, disk), disk) == Pass(db, disk)
  {
    var once := Pass(db, disk);
    PassKeys(db, disk);
    PassKeys(once, disk);
    forall id | id in once
      ensures Pass(once, disk)[id] == once[id]
    {
      SecondPassIdle(w(id), db, disk, id);
    }
    SameMap(once, Pass(once, disk));
  }

  // ---- mixing typed and missing start times ----

  function ListenerName(x: char): string
  {
    "server-listener-" + [x] + ".json"
  }

  const A := ListenerName('a')
  const B := ListenerName('b')
  const C := ListenerName('c')

  function OneSession(startedAt: Option<int>): Doc
  {
    Doc([], Some(Session("s", startedAt, map[])), true, [], true)
  }

  function Mixed(name: string): Doc
  {
    OneSession(if name == A then Some(5) else if name == C then Some(1) else None)
  }

  function ThreeFiles(c: Content, x: string, y: string, z: string): seq<File>
  {
    [File(x, c(x), true), File(y, c(y), true), File(z, c(z), true)]
  }

  lemma ListenerNamesInOrder(x: char, y: char)
    ensures IsListener(ListenerName(x))
    ensures LexLess(ListenerName(x), ListenerName(y)) == (x < y)
    ensures ListenerName(x) == ListenerName(y) ==> x == y
  {
    var name := ListenerName(x);
    assert |name| == 22 && name[17..] == ".json" && name[..16] == "server-listener-" && name[16] == x;
    assert name == "server-listener-" + ([x] + ".json");
    assert ListenerName(y) == "server-listener-" + ([y] + ".json");
    LexCommon("server-listener-", [x] + ".json", [y] + ".json");
    assert ListenerName(y)[16] == y;
    if x == y {
      LexIrreflexive([x] + ".json");
    }
  }

  lemma MixedRivals(x: char, y: char)
    requires x in "abc" && y in "abc" && x != y
    ensures Rivals(Mixed, ListenerName(x), ListenerName(y))
  {
    ListenerNamesInOrder(x, y);
    ListenerNamesInOrder(y, x);
  }

  lemma MixedCycle()
    ensures Rivals(Mixed, B, A) && Beats(Mixed, B, A)
    ensures Rivals(Mixed, C, B) && Beats(Mixed, C, B)
    ensures Rivals(Mixed, A, C) && Beats(Mixed, A, C)
  {
    MixedRivals('b', 'a');
    MixedRivals('c', 'b');
    MixedRivals('a', 'c');
    ListenerNamesInOrder('a', 'b');
    ListenerNamesInOrder('b', 'c');
    ListenerNamesInOrder('a', 'c');
  }

  lemma ThreeAreListed(c: Content, x: string, y: string, z: string)
    requires x != y && y != z && x != z
    ensures Listed(c, ThreeFiles(c, x, y, z)) && Names(ThreeFiles(c, x, y, z)) == {x, y, z}
  {
    var files := ThreeFiles(c, x, y, z);
    assert files[0].name == x && files[1].name == y && files[2].name == z;
  }

  // Three reports that beat each other in a circle.
  lemma CycleNeverSettles(c: Content, run: Run, x: string, y: string, z: string)
    requires Faithful(c, run)
    requires Rivals(c, y, x) && Beats(c, y, x)
    requires Rivals(c, z, y) && Beats(c, z, y)
    requires Rivals(c, x, z) && Beats(c, x, z)
    ensures var files := ThreeFiles(c, x, y, z);
            PassDir(PassDir(run, files), files).sessions != PassDir(run, files).sessions
  {
    var files := ThreeFiles(c, x, y, z);
    var once := PassDir(run, files);
    ThreeAreListed(c, x, y, z);
    PassDirCovers(c, run, files);
    assert Represented(c, once, x);
    var g :| g in once.sessions && Holds(once, Sid(c, x), g);
    Unsettled(c, once, files, g, if g == x then y else if g == y then z else x);
  }

  /** Three reports of one session, the middle one without a start time: whatever the rows
      were, the next pass over the same disk changes them again. */
  lemma MixedStartsNeverSettle(run: Run)
    requires Faithful(Mixed, run)
    ensures var files := ThreeFiles(Mixed, A, B, C);
            PassDir(PassDir(run, files), files).sessions != PassDir(run, files).sessions
  {
    MixedCycle();
    CycleNeverSettles(Mixed, run, A, B, C);
  }

  // ---- files as a whole ----

  // All of the file's rows, under distinct (test, target) pairs, and nothing else.
  ghost predicate AllRows(group: map<Measure, ResultRow>, rows: seq<ResultRow>)
  {
    && |group| == |rows|
    && (forall i :: 0 <= i < |rows| ==> MeasureOf(rows[i]) in group && group[MeasureOf(rows[i])] == rows[i])
    && DistinctMeasures(rows)
  }

  ghost predicate DistinctMeasures(rows: seq<ResultRow>)
  {
    forall i, j :: 0 <= i < j < |rows| ==> MeasureOf(rows[i]) != MeasureOf(rows[j])
  }

  /** A file is in the database with all its rows or with none; one that repeats a
      (test, target) pair is there with none. */
  lemma AllOrNothing(c: Content, history: seq<Disk>, id: string, n: string)
    requires WrittenAt(c, history, id)
    requires id in After(history) && n in After(history)[id].results
    ensures AllRows(After(history)[id].results[n], c(n).rows)
  {
    AfterIsFaithful(c, history, id);
    assert ResultsFaithful(c, After(history)[id]);
    InsertedExactly(c(n).rows, map[]);
  }

  lemma {:induction false} InsertedKeeps(rows: seq<ResultRow>, acc: map<Measure, ResultRow>)
    requires InsertRows(rows, acc).Some?
    ensures var all := InsertRows(rows, acc).value;
            |all| == |acc| + |rows| && forall k :: k in acc ==> k in all && all[k] == acc[k]
  {
    if rows != [] {
      var k := MeasureOf(rows[0]);
      InsertedKeeps(rows[1..], acc[k := rows[0]]);
      assert acc[k := rows[0]].Keys == acc.Keys + {k};
    }
  }

  lemma {:induction false} InsertedHolds(rows: seq<ResultRow>, acc: map<Measure, ResultRow>, i: nat)
    requires InsertRows(rows, acc).Some? && i < |rows|
    ensures var all := InsertRows(rows, acc).value;
            MeasureOf(rows[i]) !in acc && MeasureOf(rows[i]) in all && all[MeasureOf(rows[i])] == rows[i]
  {
    var next := acc[MeasureOf(rows[0]) := rows[0]];
    if i == 0 {
      InsertedKeeps(rows[1..], next);
    } else {
      InsertedHolds(rows[1..], next, i - 1);
    }
  }

  lemma {:induction false} InsertedDistinct(rows: seq<ResultRow>, acc: map<Measure, ResultRow>)
    requires InsertRows(rows, acc).Some?
    ensures DistinctMeasures(rows)
  {
    if rows != [] {
      var next := acc[MeasureOf(rows[0]) := rows[0]];
      InsertedDistinct(rows[1..], next);
      forall j | 0 < j < |rows|
        ensures rows[j] == rows[1..][j - 1] && MeasureOf(rows[j]) !in next
      {
        InsertedHolds(rows[1..], next, j - 1);
      }
    }
  }

  lemma InsertedExactly(rows: seq<ResultRow>, acc: map<Measure, ResultRow>)
    requires InsertRows(rows, acc).Some?
    ensures var all := InsertRows(rows, acc).value;
            |all| == |acc| + |rows| && forall i :: 0 <= i < |rows| ==>
              MeasureOf(rows[i]) in all && all[MeasureOf(rows[i])] == rows[i]
    ensures DistinctMeasures(rows)
  {
    InsertedKeeps(rows, acc);
    InsertedDistinct(rows, acc);
    forall i | 0 <= i < |rows|
      ensures var all := InsertRows(rows, acc).value; MeasureOf(rows[i]) in all && all[MeasureOf(rows[i])] == rows[i]
    {
      InsertedHolds(rows, acc, i);
    }
  }

  lemma {:induction false} DistinctInsert(rows: seq<ResultRow>, acc: map<Measure, ResultRow>)
    requires DistinctMeasures(rows) && forall i :: 0 <= i < |rows| ==> MeasureOf(rows[i]) !in acc
    ensures InsertRows(rows, acc).Some?
  {
    if rows != [] {
      assert forall i :: 0 < i < |rows| ==> rows[i] == rows[1..][i - 1];
      DistinctInsert(rows[1..], acc[MeasureOf(rows[0]) := rows[0]]);
    }
  }

  /** A solo report is imported exactly when it has rows, its values fit and no (test, target)
      pair repeats. */
  lemma SoloImportableExactly(c: Content, n: string)
    ensures SoloImportable(c, n) <==> IsSolo(n) && c(n).rows != [] && c(n).fits && DistinctMeasures(c(n).rows)
  {
    if InsertRows(c(n).rows, map[]).Some? {
      InsertedExactly(c(n).rows, map[]);
    } else if DistinctMeasures(c(n).rows) {
      DistinctInsert(c(n).rows, map[]);
    }
  }
}
