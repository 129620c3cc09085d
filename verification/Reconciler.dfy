/** The importer that keeps the dashboard's database in step with the reports on disk:
    a repeated pass that prunes rows of vanished files, imports new files one savepoint
    at a time, keeps one row per session id, and rescores what it touched. */
module Reconciler {
  import opened Wrappers
  import opened Text

  // ---- what is on disk ----

  datatype ResultRow = ResultRow(test: string, target: string, verdict: string, technique: Option<string>)

  type Measure = (string, string)

  datatype Session = Session(sid: string, startedAt: Option<int>, protocols: map<string, string>)

  // A parsed report.  `rows` and `session` are what the two parsers make of it, `fits`
  // says that its values fit the database columns, and the last two fields are what the
  // scoring loader makes of it.
  datatype Doc = Doc(
    rows: seq<ResultRow>, session: Option<Session>, fits: bool, scoringRows: seq<ResultRow>, scoringValid: bool)

  // `stable`: size and time did not change while the importer watched.
  datatype File = File(name: string, doc: Doc, stable: bool)

  predicate EndsWith(s: string, suffix: string)
  {
    |suffix| <= |s| && s[|s| - |suffix|..] == suffix
  }

  predicate IsSolo(name: string)
  {
    StartsWith(name, "server-solo-") && EndsWith(name, ".json")
  }

  predicate IsListener(name: string)
  {
    StartsWith(name, "server-listener-") && EndsWith(name, ".json")
  }

  // ---- what is in the database, for one test id ----

  datatype Scores = Scores(inputs: Option<(seq<ResultRow>, seq<Session>)>, sessionCount: nat)

  // Result rows are grouped by report file; each group and each session row, with its
  // protocol rows, comes and goes as one.
  datatype Run = Run(results: map<string, map<Measure, ResultRow>>, sessions: map<string, Session>, scores: Scores)

  const NewRun := Run(map[], map[], Scores(None, 0))

  // ---- importing one file under a savepoint ----

  function MeasureOf(r: ResultRow): Measure
  {
    (r.test, r.target)
  }

  // Adds the rows one by one; a repeated (test, target) violates the unique constraint.
  function InsertRows(rows: seq<ResultRow>, acc: map<Measure, ResultRow>): Option<map<Measure, ResultRow>>
  {
    if rows == [] then Some(acc)
    else if MeasureOf(rows[0]) in acc then None
    else InsertRows(rows[1..], acc[MeasureOf(rows[0]) := rows[0]])
  }

  function RowsOf(run: Run, name: string): map<Measure, ResultRow>
  {
    if name in run.results then run.results[name] else map[]
  }

  function ImportSolo(run: Run, f: File): (Run, bool)
  {
    var inserted := InsertRows(f.doc.rows, RowsOf(run, f.name));
    if f.doc.rows == [] || inserted.None? || !f.doc.fits then (run, false)
    else (run.(results := run.results[f.name := inserted.value]), true)
  }

  predicate ExistingIsNewer(existingName: string, existing: Session, newName: string, new_: Session)
  {
    if existing.startedAt.Some? && new_.startedAt.Some? then existing.startedAt.value >= new_.startedAt.value
    else !LexLess(existingName, newName)
  }

  predicate Holds(run: Run, sid: string, name: string)
  {
    name in run.sessions && run.sessions[name].sid == sid
  }

  predicate HeldTwice(run: Run, sid: string)
  {
    exists g, h :: g in run.sessions && h in run.sessions && g != h && Holds(run, sid, g) && Holds(run, sid, h)
  }

  predicate Held(run: Run, sid: string)
  {
    exists g :: g in run.sessions && Holds(run, sid, g)
  }

  // The row is inserted, unless a column overflows or the file already has a row.
  function InsertSession(run: Run, f: File): (Run, bool)
    requires f.doc.session.Some?
  {
    if !f.doc.fits || f.name in run.sessions then (run, false)
    else (run.(sessions := run.sessions[f.name := f.doc.session.value]), true)
  }

  // A failed insert rolls the deletion back with it.
  function Replace(run: Run, holder: string, f: File): (Run, bool)
    requires f.doc.session.Some? && holder in run.sessions
  {
    if ExistingIsNewer(holder, run.sessions[holder], f.name, f.doc.session.value) then (run, false)
    else
      var (run', ok) := InsertSession(run.(sessions := run.sessions - {holder}), f);
      if ok then (run', true) else (run, false)
  }

  ghost function ImportListener(run: Run, f: File): (Run, bool)
  {
    if f.doc.session.None? then (run, false)
    else
      var sid := f.doc.session.value.sid;
      if sid == "" || !Held(run, sid) then InsertSession(run, f)
      else if HeldTwice(run, sid) then (run, false)
      else
        var holder :| holder in run.sessions && Holds(run, sid, holder);
        Replace(run, holder, f)
  }

  ghost function ImportFile(run: Run, f: File): (Run, bool)
  {
    if IsSolo(f.name) then ImportSolo(run, f)
    else if IsListener(f.name) then ImportListener(run, f)
    else (run, false)
  }

  // ---- one pass over one directory ----

  function Names(files: seq<File>): set<string>
  {
    set i | 0 <= i < |files| :: files[i].name
  }

  function Imported(run: Run): set<string>
  {
    run.results.Keys + run.sessions.Keys
  }

  function Prune(run: Run, onDisk: set<string>): Run
  {
    run.(results := map n | n in run.results && n in onDisk :: run.results[n],
         sessions := map n | n in run.sessions && n in onDisk :: run.sessions[n])
  }

  ghost function PassFiles(run: Run, touched: bool, imported: set<string>, files: seq<File>): (Run, bool)
    decreases |files|
  {
    if files == [] then (run, touched)
    else if files[0].name in imported || !files[0].stable then PassFiles(run, touched, imported, files[1..])
    else
      var (run', added) := ImportFile(run, files[0]);
      PassFiles(run', touched || added, imported, files[1..])
  }

  // The latest solo file is the last one; listener reports count when they validate.
  function LatestSolo(files: seq<File>): seq<ResultRow>
  {
    if files == [] then []
    else if IsSolo(files[|files| - 1].name) then files[|files| - 1].doc.scoringRows
    else LatestSolo(files[..|files| - 1])
  }

  function ScoringListeners(files: seq<File>): seq<Session>
  {
    if files == [] then []
    else
      var f := files[|files| - 1];
      ScoringListeners(files[..|files| - 1])
      + if IsListener(f.name) && f.doc.scoringValid && f.doc.session.Some? then [f.doc.session.value] else []
  }

  function ScoresOf(files: seq<File>): Scores
  {
    var solo, listeners := LatestSolo(files), ScoringListeners(files);
    Scores(if solo == [] then None else Some((solo, listeners)), |listeners|)
  }

  ghost function PassDir(run: Run, files: seq<File>): Run
  {
    var orphans := Imported(run) - Names(files) != {};
    var (run', touched) := PassFiles(Prune(run, Names(files)), orphans, Imported(run), files);
    if touched then run'.(scores := ScoresOf(files)) else run'
  }

  // ---- one pass over the workspace ----

  type Database = map<string, Run>

  // A test directory: its report files in name order, and whether a run can be created
  // from its meta.yaml.
  datatype Dir = Dir(files: seq<File>, metaFits: bool)

  type Disk = map<string, Dir>

  function RunOf(db: Database, id: string): Run
  {
    if id in db then db[id] else NewRun
  }

  // The directory has a run after the pass: it holds a file, and its run was there or could
  // be created.
  predicate Present(db: Database, disk: Disk, id: string)
  {
    id in disk && disk[id].files != [] && (id in db || disk[id].metaFits)
  }

  // Emptied and vanished directories lose their run, with everything below it.
  ghost function Pass(db: Database, disk: Disk): Database
  {
    map id | id in disk && Present(db, disk, id) :: PassDir(RunOf(db, id), disk[id].files)
  }

  // The two databases hold the same run, or none, for `id`.
  ghost predicate Same(one: Database, two: Database, id: string)
  {
    (id in one <==> id in two) && (id in one ==> one[id] == two[id])
  }

  // Bringing one more directory to its goal leaves the others where they were.
  lemma Progress(start: Database, before: Database, after: Database, goal: Database, todo: set<string>,
                 disk: set<string>, id: string)
    requires id in todo && todo <= disk
    requires forall other :: other != id ==> Same(after, before, other)
    requires Same(after, goal, id)
    requires forall d :: d in disk && d !in todo ==> Same(before, goal, d)
    requires forall d :: d !in disk || d in todo ==> Same(before, start, d)
    ensures forall d :: d in disk && d !in todo - {id} ==> Same(after, goal, d)
    ensures forall d :: d !in disk || d in todo - {id} ==> Same(after, start, d)
  {
    forall d | d != id
      ensures Same(before, goal, d) ==> Same(after, goal, d)
      ensures Same(before, start, d) ==> Same(after, start, d)
    {
      assert Same(after, before, d);
    }
  }

  class Importer {
    var db: Database

    method TryImportOneFile(run: Run, f: File) returns (r: Run, added: bool)
      ensures (r, added) == ImportFile(run, f)
    {
      if IsSolo(f.name) {
        r, added := ImportSoloReport(run, f);
      } else if IsListener(f.name) {
        r, added := ImportListenerReport(run, f);
      } else {
        r, added := run, false;
      }
    }

    method ImportSoloReport(run: Run, f: File) returns (r: Run, added: bool)
      ensures (r, added) == ImportSolo(run, f)
    {
      var savepoint := run;
      if f.doc.rows == [] {
        return savepoint, false;
      }
      var group := RowsOf(run, f.name);
      for i := 0 to |f.doc.rows|
        invariant InsertRows(f.doc.rows[i..], group) == InsertRows(f.doc.rows, RowsOf(run, f.name))
      {
        var row := f.doc.rows[i];
        assert f.doc.rows[i..][1..] == f.doc.rows[i + 1..];
        if MeasureOf(row) in group {
          return savepoint, false;
        }
        group := group[MeasureOf(row) := row];
      }
      if !f.doc.fits {
        return savepoint, false;
      }
      r, added := run.(results := run.results[f.name := group]), true;
    }

    method ImportListenerReport(run: Run, f: File) returns (r: Run, added: bool)
      ensures (r, added) == ImportListener(run, f)
    {
      var savepoint := run;
      if f.doc.session.None? {
        return savepoint, false;
      }
      var new_ := f.doc.session.value;
      r := run;
      if new_.sid != "" && Held(run, new_.sid) {
        if HeldTwice(run, new_.sid) {
          return savepoint, false;
        }
        var holder :| holder in run.sessions && Holds(run, new_.sid, holder);
        if ExistingIsNewer(holder, run.sessions[holder], f.name, new_) {
          return savepoint, false;
        }
        r := r.(sessions := r.sessions - {holder});
      }
      if !f.doc.fits || f.name in r.sessions {
        return savepoint, false;
      }
      r := r.(sessions := r.sessions[f.name := new_]);
      added := true;
    }

    method ImportOneTestDir(id: string, dir: Dir)
      modifies this
      ensures db == if dir.files == [] then old(db) - {id}
                    else if id !in old(db) && !dir.metaFits then old(db)
                    else old(db)[id := PassDir(RunOf(old(db), id), dir.files)]
    {
      var files := dir.files;
      if files == [] {
        db := db - {id};
        return;
      }
      if id !in db && !dir.metaFits {
        return;
      }
      var before := RunOf(db, id);
      var imported := Imported(before);
      var touched := imported - Names(files) != {};
      var run := Prune(before, Names(files));
      for i := 0 to |files|
        invariant PassFiles(run, touched, imported, files[i..])
               == PassFiles(Prune(before, Names(files)), imported - Names(files) != {}, imported, files)
        invariant db == old(db)
      {
        assert files[i..][1..] == files[i + 1..];
        if files[i].name !in imported && files[i].stable {
          var added;
          run, added := TryImportOneFile(run, files[i]);
          touched := touched || added;
        }
      }
      if touched {
        run := run.(scores := ScoresOf(files));
      }
      db := db[id := run];
    }

    method ImportDirs(disk: Disk)
      modifies this
      ensures forall id :: id in disk ==> Same(db, Pass(old(db), disk), id)
      ensures forall id :: id !in disk ==> Same(db, old(db), id)
    {
      ghost var goal := Pass(db, disk);
      var todo := disk.Keys;
      while todo != {}
        invariant todo <= disk.Keys
        invariant forall id :: id in disk && id !in todo ==> Same(db, goal, id)
        invariant forall id :: id !in disk || id in todo ==> Same(db, old(db), id)
        decreases todo
      {
        var id :| id in todo;
        assert Same(db, old(db), id);
        ghost var before := db;
        ImportOneTestDir(id, disk[id]);
        Progress(old(db), before, db, goal, todo, disk.Keys, id);
        todo := todo - {id};
      }
    }

    method ReconcileMissingTestRuns(onDisk: set<string>) returns (deleted: nat)
      modifies this
      ensures db == map id | id in old(db) && id in onDisk :: old(db)[id]
      ensures deleted == |old(db).Keys - onDisk|
    {
      deleted := 0;
      var rows := db.Keys;
      ghost var gone: set<string> := {};
      while rows != {}
        invariant gone == old(db).Keys - rows - onDisk && rows <= old(db).Keys && deleted == |gone|
        invariant db == old(db) - gone
        decreases rows
      {
        var id :| id in rows;
        rows := rows - {id};
        if id !in onDisk {
          db := db - {id};
          deleted := deleted + 1;
          gone := gone + {id};
        }
      }
    }

    /** A missing reports directory is left alone. */
    method ImportOnce(reports: Option<Disk>)
      modifies this
      ensures db == if reports.None? then old(db) else Pass(old(db), reports.value)
    {
      if reports.Some? {
        ImportDirs(reports.value);
        var _ := ReconcileMissingTestRuns(reports.value.Keys);
      }
    }
  }
}
