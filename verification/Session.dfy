/** The listener's session endpoint: handler threads, the main thread and what they
    share.  Each locked section and each event operation is one atomic step; a run is
    any interleaving of such steps. */
module Session {
  import opened Wrappers
  import opened Models

  type Peer = string
  type Snapshots = map<string, SnapshotEntry>
  type Rates = map<string, real>

  const MAX_SERVES := 1

  // ---- the shared fields and the atomic sections over them ----

  datatype Shared = Shared(
    serves: nat,
    clientIp: Option<Peer>,
    final: Option<Snapshots>,
    drained: bool,
    rates: Rates,
    bound: bool,           // the main loop's event has been attached
    stopRequested: bool,
    signalled: bool)       // ... and it has been set

  const Fresh := Shared(MAX_SERVES, None, None, false, map[], false, false, false)

  function Grant(sh: Shared, peer: Peer): (r: (Shared, bool))
  {
    if sh.serves == 0 then (sh, false)
    else (sh.(serves := sh.serves - 1, clientIp := if sh.clientIp.None? then Some(peer) else sh.clientIp), true)
  }

  function Committing(sh: Shared, snapshots: Snapshots): Shared
  {
    sh.(final := Some(snapshots))
  }

  function Draining(sh: Shared): Shared
  {
    sh.(drained := true)
  }

  function Merging(sh: Shared, posted: Rates): Shared
  {
    sh.(rates := sh.rates + posted)
  }

  // The event becomes visible; the answer says whether a stop had been requested before.
  function Attach(sh: Shared): (r: (Shared, bool))
  {
    (sh.(bound := true), sh.stopRequested)
  }

  function Requesting(sh: Shared): Shared
  {
    sh.(stopRequested := true)
  }

  function Signalling(sh: Shared, known: bool): Shared
  {
    sh.(signalled := sh.signalled || known)
  }

  class CredServer {
    var serves: nat
    var clientIp: Option<Peer>
    var final: Option<Snapshots>
    var drained: bool
    var rates: Rates
    var bound: bool
    var stopRequested: bool
    var signalled: bool

    constructor ()
      ensures View() == Fresh
    {
      serves, clientIp, final, drained, rates := MAX_SERVES, None, None, false, map[];
      bound, stopRequested, signalled := false, false, false;
    }

    function View(): Shared
      reads this
    {
      Shared(serves, clientIp, final, drained, rates, bound, stopRequested, signalled)
    }

    method ServeCredsLocked(peer: Peer) returns (granted: bool)
      modifies this
      ensures (View(), granted) == Grant(old(View()), peer)
    {
      if serves == 0 {
        return false;
      }
      serves := serves - 1;
      if clientIp.None? {
        clientIp := Some(peer);
      }
      granted := true;
    }

    method CommitFinalSnapshots(snapshots: Snapshots)
      modifies this
      ensures View() == Committing(old(View()), snapshots)
    {
      final := Some(snapshots);
    }

    method SnapshotDrained()
      modifies this
      ensures View() == Draining(old(View()))
    {
      drained := true;
    }

    method MergeRates(posted: Rates)
      modifies this
      ensures View() == Merging(old(View()), posted)
    {
      rates := rates + posted;
    }

    method BindLocked() returns (alreadySet: bool)
      modifies this
      ensures (View(), alreadySet) == Attach(old(View()))
    {
      bound := true;
      alreadySet := stopRequested;
    }

    method RequestStop()
      modifies this
      ensures View() == Requesting(old(View()))
    {
      stopRequested := true;
    }

    method Signal(known: bool)
      modifies this
      ensures View() == Signalling(old(View()), known)
    {
      if known {
        signalled := true;
      }
    }
  }

  // ---- threads and steps ----

  datatype Thread =
    | Idle
    | CredsGranted(peer: Peer)
    | SnapshotSeen(seen: Snapshots)
    | SnapshotWritten
    | Stop(pc: nat, knows: bool)     // inside the /stop handler, at instruction `pc`
    | Finished

  datatype Binder = Unbound | InBind(alreadySet: bool) | Bound(alreadySet: bool)

  datatype Event =
    | CredsLocked(h: nat, peer: Peer)
    | CredsWrite(h: nat)
    | SnapshotLocked(h: nat)
    | SnapshotWrite(h: nat)
    | SnapshotDrain(h: nat)
    | Commit(snapshots: Snapshots)
    | StopPost(h: nat, posted: Rates)
    | StopStep(h: nat, op: StopOp)
    | Bind
    | BindTail

  // The /stop handler after it has merged the posted rates.
  datatype StopOp = ReadEvent | Acknowledge | SetFlag | Wake

  datatype Order = AsWritten | FlagFirst

  function Program(order: Order): (ops: seq<StopOp>)
    ensures |ops| == 4 && ops[3] == Wake
  {
    match order
    case AsWritten => [ReadEvent, Acknowledge, SetFlag, Wake]
    case FlagFirst => [SetFlag, ReadEvent, Acknowledge, Wake]
  }

  datatype State = State(
    shared: Shared,
    threads: map<nat, Thread>,
    binder: Binder,
    grants: seq<Peer>,          // /creds answers granted, in order
    replies: seq<Snapshots>)    // bodies of the /snapshot 200 answers written, in order

  const Init := State(Fresh, map[], Unbound, [], [])

  function At(s: State, h: nat): Thread
  {
    if h in s.threads then s.threads[h] else Idle
  }

  function Put(s: State, h: nat, t: Thread): State
  {
    s.(threads := s.threads[h := t])
  }

  // The successor state, or None when the thread is not at that step.
  function Step(order: Order, s: State, e: Event): Option<State>
  {
    match e
    case CredsLocked(h, peer) =>
      if At(s, h) != Idle then None
      else
        var (shared, granted) := Grant(s.shared, peer);
        if granted then Some(Put(s, h, CredsGranted(peer)).(shared := shared, grants := s.grants + [peer]))
        else Some(Put(s, h, Finished))
    case CredsWrite(h) =>
      if At(s, h).CredsGranted? then Some(Put(s, h, Finished)) else None
    case SnapshotLocked(h) =>
      if At(s, h) != Idle then None
      else if s.shared.final.None? then Some(Put(s, h, Finished))
      else Some(Put(s, h, SnapshotSeen(s.shared.final.value)))
    case SnapshotWrite(h) =>
      if At(s, h).SnapshotSeen? then Some(Put(s, h, SnapshotWritten).(replies := s.replies + [At(s, h).seen])) else None
    case SnapshotDrain(h) =>
      if At(s, h).SnapshotWritten? then Some(Put(s, h, Finished).(shared := Draining(s.shared))) else None
    case Commit(snapshots) =>
      // the main thread commits once, after every responder has stopped
      if s.shared.final.None? then Some(s.(shared := Committing(s.shared, snapshots))) else None
    case StopPost(h, posted) =>
      if At(s, h) != Idle then None
      else Some(Put(s, h, Stop(0, false)).(shared := Merging(s.shared, posted)))
    case StopStep(h, op) =>
      if At(s, h).Stop? && At(s, h).pc < 4 && Program(order)[At(s, h).pc] == op then Some(StopAdvance(s, h, op))
      else None
    case Bind =>
      if !s.binder.Unbound? then None
      else
        var (shared, alreadySet) := Attach(s.shared);
        Some(s.(binder := InBind(alreadySet), shared := shared))
    case BindTail =>
      if s.binder.InBind? then
        Some(s.(binder := Bound(s.binder.alreadySet), shared := Signalling(s.shared, s.binder.alreadySet)))
      else None
  }

  function StopAdvance(s: State, h: nat, op: StopOp): State
    requires At(s, h).Stop?
  {
    var t := At(s, h);
    match op
    case ReadEvent => Put(s, h, Stop(t.pc + 1, s.shared.bound))
    case Acknowledge => Put(s, h, t.(pc := t.pc + 1))
    case SetFlag => Put(s, h, t.(pc := t.pc + 1)).(shared := Requesting(s.shared))
    case Wake => Put(s, h, t.(pc := t.pc + 1)).(shared := Signalling(s.shared, t.knows))
  }

  function Run(order: Order, es: seq<Event>): Option<State>
  {
    if es == [] then Some(Init)
    else
      var before := Run(order, es[..|es| - 1]);
      if before.None? then None else Step(order, before.value, es[|es| - 1])
  }

  // ---- the runs are the object's ----

  // One step of some thread, performed on the object by the section it executes.
  method Perform(server: CredServer, order: Order, s: State, e: Event) returns (after: State)
    requires server.View() == s.shared && Step(order, s, e).Some?
    modifies server
    ensures Some(after) == Step(order, s, e) && server.View() == after.shared
  {
    match e {
      case CredsLocked(_, peer) => var _ := server.ServeCredsLocked(peer);
      case SnapshotDrain(_) => server.SnapshotDrained();
      case Commit(snapshots) => server.CommitFinalSnapshots(snapshots);
      case StopPost(_, posted) => server.MergeRates(posted);
      case StopStep(_, SetFlag) => server.RequestStop();
      case StopStep(h, Wake) => server.Signal(At(s, h).knows);
      case Bind => var _ := server.BindLocked();
      case BindTail => server.Signal(s.binder.alreadySet);
      case _ =>
    }
    after := Step(order, s, e).value;
  }

  /** Whatever the threads do in whatever order, the object's fields are those of the run. */
  method PerformAll(order: Order, es: seq<Event>) returns (server: CredServer, s: State)
    requires Run(order, es).Some?
    ensures fresh(server) && Run(order, es) == Some(s) && server.View() == s.shared
  {
    server := new CredServer();
    s := Init;
    PrefixesRun(order, es, 0);
    assert es[..0] == [];
    for i := 0 to |es|
      invariant Run(order, es[..i]) == Some(s) && server.View() == s.shared
    {
      PrefixesRun(order, es, i + 1);
      assert es[..i + 1][..i] == es[..i];
      s := Perform(server, order, s, es[i]);
    }
    assert es[..|es|] == es;
  }

  lemma {:induction false} PrefixesRun(order: Order, es: seq<Event>, k: nat)
    requires k <= |es| && Run(order, es).Some?
    ensures Run(order, es[..k]).Some?
  {
    if k == |es| {
      assert es[..k] == es;
    } else {
      var before := es[..|es| - 1];
      PrefixesRun(order, before, k);
      assert before[..k] == es[..k];
    }
  }

  // ---- credentials and snapshots, over every interleaving ----

  ghost predicate CredsInv(s: State)
  {
    && |s.grants| + s.shared.serves == MAX_SERVES
    && s.shared.clientIp == if s.grants == [] then None else Some(s.grants[0])
  }

  ghost predicate SnapshotInv(s: State)
  {
    && (forall h :: h in s.threads && s.threads[h].SnapshotSeen? ==> s.shared.final == Some(s.threads[h].seen))
    && (forall i :: 0 <= i < |s.replies| ==> s.shared.final == Some(s.replies[i]))
    && (forall h :: h in s.threads && s.threads[h].SnapshotWritten? ==> s.replies != [])
    && (s.shared.drained ==> s.replies != [])
  }

  lemma StepKeepsCreds(order: Order, s: State, e: Event)
    requires CredsInv(s) && Step(order, s, e).Some?
    ensures CredsInv(Step(order, s, e).value)
  {}

  lemma StepKeepsSnapshots(order: Order, s: State, e: Event)
    requires SnapshotInv(s) && Step(order, s, e).Some?
    ensures SnapshotInv(Step(order, s, e).value)
  {
    var s' := Step(order, s, e).value;
    assert s.shared.final.Some? ==> s'.shared.final == s.shared.final;
    assert s'.replies == s.replies || (e.SnapshotWrite? && s'.replies == s.replies + [At(s, e.h).seen]);
  }

  /** On every run: at most one credential grant, recorded as the client; a snapshot
      answer is written only after the commit and carries the committed map; and the
      drained flag means such an answer was written. */
  lemma {:induction false} EveryRunKeepsInvariants(order: Order, es: seq<Event>)
    requires Run(order, es).Some?
    ensures var s := Run(order, es).value;
      && |s.grants| + s.shared.serves == 1
      && (s.shared.clientIp.Some? <==> |s.grants| == 1)
      && (s.shared.clientIp.Some? ==> s.shared.clientIp.value == s.grants[0])
      && (forall i :: 0 <= i < |s.replies| ==> s.shared.final == Some(s.replies[i]))
      && (s.shared.drained ==> s.replies != [])
    ensures CredsInv(Run(order, es).value) && SnapshotInv(Run(order, es).value)
  {
    if es != [] {
      EveryRunKeepsInvariants(order, es[..|es| - 1]);
      StepKeepsCreds(order, Run(order, es[..|es| - 1]).value, es[|es| - 1]);
      StepKeepsSnapshots(order, Run(order, es[..|es| - 1]).value, es[|es| - 1]);
    }
  }

  lemma StepFinal(order: Order, s: State, e: Event)
    requires Step(order, s, e).Some?
    ensures var s' := Step(order, s, e).value;
      s'.shared.final == s.shared.final || (e.Commit? && s'.shared.final == Some(e.snapshots))
  {}

  // Whatever has been committed was committed by an event of the trace.
  lemma {:induction false} CommittedInTrace(order: Order, es: seq<Event>)
    requires Run(order, es).Some?
    ensures Run(order, es).value.shared.final.Some? ==> Commit(Run(order, es).value.shared.final.value) in es
  {
    if es != [] {
      var before, e := es[..|es| - 1], es[|es| - 1];
      CommittedInTrace(order, before);
      StepFinal(order, Run(order, before).value, e);
    }
  }

  /** Every /snapshot 200 follows a commit of the very map it carries. */
  lemma RepliesFollowCommit(order: Order, es: seq<Event>, i: nat)
    requires Run(order, es).Some? && i < |Run(order, es).value.replies|
    ensures Commit(Run(order, es).value.replies[i]) in es
  {
    EveryRunKeepsInvariants(order, es);
    CommittedInTrace(order, es);
  }

  // ---- what does happen ----

  // The peer of the first credential request.
  function FirstRequest(es: seq<Event>): Option<Peer>
  {
    if es == [] then None
    else
      var before, e := FirstRequest(es[..|es| - 1]), es[|es| - 1];
      if before.None? && e.CredsLocked? then Some(e.peer) else before
  }

  lemma StepGrants(order: Order, s: State, e: Event)
    requires Step(order, s, e).Some? && CredsInv(s)
    ensures var s' := Step(order, s, e).value;
      s'.grants == if e.CredsLocked? && s.grants == [] then [e.peer] else s.grants
  {}

  /** Exactly the first request is granted, and its peer is the client. */
  lemma {:induction false} GrantsExactly(order: Order, es: seq<Event>)
    requires Run(order, es).Some?
    ensures var s := Run(order, es).value;
      && s.grants == (if FirstRequest(es).None? then [] else [FirstRequest(es).value])
      && s.shared.clientIp == FirstRequest(es)
  {
    EveryRunKeepsInvariants(order, es);
    if es != [] {
      var before := es[..|es| - 1];
      GrantsExactly(order, before);
      EveryRunKeepsInvariants(order, before);
      StepGrants(order, Run(order, before).value, es[|es| - 1]);
    }
  }

  // What the last post that had the name said.
  function LastRate(es: seq<Event>, name: string): Option<real>
  {
    if es == [] then None
    else
      var e := es[|es| - 1];
      if e.StopPost? && name in e.posted then Some(e.posted[name]) else LastRate(es[..|es| - 1], name)
  }

  /** The stored rates are exactly the posted ones, for every name as last posted. */
  lemma {:induction false} RatesExactly(order: Order, es: seq<Event>, name: string)
    requires Run(order, es).Some?
    ensures var rates := Run(order, es).value.shared.rates;
      LastRate(es, name) == if name in rates then Some(rates[name]) else None
  {
    if es != [] {
      RatesExactly(order, es[..|es| - 1], name);
      StepRates(order, Run(order, es[..|es| - 1]).value, es[|es| - 1]);
    }
  }

  /** A snapshot request after the commit is answered with the committed map, written and then
      drained; one before it is refused. */
  lemma CommittedIsServed(order: Order, s: State, h: nat)
    requires At(s, h) == Idle
    ensures var seen := Step(order, s, SnapshotLocked(h));
      && seen.Some? && (s.shared.final.None? ==> seen.value == Put(s, h, Finished))
      && (s.shared.final.Some? ==>
            var written := Step(order, seen.value, SnapshotWrite(h));
            && written.Some? && written.value.replies == s.replies + [s.shared.final.value]
            && var drained := Step(order, written.value, SnapshotDrain(h));
            && drained.Some? && drained.value.shared.drained && At(drained.value, h) == Finished)
  {
  }

  /** What is final is what the trace committed. */
  lemma {:induction false} FinalExactly(order: Order, es: seq<Event>, snapshots: Snapshots)
    requires Run(order, es).Some?
    ensures Run(order, es).value.shared.final == Some(snapshots) <==> Commit(snapshots) in es
  {
    if es != [] {
      var before, e := es[..|es| - 1], es[|es| - 1];
      FinalExactly(order, before, snapshots);
      assert es == before + [e];
      CommittedInTrace(order, before);
      StepFinal(order, Run(order, before).value, e);
      FinalStays(order, Run(order, before).value, e);
    }
  }

  lemma FinalStays(order: Order, s: State, e: Event)
    requires Step(order, s, e).Some?
    ensures s.shared.final.Some? ==> Step(order, s, e).value.shared.final == s.shared.final && !e.Commit?
    ensures e.Commit? ==> Step(order, s, e).value.shared.final == Some(e.snapshots)
  {
  }

  // ---- posted rates ----

  function LastPost(es: seq<Event>): Option<Rates>
  {
    if es == [] then None
    else if es[|es| - 1].StopPost? then Some(es[|es| - 1].posted)
    else LastPost(es[..|es| - 1])
  }

  lemma StepRates(order: Order, s: State, e: Event)
    requires Step(order, s, e).Some?
    ensures Step(order, s, e).value.shared.rates == s.shared.rates + (if e.StopPost? then e.posted else map[])
  {
    var s' := Step(order, s, e).value;
    assert !e.StopPost? ==> s'.shared.rates == s.shared.rates;
  }

  lemma {:induction false} LastPostIsStored(order: Order, es: seq<Event>)
    requires Run(order, es).Some? && LastPost(es).Some?
    ensures Run(order, es).value.shared.rates + LastPost(es).value == Run(order, es).value.shared.rates
  {
    var before, e := es[..|es| - 1], es[|es| - 1];
    StepRates(order, Run(order, before).value, e);
    if !e.StopPost? {
      LastPostIsStored(order, before);
    }
  }

  /** A retried /stop: posting the map that was posted last changes nothing stored,
      whatever other threads did in between. */
  lemma RepeatedPostIsIdempotent(order: Order, es: seq<Event>, h: nat)
    requires Run(order, es).Some? && LastPost(es).Some?
    requires Step(order, Run(order, es).value, StopPost(h, LastPost(es).value)).Some?
    ensures var s := Run(order, es).value;
      Step(order, s, StopPost(h, LastPost(es).value)).value.shared == s.shared
  {
    LastPostIsStored(order, es);
  }

  // ---- the stop wake-up ----

  ghost predicate BindBeforeRead(es: seq<Event>)
  {
    exists i, j :: 0 <= i < j < |es| && es[i] == Bind && es[j].StopStep? && es[j].op == ReadEvent
  }

  ghost predicate FlagBeforeBind(es: seq<Event>)
  {
    exists i, j :: 0 <= i < j < |es| && es[i].StopStep? && es[i].op == SetFlag && es[j] == Bind
  }

  ghost predicate FlagSeen(es: seq<Event>)
  {
    exists i :: 0 <= i < |es| && es[i].StopStep? && es[i].op == SetFlag
  }

  // Every /stop that was begun has run to its end, and so has the bind.
  ghost predicate Quiet(s: State)
  {
    && s.binder.Bound?
    && forall h :: h in s.threads && s.threads[h].Stop? ==> s.threads[h].pc >= 4
  }

  ghost predicate SomeThreadKnows(s: State)
  {
    exists h :: h in s.threads && s.threads[h].Stop? && s.threads[h].knows
  }

  ghost predicate SomeThreadWoke(s: State)
  {
    exists h :: h in s.threads && s.threads[h].Stop? && s.threads[h].knows && s.threads[h].pc >= 4
  }

  ghost predicate AlreadySet(b: Binder)
  {
    !b.Unbound? && b.alreadySet
  }

  // What the fields say about the trace so far.
  ghost predicate Explains(es: seq<Event>, s: State)
  {
    && (s.shared.bound <==> !s.binder.Unbound?)
    && (s.shared.bound <==> Bind in es)
    && (s.shared.stopRequested <==> FlagSeen(es))
    && (SomeThreadKnows(s) <==> BindBeforeRead(es))
    && (AlreadySet(s.binder) <==> FlagBeforeBind(es))
    && (s.shared.signalled <==> SomeThreadWoke(s) || (s.binder.Bound? && s.binder.alreadySet))
  }

  lemma TraceGrows(es: seq<Event>, e: Event)
    ensures Bind in es + [e] <==> Bind in es || e == Bind
    ensures FlagSeen(es + [e]) <==> FlagSeen(es) || (e.StopStep? && e.op == SetFlag)
    ensures BindBeforeRead(es + [e]) <==> BindBeforeRead(es) || (Bind in es && e.StopStep? && e.op == ReadEvent)
    ensures FlagBeforeBind(es + [e]) <==> FlagBeforeBind(es) || (FlagSeen(es) && e == Bind)
  {
    var es' := es + [e];
    assert forall i :: 0 <= i < |es| ==> es'[i] == es[i];
    if Bind in es && e.StopStep? && e.op == ReadEvent {
      var i :| 0 <= i < |es| && es[i] == Bind;
      assert es'[i] == Bind && es'[|es|] == e;
    }
    if FlagSeen(es) && e == Bind {
      var i :| 0 <= i < |es| && es[i].StopStep? && es[i].op == SetFlag;
      assert es'[i].StopStep? && es'[|es|] == Bind;
    }
    if e.StopStep? && e.op == SetFlag {
      assert es'[|es|] == e;
    }
    if BindBeforeRead(es) {
      var i, j :| 0 <= i < j < |es| && es[i] == Bind && es[j].StopStep? && es[j].op == ReadEvent;
      assert es'[i] == Bind && es'[j] == es[j];
    }
    if FlagBeforeBind(es) {
      var i, j :| 0 <= i < j < |es| && es[i].StopStep? && es[i].op == SetFlag && es[j] == Bind;
      assert es'[i] == es[i] && es'[j] == Bind;
    }
  }

  // How one step changes who knows and who woke.
  lemma ThreadsAfterStep(order: Order, s: State, e: Event)
    requires Step(order, s, e).Some?
    requires SomeThreadKnows(s) ==> s.shared.bound
    ensures var s' := Step(order, s, e).value;
      && (SomeThreadKnows(s') <==> SomeThreadKnows(s) || (e.StopStep? && e.op == ReadEvent && s.shared.bound))
      && (SomeThreadWoke(s') <==> SomeThreadWoke(s) || (e.StopStep? && e.op == Wake && At(s, e.h).knows))
  {
    var s' := Step(order, s, e).value;
    if SomeThreadKnows(s) {
      var h :| h in s.threads && s.threads[h].Stop? && s.threads[h].knows;
      assert s'.threads[h].Stop? && s'.threads[h].knows;
    }
    if SomeThreadWoke(s) {
      var h :| h in s.threads && s.threads[h].Stop? && s.threads[h].knows && s.threads[h].pc >= 4;
      assert s'.threads[h] == s.threads[h];
    }
    if e.StopStep? {
      var t := s'.threads[e.h];
      assert t.pc >= 4 <==> e.op == Wake;
      assert t.Stop? && t.knows == if e.op == ReadEvent then s.shared.bound else At(s, e.h).knows;
    }
  }

  // How one step changes the shared stop fields.
  lemma FieldsAfterStep(order: Order, s: State, e: Event)
    requires Step(order, s, e).Some?
    ensures var s' := Step(order, s, e).value;
      && (s'.shared.bound <==> s.shared.bound || e == Bind)
      && (s'.shared.stopRequested <==> s.shared.stopRequested || (e.StopStep? && e.op == SetFlag))
      && s'.binder == (if e == Bind then InBind(s.shared.stopRequested)
                       else if e == BindTail then Bound(s.binder.alreadySet) else s.binder)
      && (e == Bind ==> s.binder.Unbound?) && (e == BindTail ==> s.binder.InBind?)
      && (s'.shared.signalled <==>
            s.shared.signalled || (e == BindTail && s.binder.alreadySet)
            || (e.StopStep? && e.op == Wake && At(s, e.h).knows))
  {}

  lemma StepExplains(order: Order, es: seq<Event>, s: State, e: Event)
    requires Explains(es, s) && Step(order, s, e).Some?
    ensures Explains(es + [e], Step(order, s, e).value)
  {
    TraceGrows(es, e);
    assert BindBeforeRead(es) ==> Bind in es;
    ThreadsAfterStep(order, s, e);
    FieldsAfterStep(order, s, e);
  }

  lemma {:induction false} RunExplains(order: Order, es: seq<Event>, s: State)
    requires Run(order, es) == Some(s)
    ensures Explains(es, s)
  {
    if es == [] {
      InitExplained(s);
    } else {
      var before, e := es[..|es| - 1], es[|es| - 1];
      var s0 := Run(order, before).value;
      RunExplains(order, before, s0);
      StepExplains(order, before, s0, e);
      assert es == before + [e];
    }
  }

  lemma InitExplained(s: State)
    requires s == Init
    ensures Explains([], s)
  {
  }

  /** The exact condition: once every /stop and the bind have finished, the main loop
      has been woken if and only if some handler read the bound event after the bind,
      or some handler set the flag before the bind's locked section. */
  lemma SignalledExactly(order: Order, es: seq<Event>)
    requires Run(order, es).Some? && Quiet(Run(order, es).value)
    ensures Run(order, es).value.shared.signalled <==> BindBeforeRead(es) || FlagBeforeBind(es)
  {
    var s := Run(order, es).value;
    RunExplains(order, es, s);
    assert SomeThreadKnows(s) <==> SomeThreadWoke(s);
  }

  // ---- the handler as written can lose a stop ----

  // Handler `h` reads the event just before the bind, and sets the flag just after it.
  function LostStop(h: nat, posted: Rates): seq<Event>
  {
    [StopPost(h, posted)] + [StopStep(h, ReadEvent)] + [Bind] + [BindTail]
    + [StopStep(h, Acknowledge)] + [StopStep(h, SetFlag)] + [StopStep(h, Wake)]
  }

  // The state of a run with one handler: its thread, the binder, and the three flags.
  ghost predicate Alone(h: nat, es: seq<Event>, t: Thread, binder: Binder, bound: bool, requested: bool,
                        signalled: bool)
  {
    var r := Run(AsWritten, es);
    && r.Some? && At(r.value, h) == t && r.value.threads.Keys <= {h} && r.value.binder == binder
    && r.value.shared.bound == bound && r.value.shared.stopRequested == requested
    && r.value.shared.signalled == signalled
  }

  lemma RunSteps(order: Order, es: seq<Event>, e: Event)
    ensures Run(order, es + [e]) == if Run(order, es).None? then None else Step(order, Run(order, es).value, e)
  {
    assert (es + [e])[..|es|] == es;
  }

  lemma AlonePosts(h: nat, posted: Rates)
    ensures Alone(h, [StopPost(h, posted)], Stop(0, false), Unbound, false, false, false)
  {
    RunSteps(AsWritten, [], StopPost(h, posted));
    assert [] + [StopPost(h, posted)] == [StopPost(h, posted)];
  }

  lemma AloneStops(h: nat, es: seq<Event>, pc: nat, knows: bool, op: StopOp, binder: Binder, bound: bool,
                   requested: bool, signalled: bool)
    requires Alone(h, es, Stop(pc, knows), binder, bound, requested, signalled)
    requires pc < 4 && Program(AsWritten)[pc] == op
    ensures Alone(h, es + [StopStep(h, op)], Stop(pc + 1, if op.ReadEvent? then bound else knows), binder, bound,
                  requested || op.SetFlag?, signalled || (op.Wake? && knows))
  {
    RunSteps(AsWritten, es, StopStep(h, op));
  }

  lemma AloneBinds(h: nat, es: seq<Event>, t: Thread, requested: bool)
    requires Alone(h, es, t, Unbound, false, requested, false)
    ensures Alone(h, es + [Bind] + [BindTail], t, Bound(requested), true, requested, requested)
  {
    RunSteps(AsWritten, es, Bind);
    RunSteps(AsWritten, es + [Bind], BindTail);
  }

  lemma AloneIsLost(h: nat, es: seq<Event>)
    requires Alone(h, es, Stop(1, false), Bound(false), true, false, false)
    ensures Alone(h, es + [StopStep(h, Acknowledge)] + [StopStep(h, SetFlag)] + [StopStep(h, Wake)],
                  Stop(4, false), Bound(false), true, true, false)
  {
    var acknowledged := es + [StopStep(h, Acknowledge)];
    AloneStops(h, es, 1, false, Acknowledge, Bound(false), true, false, false);
    AloneStops(h, acknowledged, 2, false, SetFlag, Bound(false), true, false, false);
    AloneStops(h, acknowledged + [StopStep(h, SetFlag)], 3, false, Wake, Bound(false), true, true, false);
  }

  /** An acknowledged /stop that completes and yet never wakes the main loop. */
  lemma AcknowledgedStopIsLost(h: nat, posted: Rates)
    ensures Run(AsWritten, LostStop(h, posted)).Some?
    ensures var s := Run(AsWritten, LostStop(h, posted)).value;
      && Quiet(s) && At(s, h) == Stop(4, false)
      && s.shared.stopRequested && !s.shared.signalled
    ensures StopStep(h, Acknowledge) in LostStop(h, posted)
  {
    var posts := [StopPost(h, posted)];
    var read := posts + [StopStep(h, ReadEvent)];
    AlonePosts(h, posted);
    AloneStops(h, posts, 0, false, ReadEvent, Unbound, false, false, false);
    AloneBinds(h, read, Stop(1, false), false);
    AloneIsLost(h, read + [Bind] + [BindTail]);
  }

  // ---- setting the flag before the locked read repairs it ----

  ghost predicate FlagFirstInv(s: State)
  {
    && (s.shared.bound <==> !s.binder.Unbound?)
    && (s.shared.signalled <== s.binder.Bound? && s.binder.alreadySet)
    && forall h :: h in s.threads && s.threads[h].Stop? ==>
         && (s.threads[h].pc >= 1 ==> s.shared.stopRequested)
         && (s.threads[h].pc >= 2 && !s.threads[h].knows && s.shared.bound ==> AlreadySet(s.binder))
         && (s.threads[h].pc >= 4 && s.threads[h].knows ==> s.shared.signalled)
  }

  lemma StepKeepsFlagFirst(s: State, e: Event)
    requires FlagFirstInv(s) && Step(FlagFirst, s, e).Some?
    ensures FlagFirstInv(Step(FlagFirst, s, e).value)
  {
    FieldsAfterStep(FlagFirst, s, e);
  }

  lemma {:induction false} RunKeepsFlagFirst(es: seq<Event>)
    requires Run(FlagFirst, es).Some?
    ensures FlagFirstInv(Run(FlagFirst, es).value)
  {
    if es != [] {
      RunKeepsFlagFirst(es[..|es| - 1]);
      StepKeepsFlagFirst(Run(FlagFirst, es[..|es| - 1]).value, es[|es| - 1]);
    }
  }

  /** With the flag set first, on every run and for every completed /stop: once the
      bind has completed, the main loop has been woken. */
  lemma NoStopIsLostFlagFirst(es: seq<Event>, h: nat)
    requires Run(FlagFirst, es).Some?
    requires var s := Run(FlagFirst, es).value; At(s, h).Stop? && At(s, h).pc == 4 && s.binder.Bound?
    ensures Run(FlagFirst, es).value.shared.signalled
  {
    RunKeepsFlagFirst(es);
  }

  // ---- the body of POST /stop ----

  // A value of the decoded JSON object.  Python counts a boolean as a number, and
  // testing an integer beyond the range of a float for finiteness raises.
  datatype Json = Number(v: real) | Boolean(b: bool) | NonFinite | HugeInteger | NotANumber

  function Rate(j: Json): (r: Option<real>)
    ensures r.Some? ==> r.value > 0.0
  {
    match j
    case Number(v) => if v > 0.0 then Some(v) else None
    case Boolean(b) => if b then Some(1.0) else None
    case _ => None
  }

  // The body: absent; not UTF-8 or not JSON; JSON the decoder gives up on otherwise, nested too
  // deep or holding an integer of more than 4300 digits; a value that is no object; an object,
  // with what it has under client_throughput: an object again, or something else or nothing.
  // The entries of a decoded object have distinct keys.
  datatype Body =
    | NoBody
    | Malformed
    | GivenUp
    | NotObject
    | Object(entries: Option<seq<(string, Json)>>)

  function Posted(body: Body): seq<(string, Json)>
  {
    if body.Object? && body.entries.Some? then body.entries.value else []
  }

  // `out` holds the entries that are rates, and nothing else: a positive number as it was posted,
  // and true for one.
  ghost predicate RatesOf(items: seq<(string, Json)>, out: Rates)
  {
    && (forall i :: 0 <= i < |items| ==>
          match items[i].1
          case Number(v) => if v > 0.0 then items[i].0 in out && out[items[i].0] == v else items[i].0 !in out
          case Boolean(b) => if b then items[i].0 in out && out[items[i].0] == 1.0 else items[i].0 !in out
          case _ => items[i].0 !in out)
    && forall k :: k in out ==> exists i :: 0 <= i < |items| && items[i].0 == k
  }

  function With(out: Rates, item: (string, Json)): Rates
  {
    if Rate(item.1).Some? then out[item.0 := Rate(item.1).value] else out
  }

  lemma RatesOfOneMore(items: seq<(string, Json)>, last: (string, Json), out: Rates)
    requires RatesOf(items, out) && forall i :: 0 <= i < |items| ==> items[i].0 != last.0
    ensures RatesOf(items + [last], With(out, last))
  {
    var all, after := items + [last], With(out, last);
    forall k | k in after
      ensures exists i :: 0 <= i < |all| && all[i].0 == k
    {
      if k in out {
        var i :| 0 <= i < |items| && items[i].0 == k;
        assert all[i].0 == k;
      } else {
        assert all[|items|].0 == k;
      }
    }
  }

  method KeepRates(items: seq<(string, Json)>) returns (r: Result<Rates, ()>)
    requires forall i, j :: 0 <= i < j < |items| ==> items[i].0 != items[j].0
    ensures r.Err? <==> exists i :: 0 <= i < |items| && items[i].1.HugeInteger?
    ensures r.Ok? ==> RatesOf(items, r.value)
  {
    var out: Rates := map[];
    for n := 0 to |items|
      invariant forall i :: 0 <= i < n ==> !items[i].1.HugeInteger?
      invariant RatesOf(items[..n], out)
    {
      var (proto, mbps) := items[n];
      if mbps.HugeInteger? {
        return Err(());
      }
      RatesOfOneMore(items[..n], items[n], out);
      assert items[..n + 1] == items[..n] + [items[n]];
      if Rate(mbps).Some? {
        out := out[proto := Rate(mbps).value];
      }
    }
    assert items[..|items|] == items;
    r := Ok(out);
  }

  /** The map holds exactly the positive finite entries, none when the body is not of the
      expected shape.  The call raises exactly when the decoder gives up or some entry is
      an integer no float can hold. */
  method ParseRates(body: Body) returns (r: Result<Rates, ()>)
    requires forall i, j :: 0 <= i < j < |Posted(body)| ==> Posted(body)[i].0 != Posted(body)[j].0
    ensures r.Err? <==> body.GivenUp? || exists i :: 0 <= i < |Posted(body)| && Posted(body)[i].1.HugeInteger?
    ensures r.Ok? ==> RatesOf(Posted(body), r.value)
  {
    var items := Posted(body);
    if body.GivenUp? {
      return Err(());
    }
    if !body.Object? || body.entries.None? {
      return Ok(map[]);
    }
    r := KeepRates(items);
  }
}
