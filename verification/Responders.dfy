/** The five kinds of responder, what each freezes when it stops, and the two verdicts
    derived from it: the one in the listener's report, and the one the client derives
    from the committed snapshot. */
module Responders {
  import opened Wrappers
  import opened Models
  import opened Registry

  const MIN_ECHO_BYTES := 64        // both the echo server's floor and WireGuard's threshold
  const MIN_OVPN_DATA_PACKETS := 2
  const OVPN_AUTH_FLOOR := 1500

  // ---- responder states ----

  datatype Responder =
    | Mtg(connections: nat, finalPackets: nat, running: bool)
    | OpenVpn(maxAuth: nat, finalHandshakes: nat, finalBytes: nat, finalPackets: nat, taken: bool)
    | WireGuard(finalHandshakes: nat, finalRx: nat, taken: bool)
    | Original(connections: nat, unavailable: bool, running: bool)
    | Socks(connections: nat, echoBytes: Option<nat>)

  // What a live read would see at this moment: the status file or `wg show`, and the
  // kernel's packet counter.
  datatype Live = Live(handshakes: nat, bytes: nat, packets: nat)

  // stop() has run to its end.  A SOCKS responder has no frozen counters of its own.
  predicate Stopped(r: Responder)
  {
    match r
    case Mtg(_, _, running) => !running
    case OpenVpn(_, _, _, _, taken) => taken
    case WireGuard(_, _, taken) => taken
    case Original(_, unavailable, running) => unavailable || !running
    case Socks(_, _) => true
  }

  function OvpnDataOk(handshakes: nat, packets: nat, bytes: nat): bool
  {
    handshakes > 0 && (packets >= MIN_OVPN_DATA_PACKETS || bytes > OVPN_AUTH_FLOOR)
  }

  function Larger(a: nat, b: nat): nat
  {
    if a >= b then a else b
  }

  function OvpnHandshakes(auth: nat): nat
  {
    if auth > 0 then 1 else 0
  }

  function ConnectionCount(r: Responder, live: Live): nat
  {
    match r
    case Mtg(connections, _, _) => connections
    case OpenVpn(maxAuth, hs, _, _, taken) => if taken then hs else OvpnHandshakes(Larger(maxAuth, live.bytes))
    case WireGuard(hs, _, taken) => if taken then hs else live.handshakes
    case Original(connections, _, _) => connections
    case Socks(connections, _) => connections
  }

  function DataTransferOk(r: Responder, live: Live): bool
  {
    match r
    case Mtg(_, packets, _) => packets > 0
    case OpenVpn(_, hs, bytes, packets, taken) =>
      if taken then OvpnDataOk(hs, packets, bytes) else live.bytes > OVPN_AUTH_FLOOR
    case WireGuard(_, rx, taken) => (if taken then rx else live.bytes) > MIN_ECHO_BYTES
    case Original(connections, _, _) => connections > 0
    case Socks(_, echo) => echo.Some? && echo.value >= MIN_ECHO_BYTES
  }

  function Counters(handshakes: nat, dataOk: bool, packets: Option<nat>, bytes: Option<nat>): LiveSnapshot
  {
    LiveSnapshot(handshakes, dataOk, packets, bytes, None, None, None)
  }

  function Snapshot(r: Responder, live: Live): LiveSnapshot
  {
    match r
    case Mtg(connections, packets, running) =>
      var p := if running then live.packets else packets;
      Counters(connections, p > 0, Some(p), None)
    case OpenVpn(maxAuth, hs, bytes, packets, taken) =>
      var auth := if taken then bytes else Larger(maxAuth, live.bytes);
      var h := if taken then hs else OvpnHandshakes(auth);
      var p := if taken then packets else live.packets;
      Counters(h, OvpnDataOk(h, p, auth), Some(p), Some(auth))
    case WireGuard(hs, rx, taken) =>
      var bytes := if taken then rx else live.bytes;
      Counters(if taken then hs else live.handshakes, bytes > MIN_ECHO_BYTES, None, Some(bytes))
    case Original(connections, unavailable, running) =>
      var n := if unavailable || !running then connections else live.packets;
      Counters(n, n > 0, Some(n), None)
    case Socks(connections, echo) => Counters(connections, DataTransferOk(r, live), None, echo)
  }

  // ---- stopping, and being cut short ----

  // stop() runs under a deadline that may cancel it: `cut` counts the steps it completed.
  // What has become of the responder then, given what there was to read when it began.
  function AfterStop(r: Responder, at: Live, cut: nat): Responder
  {
    match r
    case Mtg(connections, packets, running) =>
      Mtg(connections, if cut >= 1 then at.packets else packets, running && cut < 3)
    case OpenVpn(maxAuth, hs, bytes, packets, taken) =>
      var auth := Larger(maxAuth, at.bytes);
      OpenVpn(maxAuth, if cut >= 1 then OvpnHandshakes(auth) else hs, if cut >= 1 then auth else bytes,
              if cut >= 2 then at.packets else packets, taken || cut >= 4)
    case WireGuard(_, _, _) => if cut >= 1 then WireGuard(at.handshakes, at.bytes, true) else r
    case Original(connections, unavailable, running) =>
      if unavailable then r
      else Original(if cut >= 1 then Larger(connections, at.packets) else connections, false, running && cut < 3)
    case Socks(_, _) => r
  }

  // ... and what there is to read by then: the rule and the interface are gone, or not yet.
  function LeftToRead(r: Responder, at: Live, cut: nat): Live
  {
    match r
    case Mtg(_, _, _) => if cut >= 2 then at.(packets := 0) else at
    case OpenVpn(_, _, _, _, _) =>
      if cut >= 5 then Live(0, 0, 0) else if cut >= 3 then at.(packets := 0) else at
    case WireGuard(_, _, _) => if cut >= 2 then at.(handshakes := 0, bytes := 0) else at
    case Original(_, unavailable, _) => if !unavailable && cut >= 2 then at.(packets := 0) else at
    case Socks(_, _) => at
  }

  // How many steps it takes until the responder counts as stopped.
  function StepsToStop(r: Responder): nat
  {
    match r
    case Mtg(_, _, running) => if running then 3 else 0
    case OpenVpn(_, _, _, _, taken) => if taken then 0 else 4
    case WireGuard(_, _, taken) => if taken then 0 else 1
    case Original(_, unavailable, running) => if running && !unavailable then 3 else 0
    case Socks(_, _) => 0
  }

  lemma StoppedAfter(r: Responder, at: Live, cut: nat)
    ensures Stopped(AfterStop(r, at, cut)) <==> cut >= StepsToStop(r)
  {}

  // ---- the responder objects ----

  // What a responder owns on the host: its counter rule, and its interface, or the process
  // that keeps its status file.
  class Host {
    var installed: bool
    var packets: nat
    var up: bool
    var handshakes: nat
    var octets: nat

    constructor (installed: bool, packets: nat, up: bool, handshakes: nat, octets: nat)
      ensures Readings() == Live(if up then handshakes else 0, if up then octets else 0,
                                 if installed then packets else 0)
    {
      this.installed, this.packets, this.up, this.handshakes, this.octets := installed, packets, up, handshakes, octets;
    }

    function Readings(): Live
      reads this
    {
      Live(if up then handshakes else 0, if up then octets else 0, if installed then packets else 0)
    }

    method ReadCounter() returns (n: nat)
      ensures n == Readings().packets
    {
      n := if installed then packets else 0;
    }

    method Show() returns (hs: nat, bytes: nat)
      ensures hs == Readings().handshakes && bytes == Readings().bytes
    {
      hs, bytes := if up then handshakes else 0, if up then octets else 0;
    }

    method InstallRule(works: bool)
      modifies this
      ensures installed == (old(installed) || works)
      ensures Readings() == old(Readings())
    {
      if !installed && works {
        installed, packets := true, 0;
      }
    }

    method RemoveRule()
      modifies this
      ensures !installed && Readings() == old(Readings()).(packets := 0)
    {
      installed, packets := false, 0;
    }

    method TakeDown()
      modifies this
      ensures !up && installed == old(installed) && Readings() == old(Readings()).(handshakes := 0, bytes := 0)
    {
      up := false;
    }
  }

  class MtgResponder {
    const host: Host
    var connections: nat
    var finalPackets: nat
    var running: bool

    constructor (host: Host)
      ensures View() == Mtg(0, 0, false) && this.host == host
    {
      this.host := host;
      connections, finalPackets, running := 0, 0, false;
    }

    function View(): Responder
      reads this
    {
      Mtg(connections, finalPackets, running)
    }

    /** The counter is read while the rule still stands. */
    method Stop(cut: nat)
      modifies this, host
      ensures View() == AfterStop(old(View()), old(host.Readings()), cut)
      ensures host.Readings() == LeftToRead(old(View()), old(host.Readings()), cut)
      ensures cut >= 3 ==> finalPackets == old(host.Readings()).packets && !host.installed && !running
    {
      if cut == 0 {
        return;
      }
      finalPackets := host.ReadCounter();
      if cut == 1 {
        return;
      }
      host.RemoveRule();
      if cut == 2 {
        return;
      }
      running := false;
    }
  }

  class OpenVpnResponder {
    const host: Host
    var maxAuth: nat
    var finalHandshakes: nat
    var finalBytes: nat
    var finalPackets: nat
    var taken: bool

    constructor (host: Host)
      ensures View() == OpenVpn(0, 0, 0, 0, false) && this.host == host
    {
      this.host := host;
      maxAuth, finalHandshakes, finalBytes, finalPackets, taken := 0, 0, 0, 0, false;
    }

    function View(): Responder
      reads this
    {
      OpenVpn(maxAuth, finalHandshakes, finalBytes, finalPackets, taken)
    }

    /** The poller: `samples` are the readings of the status file, in order. */
    method LatchAuthBytes(samples: seq<nat>)
      modifies this`maxAuth
      ensures maxAuth >= old(maxAuth) && forall i :: 0 <= i < |samples| ==> samples[i] <= maxAuth
      ensures maxAuth == old(maxAuth) || maxAuth in samples
    {
      for n := 0 to |samples|
        invariant maxAuth >= old(maxAuth) && forall i :: 0 <= i < n ==> samples[i] <= maxAuth
        invariant maxAuth == old(maxAuth) || maxAuth in samples
      {
        if samples[n] > maxAuth {
          maxAuth := samples[n];
        }
      }
    }

    /** Status file and counter are read before the rule, the process and the tun go. */
    method Stop(cut: nat)
      modifies this, host
      ensures View() == AfterStop(old(View()), old(host.Readings()), cut)
      ensures host.Readings() == LeftToRead(old(View()), old(host.Readings()), cut)
      ensures cut >= 5 ==>
        && taken && !host.installed && !host.up && finalPackets == old(host.Readings()).packets
        && finalBytes == Larger(old(maxAuth), old(host.Readings()).bytes)
    {
      if cut == 0 {
        return;
      }
      var _, live := host.Show();
      finalBytes := if maxAuth >= live then maxAuth else live;
      finalHandshakes := if finalBytes > 0 then 1 else 0;
      if cut == 1 {
        return;
      }
      finalPackets := host.ReadCounter();
      if cut == 2 {
        return;
      }
      host.RemoveRule();
      if cut == 3 {
        return;
      }
      taken := true;
      if cut == 4 {
        return;
      }
      host.TakeDown();
    }
  }

  /** A whole OpenVPN session: the final count is the largest reading ever seen, so a
      peer that has aged out of the status file still counts as a handshake. */
  method OpenVpnSession(samples: seq<nat>, liveAuth: nat, counter: nat) returns (r: Responder)
    ensures r.OpenVpn? && r.taken && r.finalPackets == counter
    ensures liveAuth <= r.finalBytes && forall i :: 0 <= i < |samples| ==> samples[i] <= r.finalBytes
    ensures r.finalBytes == 0 || r.finalBytes == liveAuth || r.finalBytes in samples
    ensures r.finalHandshakes == 1 <==> liveAuth > 0 || exists i :: 0 <= i < |samples| && samples[i] > 0
    ensures r.finalHandshakes <= 1
  {
    var host := new Host(true, counter, true, 0, liveAuth);
    var o := new OpenVpnResponder(host);
    o.LatchAuthBytes(samples);
    o.Stop(5);
    r := o.View();
  }

  class WireGuardResponder {
    const host: Host
    var finalHandshakes: nat
    var finalRx: nat
    var taken: bool

    constructor (host: Host)
      ensures View() == WireGuard(0, 0, false) && this.host == host
    {
      this.host := host;
      finalHandshakes, finalRx, taken := 0, 0, false;
    }

    function View(): Responder
      reads this
    {
      WireGuard(finalHandshakes, finalRx, taken)
    }

    /** The peer's counters are read while the interface still stands. */
    method Stop(cut: nat)
      modifies this, host
      ensures View() == AfterStop(old(View()), old(host.Readings()), cut)
      ensures host.Readings() == LeftToRead(old(View()), old(host.Readings()), cut)
      ensures cut >= 2 ==>
        && taken && !host.up
        && finalHandshakes == old(host.Readings()).handshakes && finalRx == old(host.Readings()).bytes
    {
      if cut == 0 {
        return;
      }
      finalHandshakes, finalRx := host.Show();
      taken := true;
      if cut == 1 {
        return;
      }
      host.TakeDown();
    }
  }

  // How launching the daemon ends: it serves, it exits while it is being watched, or it
  // cannot be spawned at all.
  datatype Launch = Serves | ExitsEarly | NotSpawned

  class OriginalResponder {
    const host: Host
    var connections: nat
    var unavailable: bool
    var running: bool              // the process handle is held

    constructor (host: Host)
      ensures View() == Original(0, false, false) && this.host == host
    {
      this.host := host;
      connections, unavailable, running := 0, false, false;
    }

    function View(): Responder
      reads this
    {
      Original(connections, unavailable, running)
    }

    /** The prune decision: without a reachable upstream nothing is touched.  Otherwise the
        rule is installed before the launch, and a launch that fails leaves it behind
        exactly when the daemon could not be spawned: an early exit removes it. */
    method Start(alive: nat, unreachable: nat, ruleWorks: bool, launch: Launch) returns (ok: bool)
      requires !unavailable && !running
      modifies this, host
      ensures connections == old(connections)
      ensures unavailable <==> alive == 0
      ensures unavailable ==> ok && !running && unchanged(host)
      ensures alive > 0 ==> (ok <==> launch.Serves?)
      ensures alive > 0 && ok ==> running && host.installed == (old(host.installed) || ruleWorks)
      ensures alive > 0 && !ok ==> (host.installed <==> launch.NotSpawned? && (old(host.installed) || ruleWorks))
    {
      if alive + unreachable == 0 || alive == 0 {
        unavailable := true;
        return true;
      }
      host.InstallRule(ruleWorks);
      if launch.NotSpawned? {
        return false;
      }
      running := true;
      if launch.ExitsEarly? {
        host.RemoveRule();
        return false;
      }
      ok := true;
    }

    /** The counter is read while the rule still stands; an unavailable responder has none. */
    method Stop(cut: nat)
      modifies this, host
      ensures View() == AfterStop(old(View()), old(host.Readings()), cut)
      ensures host.Readings() == LeftToRead(old(View()), old(host.Readings()), cut)
      ensures cut >= 3 && !unavailable ==>
        && !running && !host.installed
        && connections == Larger(old(connections), old(host.Readings()).packets)
      ensures old(unavailable) ==> unchanged(this, host)
    {
      if unavailable || cut == 0 {
        return;
      }
      var observed := host.ReadCounter();
      if observed > connections {
        connections := observed;
      }
      if cut == 1 {
        return;
      }
      host.RemoveRule();
      if cut == 2 {
        return;
      }
      running := false;
    }
  }

  // A responder in the session's table.  What a SOCKS responder counts is the echo server's.
  datatype Handle =
    | MtgHandle(mtg: MtgResponder)
    | OpenVpnHandle(openVpn: OpenVpnResponder)
    | WireGuardHandle(wireGuard: WireGuardResponder)
    | OriginalHandle(original: OriginalResponder)
    | SocksHandle(connections: nat, echoBytes: Option<nat>)

  function Objects(h: Handle): set<object>
  {
    match h
    case MtgHandle(m) => {m, m.host}
    case OpenVpnHandle(o) => {o, o.host}
    case WireGuardHandle(w) => {w, w.host}
    case OriginalHandle(g) => {g, g.host}
    case SocksHandle(_, _) => {}
  }

  function StateOf(h: Handle): Responder
    reads Objects(h)
  {
    match h
    case MtgHandle(m) => m.View()
    case OpenVpnHandle(o) => o.View()
    case WireGuardHandle(w) => w.View()
    case OriginalHandle(g) => g.View()
    case SocksHandle(connections, echo) => Socks(connections, echo)
  }

  function ReadingsOf(h: Handle): Live
    reads Objects(h)
  {
    match h
    case MtgHandle(m) => m.host.Readings()
    case OpenVpnHandle(o) => o.host.Readings()
    case WireGuardHandle(w) => w.host.Readings()
    case OriginalHandle(g) => g.host.Readings()
    case SocksHandle(_, _) => Live(0, 0, 0)
  }

  method StopOne(h: Handle, cut: nat) returns (state: Responder)
    modifies Objects(h)
    ensures state == StateOf(h) == AfterStop(old(StateOf(h)), old(ReadingsOf(h)), cut)
    ensures ReadingsOf(h) == LeftToRead(old(StateOf(h)), old(ReadingsOf(h)), cut)
  {
    match h {
      case MtgHandle(m) => m.Stop(cut);
      case OpenVpnHandle(o) => o.Stop(cut);
      case WireGuardHandle(w) => w.Stop(cut);
      case OriginalHandle(g) => g.Stop(cut);
      case SocksHandle(_, _) =>
    }
    state := StateOf(h);
  }

  // No two responders share an object.
  ghost predicate Apart(hs: seq<Handle>)
  {
    forall i, j :: 0 <= i < j < |hs| ==> Objects(hs[i]) !! Objects(hs[j])
  }

  ghost function AllObjects(hs: seq<Handle>): set<object>
  {
    set i, o | 0 <= i < |hs| && o in Objects(hs[i]) :: o
  }

  // Stopping one leaves the others as they are.
  method StopAt(hs: seq<Handle>, n: nat, cut: nat) returns (state: Responder)
    requires Apart(hs) && n < |hs|
    modifies Objects(hs[n])
    ensures state == StateOf(hs[n]) == AfterStop(old(StateOf(hs[n])), old(ReadingsOf(hs[n])), cut)
    ensures forall i :: 0 <= i < |hs| && i != n ==>
      StateOf(hs[i]) == old(StateOf(hs[i])) && ReadingsOf(hs[i]) == old(ReadingsOf(hs[i]))
  {
    assert forall i :: 0 <= i < |hs| && i != n ==> Objects(hs[i]) !! Objects(hs[n]);
    state := StopOne(hs[n], cut);
  }

  /** Every responder is stopped, each as far as the deadline lets it; they share nothing, so
      doing it one after the other stands for doing it in parallel. */
  method StopResponders(hs: seq<Handle>, cuts: seq<nat>) returns (states: seq<Responder>)
    requires Apart(hs) && |cuts| == |hs|
    modifies AllObjects(hs)
    ensures |states| == |hs|
    ensures forall i :: 0 <= i < |hs| ==>
      states[i] == AfterStop(old(StateOf(hs[i])), old(ReadingsOf(hs[i])), cuts[i])
    ensures forall i :: 0 <= i < |hs| ==> StateOf(hs[i]) == states[i]
  {
    states := [];
    for n := 0 to |hs|
      invariant |states| == n
      invariant forall i :: 0 <= i < n ==>
        states[i] == AfterStop(old(StateOf(hs[i])), old(ReadingsOf(hs[i])), cuts[i])
      invariant forall i :: 0 <= i < n ==> StateOf(hs[i]) == states[i]
      invariant forall i :: n <= i < |hs| ==>
        StateOf(hs[i]) == old(StateOf(hs[i])) && ReadingsOf(hs[i]) == old(ReadingsOf(hs[i]))
    {
      assert Objects(hs[n]) <= AllObjects(hs);
      var state := StopAt(hs, n, cuts[n]);
      states := states + [state];
    }
  }

  // ---- the two verdicts ----

  function DataCountersAvailable(name: string, cap: Option<bool>): Option<bool>
  {
    if UsesIptablesCounter(name) then cap else Some(true)
  }

  function CapAt(name: string, dcReach: Option<bool>): Option<Verdict>
  {
    if IsMtg(name) && dcReach == Some(false) then Some(HANDSHAKE_ONLY) else None
  }

  // The listener's report, from the responder's properties.
  function ReportVerdict(name: string, r: Responder, live: Live, dcReach: Option<bool>, cap: Option<bool>): Verdict
  {
    Finalized(ConnectionCount(r, live), DataTransferOk(r, live),
              CapAt(name, if IsMtg(name) then dcReach else None), DataCountersAvailable(name, cap))
  }

  // The entry committed for the client: the reading with the cross-cutting fields added.
  function Committed(name: string, r: Responder, live: Live, selfTest: Option<bool>, dcReach: Option<bool>,
                     cap: Option<bool>): SnapshotEntry
  {
    Reading(Snapshot(r, live).(
      selfTestOk := selfTest,
      dcReachOk := if RequiresTelegramDc(name) then dcReach else None,
      countersAvailable := DataCountersAvailable(name, cap)))
  }

  const EmptySnapshot := LiveSnapshot(0, false, None, None, None, None, None)

  // The client reads a failed or missing entry as an empty snapshot.
  function Received(entry: SnapshotEntry): LiveSnapshot
  {
    match entry
    case Reading(snap) => snap
    case Failed => EmptySnapshot
  }

  function ListenerVerdict(snap: LiveSnapshot, protocol: string): Verdict
  {
    Finalized(snap.handshakeCount, snap.dataTransferOk, CapAt(protocol, snap.dcReachOk), snap.countersAvailable)
  }

  /** The same derivation over a ProtocolResult object, as the client performs it. */
  method DeriveListenerVerdict(snap: LiveSnapshot, protocol: Option<string>) returns (v: Verdict)
    ensures protocol.Some? ==> v == ListenerVerdict(snap, protocol.value)
    ensures protocol.None? ==> v == Finalized(snap.handshakeCount, snap.dataTransferOk, None, snap.countersAvailable)
  {
    var pr := new ProtocolResult(snap.handshakeCount, snap.dataTransferOk);
    var capAt := None;
    if protocol.Some? && IsMtg(protocol.value) && snap.dcReachOk == Some(false) {
      capAt := Some(HANDSHAKE_ONLY);
    }
    pr.Finalize(capAt, snap.countersAvailable);
    v := pr.verdict;
  }

  /** Agreement: once a responder has stopped, the verdict the client derives from the
      committed snapshot is the one in the listener's report, for every protocol name,
      every counter value, every preflight outcome, and whatever a live read would see
      at either moment. */
  lemma SnapshotAgreesWithReport(name: string, r: Responder, at1: Live, at2: Live,
                                 selfTest: Option<bool>, dcReach: Option<bool>, cap: Option<bool>)
    requires Stopped(r)
    ensures ListenerVerdict(Received(Committed(name, r, at1, selfTest, dcReach, cap)), name)
         == ReportVerdict(name, r, at2, dcReach, cap)
  {}

  // What was seen of the peer: whether it handshook, and whether it moved data.
  function Evidence(r: Responder, at: Live): (bool, bool)
  {
    match r
    case Mtg(connections, _, _) => (connections > 0, at.packets > 0)
    case OpenVpn(maxAuth, _, _, _, _) =>
      var authed := maxAuth > 0 || at.bytes > 0;
      (authed, authed && (at.packets >= 2 || maxAuth > 1500 || at.bytes > 1500))
    case WireGuard(_, _, _) => (at.handshakes > 0, at.bytes > 64)
    case Original(connections, unavailable, _) =>
      var seen := connections > 0 || (!unavailable && at.packets > 0);
      (seen, seen)
    case Socks(connections, echo) => (connections > 0, echo.Some? && echo.value >= 64)
  }

  // The responder has its stop() before it.
  predicate Fresh(r: Responder)
  {
    match r
    case Mtg(_, _, running) => running
    case OpenVpn(_, _, _, _, taken) => !taken
    case WireGuard(_, _, taken) => !taken
    case Original(_, unavailable, running) => unavailable || running
    case Socks(_, _) => true
  }

  /** The verdict after a whole stop(), from what there was to read when it began: OK with data, or
      with a handshake where the host cannot count packets; HANDSHAKE_ONLY with a handshake; else
      BLOCKED.  With no way to the Telegram data centres an mtg proxy gets HANDSHAKE_ONLY for OK. */
  lemma VerdictExactly(name: string, r: Responder, at: Live, cut: nat, later: Live, dcReach: Option<bool>,
                       cap: Option<bool>)
    requires Fresh(r) && cut >= 5
    ensures var (shook, moved) := Evidence(r, at);
      var blind := cap == Some(false)
                   && name in {"openvpn", "mtproto_proxy", "mtproto_proxy_alt", "mtproto_orig"};
      var cutOff := dcReach == Some(false) && name in {"mtproto_proxy", "mtproto_proxy_alt"};
      ReportVerdict(name, AfterStop(r, at, cut), later, dcReach, cap)
        == if moved || (blind && shook) then (if cutOff then HANDSHAKE_ONLY else OK)
           else if shook then HANDSHAKE_ONLY else BLOCKED
  {}

  /** What is committed beside the counts: the self test, the data-centre preflight for the three
      Telegram protocols, and for those that need it whether packets can be counted. */
  lemma CommittedFields(name: string, r: Responder, live: Live, selfTest: Option<bool>, dcReach: Option<bool>,
                        cap: Option<bool>)
    ensures var entry := Committed(name, r, live, selfTest, dcReach, cap);
      && entry.Reading? && entry.snap.selfTestOk == selfTest
      && entry.snap.dcReachOk
         == (if name in {"mtproto_proxy", "mtproto_proxy_alt", "mtproto_orig"} then dcReach else None)
      && entry.snap.countersAvailable
         == (if name in {"openvpn", "mtproto_proxy", "mtproto_proxy_alt", "mtproto_orig"} then cap else Some(true))
  {}

  // One running protocol: its name, its responder, whether taking the snapshot raised.
  datatype Entry = Entry(name: string, responder: Responder, raised: bool)

  ghost predicate DistinctNames(es: seq<Entry>)
  {
    forall i, j :: 0 <= i < j < |es| ==> es[i].name != es[j].name
  }

  method BuildFinalSnapshots(es: seq<Entry>, live: string -> Live, selfTests: map<string, bool>,
                             dcReach: Option<bool>, cap: Option<bool>) returns (out: map<string, SnapshotEntry>)
    requires DistinctNames(es)
    ensures out.Keys == set i | 0 <= i < |es| :: es[i].name
    ensures forall i :: 0 <= i < |es| ==> out[es[i].name] == CommittedEntry(es[i], live, selfTests, dcReach, cap)
  {
    out := map[];
    for n := 0 to |es|
      invariant out.Keys == set i | 0 <= i < n :: es[i].name
      invariant forall i :: 0 <= i < n ==> out[es[i].name] == CommittedEntry(es[i], live, selfTests, dcReach, cap)
    {
      out := out[es[n].name := CommittedEntry(es[n], live, selfTests, dcReach, cap)];
    }
  }

  function CommittedEntry(e: Entry, live: string -> Live, selfTests: map<string, bool>,
                          dcReach: Option<bool>, cap: Option<bool>): SnapshotEntry
  {
    if e.raised then Failed
    else
      var selfTest := if e.name in selfTests then Some(selfTests[e.name]) else None;
      Committed(e.name, e.responder, live(e.name), selfTest, dcReach, cap)
  }

  method FinalizeSessionResults(es: seq<Entry>, live: string -> Live, dcReach: Option<bool>, cap: Option<bool>)
    returns (out: map<string, Verdict>)
    requires DistinctNames(es)
    ensures out.Keys == set i | 0 <= i < |es| :: es[i].name
    ensures forall i :: 0 <= i < |es| ==>
      out[es[i].name] == ReportVerdict(es[i].name, es[i].responder, live(es[i].name), dcReach, cap)
  {
    out := map[];
    for n := 0 to |es|
      invariant out.Keys == set i | 0 <= i < n :: es[i].name
      invariant forall i :: 0 <= i < n ==>
        out[es[i].name] == ReportVerdict(es[i].name, es[i].responder, live(es[i].name), dcReach, cap)
    {
      var e := es[n];
      var seen := live(e.name);
      var pr := new ProtocolResult(ConnectionCount(e.responder, seen), DataTransferOk(e.responder, seen));
      pr.Finalize(CapAt(e.name, if IsMtg(e.name) then dcReach else None), DataCountersAvailable(e.name, cap));
      out := out[e.name := pr.verdict];
    }
  }

  // What the two sides go by: no evidence, a handshake, data.
  function Strength(handshakes: nat, dataOk: bool, counters: Option<bool>): nat
  {
    if dataOk || (counters == Some(false) && handshakes > 0) then 2 else if handshakes > 0 then 1 else 0
  }

  // What may still move between the commit and the report: an mtg log is read until its stop()
  // is past that step, and echo handlers that are still running count on.
  predicate Later(r1: Responder, r2: Responder)
  {
    match r1
    case Mtg(connections, packets, running) =>
      r2.Mtg? && r2.finalPackets == packets && r2.running == running && (running || r2.connections == connections)
    case Socks(connections, echo) =>
      r2.Socks? && r2.connections == connections && r2.echoBytes.Some? == echo.Some?
      && (echo.Some? ==> r2.echoBytes.value >= echo.value)
    case _ => r2 == r1
  }

  // Late bytes carry the count over the echo floor.
  predicate CrossesFloor(r1: Responder, r2: Responder)
    requires Later(r1, r2)
  {
    r1.Socks? && r1.echoBytes.Some? && r1.echoBytes.value < MIN_ECHO_BYTES <= r2.echoBytes.value
  }

  predicate Gated(name: string, dcReach: Option<bool>)
  {
    IsMtg(name) && dcReach == Some(false)
  }

  // A closed gate or missing counters settle a verdict with handshakes, data or not.
  predicate Spared(name: string, handshakes: nat, dcReach: Option<bool>, cap: Option<bool>)
  {
    handshakes > 0 && (Gated(name, dcReach) || DataCountersAvailable(name, cap) == Some(false))
  }

  // Evidence of different strength shows in the verdict, unless the gate lowers both.
  predicate Shows(s1: nat, s2: nat, gated: bool)
  {
    s1 != s2 && (s1 == 0 || s2 == 0 || !gated)
  }

  // When a snapshot taken of `r1` at `at1` and a report finalised from `r2` at `at2` differ.
  predicate Differ(name: string, r1: Responder, r2: Responder, at1: Live, at2: Live,
                   dcReach: Option<bool>, cap: Option<bool>)
    requires Later(r1, r2)
  {
    var counters := DataCountersAvailable(name, cap);
    match r1
    case Mtg(connections, packets, running) =>
      && running
      && Shows(Strength(connections, at1.packets > 0, counters), Strength(r2.connections, packets > 0, counters),
               Gated(name, dcReach))
    case OpenVpn(maxAuth, _, _, _, taken) =>
      var (auth1, auth2) := (Larger(maxAuth, at1.bytes), Larger(maxAuth, at2.bytes));
      var data1 := auth1 > OVPN_AUTH_FLOOR || (auth1 > 0 && at1.packets >= MIN_OVPN_DATA_PACKETS);
      && !taken
      && Shows(Strength(OvpnHandshakes(auth1), data1, counters),
               Strength(OvpnHandshakes(auth2), at2.bytes > OVPN_AUTH_FLOOR, counters), Gated(name, dcReach))
    case WireGuard(_, _, taken) =>
      && !taken
      && Shows(Strength(at1.handshakes, at1.bytes > MIN_ECHO_BYTES, counters),
               Strength(at2.handshakes, at2.bytes > MIN_ECHO_BYTES, counters), Gated(name, dcReach))
    case Original(connections, unavailable, running) =>
      running && !unavailable && (at1.packets > 0) != (connections > 0)
    case Socks(connections, _) =>
      CrossesFloor(r1, r2) && !Spared(name, connections, dcReach, cap)
  }

  /** Stopped or not: exactly when the verdict the client derives from the snapshot and the one
      in the report differ, whatever moves on in between.  Once the responder has stopped,
      only late echo bytes can make them. */
  lemma VerdictsDifferExactly(name: string, r1: Responder, r2: Responder, at1: Live, at2: Live,
                              selfTest: Option<bool>, dcReach: Option<bool>, cap: Option<bool>)
    requires Later(r1, r2)
    ensures Differ(name, r1, r2, at1, at2, dcReach, cap) <==>
              ListenerVerdict(Received(Committed(name, r1, at1, selfTest, dcReach, cap)), name)
                != ReportVerdict(name, r2, at2, dcReach, cap)
    ensures Stopped(r1) ==>
              (Differ(name, r1, r2, at1, at2, dcReach, cap) <==>
                 CrossesFloor(r1, r2) && !Spared(name, r1.connections, dcReach, cap))
  {}

  // Counting between a stop cut short and the snapshot: only what still stands counts on.
  ghost predicate CountsOn(r: Responder, at0: Live, cut: nat, at1: Live)
  {
    if cut < 2 then at1.packets >= at0.packets else at1.packets == LeftToRead(r, at0, cut).packets
  }

  // Whether packets are seen at the commit, read live off a rule that stands or is gone, and in
  // the report, from what was frozen by then.
  predicate SeenLive(cut: nat, later: nat)
  {
    cut < 2 && later > 0
  }

  predicate SeenFrozen(cut: nat, frozen: nat)
  {
    cut >= 1 && frozen > 0
  }

  /** A stop that was cut short: exactly when client and report differ, by the step it had
      reached.  An mtg responder goes on counting streams, `hs1` at the commit and `hs2` in
      the report; while that count does not move, they differ exactly where packets are seen
      on one side only, unless a closed gate or missing counters settle both. */
  lemma CutStopDiffersExactly(name: string, hs1: nat, hs2: nat, at0: Live, at1: Live, at2: Live, cut: nat,
                              selfTest: Option<bool>, dcReach: Option<bool>, cap: Option<bool>)
    requires CountsOn(Mtg(hs1, 0, true), at0, cut, at1) && (cut >= 3 ==> hs2 == hs1)
    ensures var mtg1, mtg2 := AfterStop(Mtg(hs1, 0, true), at0, cut), AfterStop(Mtg(hs2, 0, true), at0, cut);
      var counters, gated := DataCountersAvailable(name, cap), Gated(name, dcReach);
      var live, frozen := SeenLive(cut, at1.packets), SeenFrozen(cut, at0.packets);
      var differ := ListenerVerdict(Received(Committed(name, mtg1, at1, selfTest, dcReach, cap)), name)
                      != ReportVerdict(name, mtg2, at2, dcReach, cap);
      && Later(mtg1, mtg2)
      && (differ <==> cut < 3 && Shows(Strength(hs1, live, counters), Strength(hs2, frozen, counters), gated))
      && (hs2 == hs1 ==> (differ <==> cut < 3 && live != frozen && !Spared(name, hs1, dcReach, cap)))
  {}

  /** Likewise for the original proxy, whose count only its own stop() raises. */
  lemma CutOriginalDiffersExactly(name: string, at0: Live, at1: Live, at2: Live, cut: nat,
                                  selfTest: Option<bool>, dcReach: Option<bool>, cap: Option<bool>)
    requires CountsOn(Original(0, false, true), at0, cut, at1)
    ensures var original := AfterStop(Original(0, false, true), at0, cut);
      cut < 3 && SeenLive(cut, at1.packets) != SeenFrozen(cut, at0.packets) <==>
        ListenerVerdict(Received(Committed(name, original, at1, selfTest, dcReach, cap)), name)
          != ReportVerdict(name, original, at2, dcReach, cap)
  {}

  lemma EntryDiffersExactly(e: Entry, later: Responder, live1: string -> Live, live2: string -> Live,
                            selfTests: map<string, bool>, dcReach: Option<bool>, cap: Option<bool>)
    requires !e.raised && Later(e.responder, later)
    ensures Differ(e.name, e.responder, later, live1(e.name), live2(e.name), dcReach, cap) <==>
              ListenerVerdict(Received(CommittedEntry(e, live1, selfTests, dcReach, cap)), e.name)
                != ReportVerdict(e.name, later, live2(e.name), dcReach, cap)
    ensures Stopped(e.responder) ==>
              (Differ(e.name, e.responder, later, live1(e.name), live2(e.name), dcReach, cap) <==>
                 CrossesFloor(e.responder, later) && !Spared(e.name, e.responder.connections, dcReach, cap))
  {
    var selfTest := if e.name in selfTests then Some(selfTests[e.name]) else None;
    VerdictsDifferExactly(e.name, e.responder, later, live1(e.name), live2(e.name), selfTest, dcReach, cap);
  }

  function Entries(names: seq<string>, states: seq<Responder>, raised: seq<bool>): (es: seq<Entry>)
    requires |names| == |states| == |raised|
    ensures |es| == |names| && forall i :: 0 <= i < |es| ==> es[i] == Entry(names[i], states[i], raised[i])
  {
    seq(|names|, i requires 0 <= i < |names| => Entry(names[i], states[i], raised[i]))
  }

  /** The end of a session: stop the responders, commit the snapshots, later finalise the
      report from what the responders have become.  For every protocol whose snapshot was
      taken, the two sides differ exactly where what stop() left behind or what moved on
      since makes them; where stop() ran to its end, exactly where late bytes carry an echo
      count over the floor.  `live1` and `live2` are whatever a live read would see. */
  method CloseSession(names: seq<string>, hs: seq<Handle>, cuts: seq<nat>, raised: seq<bool>, later: seq<Responder>,
                      live1: string -> Live, live2: string -> Live, selfTests: map<string, bool>,
                      dcReach: Option<bool>, cap: Option<bool>)
    returns (committed: map<string, SnapshotEntry>, report: map<string, Verdict>)
    requires |names| == |hs| == |cuts| == |raised| == |later| && Apart(hs)
    requires forall i, j :: 0 <= i < j < |names| ==> names[i] != names[j]
    requires forall i :: 0 <= i < |hs| ==> Later(AfterStop(StateOf(hs[i]), ReadingsOf(hs[i]), cuts[i]), later[i])
    modifies AllObjects(hs)
    ensures forall i :: 0 <= i < |hs| ==> names[i] in committed && names[i] in report
    ensures forall i :: 0 <= i < |hs| && !raised[i] ==>
      (Differ(names[i], AfterStop(old(StateOf(hs[i])), old(ReadingsOf(hs[i])), cuts[i]), later[i],
              live1(names[i]), live2(names[i]), dcReach, cap) <==>
         ListenerVerdict(Received(committed[names[i]]), names[i]) != report[names[i]])
    ensures forall i :: 0 <= i < |hs| && !raised[i] && cuts[i] >= StepsToStop(old(StateOf(hs[i]))) ==>
      var state := AfterStop(old(StateOf(hs[i])), old(ReadingsOf(hs[i])), cuts[i]);
      (CrossesFloor(state, later[i]) && !Spared(names[i], state.connections, dcReach, cap) <==>
         ListenerVerdict(Received(committed[names[i]]), names[i]) != report[names[i]])
  {
    var states := StopResponders(hs, cuts);
    var es, es' := Entries(names, states, raised), Entries(names, later, raised);
    committed := BuildFinalSnapshots(es, live1, selfTests, dcReach, cap);
    report := FinalizeSessionResults(es', live2, dcReach, cap);
    forall i | 0 <= i < |hs|
      ensures es[i].name == es'[i].name == names[i] && names[i] in committed && names[i] in report
      ensures Stopped(states[i]) <==> cuts[i] >= StepsToStop(old(StateOf(hs[i])))
      ensures !raised[i] ==>
        (Differ(names[i], states[i], later[i], live1(names[i]), live2(names[i]), dcReach, cap) <==>
           ListenerVerdict(Received(committed[names[i]]), names[i]) != report[names[i]])
      ensures !raised[i] && Stopped(states[i]) ==>
        (Differ(names[i], states[i], later[i], live1(names[i]), live2(names[i]), dcReach, cap) <==>
           CrossesFloor(states[i], later[i]) && !Spared(names[i], states[i].connections, dcReach, cap))
    {
      StoppedAfter(old(StateOf(hs[i])), old(ReadingsOf(hs[i])), cuts[i]);
      if !raised[i] {
        EntryDiffersExactly(es[i], later[i], live1, live2, selfTests, dcReach, cap);
      }
    }
  }

  /** Once a responder has stopped, what moves on since never lowers the report. */
  lemma ReportNeverLower(name: string, r1: Responder, r2: Responder, at1: Live, at2: Live,
                         selfTest: Option<bool>, dcReach: Option<bool>, cap: Option<bool>)
    requires Stopped(r1) && Later(r1, r2)
    ensures Rank(ListenerVerdict(Received(Committed(name, r1, at1, selfTest, dcReach, cap)), name))
         <= Rank(ReportVerdict(name, r2, at2, dcReach, cap))
  {
    SnapshotAgreesWithReport(name, r1, at1, at2, selfTest, dcReach, cap);
    FinalizedMonotone(ConnectionCount(r1, at2), DataTransferOk(r1, at2),
                      ConnectionCount(r2, at2), DataTransferOk(r2, at2),
                      CapAt(name, if IsMtg(name) then dcReach else None), DataCountersAvailable(name, cap));
  }

  /** For the SOCKS protocols they then differ exactly when the late bytes carry the
      count over the echo floor. */
  lemma ReportDiffersExactly(name: string, connections: nat, bytes: nat, more: nat, at1: Live, at2: Live,
                             selfTest: Option<bool>, dcReach: Option<bool>, cap: Option<bool>)
    requires name in {"shadowsocks", "vless_reality", "hysteria2"}
    ensures var r1, r2 := Socks(connections, Some(bytes)), Socks(connections, Some(bytes + more));
      bytes < MIN_ECHO_BYTES <= bytes + more <==>
        ListenerVerdict(Received(Committed(name, r1, at1, selfTest, dcReach, cap)), name)
          != ReportVerdict(name, r2, at2, dcReach, cap)
  {}

  /** A snapshot that could not be taken reads as BLOCKED, so it agrees with the report
      exactly when the report is BLOCKED too. */
  lemma FailedSnapshotIsBlocked(name: string)
    ensures ListenerVerdict(Received(Failed), name) == BLOCKED
  {}

  // ---- the client's final word ----

  datatype Note = NoNote | ClientOverread | DcUnreachable | AsymmetricDpi | ListenerSawData | Disagree

  // `timedOut` says that the client's error carries a read-timeout-after-handshake marker.
  function AgreedVerdict(client: Verdict, listener: Verdict, timedOut: bool, protocol: string,
                         dcReach: Option<bool>): (Verdict, Note)
  {
    if client == listener then (listener, NoNote)
    else if client == OK then (listener, ClientOverread)
    else if client == BLOCKED && (listener == OK || listener == HANDSHAKE_ONLY) && timedOut then
      (HANDSHAKE_ONLY, if IsMtg(protocol) && dcReach == Some(false) then DcUnreachable else AsymmetricDpi)
    else if listener == OK then (listener, ListenerSawData)
    else (listener, Disagree)
  }

  /** The listener is authoritative: the final verdict is never above its verdict, and
      it is below it in exactly one case, a client blocked by a read timeout where the
      listener saw a whole session. */
  lemma ListenerIsAuthoritative(client: Verdict, listener: Verdict, timedOut: bool, protocol: string,
                                dcReach: Option<bool>)
    ensures var (final, note) := AgreedVerdict(client, listener, timedOut, protocol, dcReach);
      && Rank(final) <= Rank(listener)
      && (final != listener <==> client == BLOCKED && listener == OK && timedOut)
      && (note == NoNote <==> client == listener)
      && (note == DcUnreachable ==> IsMtg(protocol))
  {}

  /** What it is: the listener's verdict, but a handshake alone where the client timed out and
      the listener saw one at least.  And why: the notes, in the order they are tried. */
  lemma AgreedExactly(client: Verdict, listener: Verdict, timedOut: bool, protocol: string, dcReach: Option<bool>)
    ensures var (final, note) := AgreedVerdict(client, listener, timedOut, protocol, dcReach);
      var reached := listener == OK || listener == HANDSHAKE_ONLY;
      && (client == BLOCKED && reached && timedOut ==> final == HANDSHAKE_ONLY)
      && (!(client == BLOCKED && reached && timedOut) ==> final == listener)
      && (note == ClientOverread <==> client == OK && listener != OK)
      && (note == DcUnreachable || note == AsymmetricDpi <==> client == BLOCKED && reached && timedOut)
      && (note == DcUnreachable ==>
            protocol in {"mtproto_proxy", "mtproto_proxy_alt"} && dcReach == Some(false))
      && (note == ListenerSawData <==>
            listener == OK && client != OK && !(client == BLOCKED && timedOut))
  {}

  /** With the dual-vantage gate closed, no client error can bring back an OK. */
  lemma ClosedGateNeverOk(name: string, r: Responder, live: Live, selfTest: Option<bool>, cap: Option<bool>,
                          client: Verdict, timedOut: bool)
    requires IsMtg(name) && Stopped(r)
    ensures var snap := Received(Committed(name, r, live, selfTest, Some(false), cap));
      AgreedVerdict(client, ListenerVerdict(snap, name), timedOut, name, snap.dcReachOk).0 != OK
  {}
}
