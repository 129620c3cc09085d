/** Generating the credentials of one session, and delivering them to the client. */
module Generator {
  import opened Wrappers
  import opened Bytes
  import opened Config
  import opened Credentials
  import opened Registry
  import opened Secrets

  // The external programs that make keys.
  datatype Tool = OpenVpnTool | WgTool | XrayTool

  // What the key tools and the random source yield, and which tools fail or are missing.
  datatype Draws = Draws(
    broken: set<Tool>,
    pskPem: string,
    wgServer: (string, string), wgClient: (string, string), wgPsk: string,
    awgServer: (string, string), awgClient: (string, string), awgPsk: string,
    headers: seq<int>, jc: nat, jmin: nat, jmax: nat, s1: nat, s2: seq<nat>,
    ssPassword: string, uuid: string, reality: (string, string), shortId: string,
    hy2Auth: string, hy2Obfs: string,
    primaryKey: Bytes, altKey: Bytes, originalKey: Bytes)

  // ---- the two rejection loops ----

  const WIREGUARD_TYPES := {1, 2, 3, 4}

  // The first four distinct values that are not WireGuard message types.
  function Pick(draws: seq<int>, chosen: seq<int>): seq<int>
  {
    if |chosen| >= 4 || draws == [] then chosen
    else if draws[0] in WIREGUARD_TYPES || draws[0] in chosen then Pick(draws[1..], chosen)
    else Pick(draws[1..], chosen + [draws[0]])
  }

  predicate Spread(chosen: seq<int>)
  {
    && (forall i, j :: 0 <= i < j < |chosen| ==> chosen[i] != chosen[j])
    && (forall i :: 0 <= i < |chosen| ==> chosen[i] !in WIREGUARD_TYPES)
  }

  predicate Words(values: seq<int>)
  {
    forall i :: 0 <= i < |values| ==> 0 <= values[i] < 0x1_0000_0000
  }

  lemma {:induction false} PickSpreads(draws: seq<int>, chosen: seq<int>)
    requires Spread(chosen) && Words(chosen) && Words(draws) && |chosen| <= 4
    ensures Spread(Pick(draws, chosen)) && Words(Pick(draws, chosen)) && |Pick(draws, chosen)| <= 4
  {
    if |chosen| < 4 && draws != [] {
      if draws[0] in WIREGUARD_TYPES || draws[0] in chosen {
        PickSpreads(draws[1..], chosen);
      } else {
        PickSpreads(draws[1..], chosen + [draws[0]]);
      }
    }
  }

  /** Four 32-bit headers, distinct, none of them a WireGuard message type. */
  method MagicHeaders(draws: seq<int>) returns (h: seq<int>)
    requires Words(draws) && |Pick(draws, [])| == 4
    ensures h == Pick(draws, []) && |h| == 4 && Spread(h) && Words(h)
  {
    h := [];
    var rest := draws;
    while |h| < 4
      invariant |h| <= 4 && Pick(rest, h) == Pick(draws, [])
      decreases |rest|
    {
      var v := rest[0];
      rest := rest[1..];
      if v !in WIREGUARD_TYPES && v !in h {
        h := h + [v];
      }
    }
    PickSpreads(draws, []);
  }

  // The first response padding that does not give the two handshakes equal lengths.
  function FirstOther(s1: int, draws: seq<nat>): int
    requires exists i :: 0 <= i < |draws| && s1 + 56 != draws[i] + 15
  {
    if s1 + 56 != draws[0] + 15 then draws[0] + 15
    else
      assert exists i :: 0 <= i < |draws[1..]| && s1 + 56 != draws[1..][i] + 15 by {
        var i :| 0 <= i < |draws| && s1 + 56 != draws[i] + 15;
        assert draws[1..][i - 1] == draws[i];
      }
      FirstOther(s1, draws[1..])
  }

  method ResponsePadding(s1: int, draws: seq<nat>) returns (s2: int)
    requires exists i :: 0 <= i < |draws| && s1 + 56 != draws[i] + 15
    ensures s2 == FirstOther(s1, draws)
  {
    var rest := draws;
    s2 := rest[0] + 15;
    while s1 + 56 == s2
      invariant rest != [] && s2 == rest[0] + 15
      invariant exists i :: 0 <= i < |rest| && s1 + 56 != rest[i] + 15
      invariant FirstOther(s1, rest) == FirstOther(s1, draws)
      decreases |rest|
    {
      var i :| 0 <= i < |rest| && s1 + 56 != rest[i] + 15;
      assert rest[1..][i - 1] == rest[i];
      rest := rest[1..];
      s2 := rest[0] + 15;
    }
  }

  lemma {:induction false} FirstOtherDiffers(s1: int, draws: seq<nat>)
    requires exists i :: 0 <= i < |draws| && s1 + 56 != draws[i] + 15
    requires forall i :: 0 <= i < |draws| ==> draws[i] < 135
    ensures s1 + 56 != FirstOther(s1, draws) && 15 <= FirstOther(s1, draws) <= 149
  {
    if s1 + 56 == draws[0] + 15 {
      var i :| 0 <= i < |draws| && s1 + 56 != draws[i] + 15;
      assert draws[1..][i - 1] == draws[i];
      FirstOtherDiffers(s1, draws[1..]);
    }
  }

  // What the random source and the key tools promise, with enough draws for both loops.
  ghost predicate Drawn(d: Draws)
  {
    && Words(d.headers) && |Pick(d.headers, [])| == 4
    && d.jc < 5 && d.jmin < 20 && d.jmax < 30 && d.s1 < 135
    && (forall i :: 0 <= i < |d.s2| ==> d.s2[i] < 135)
    && (exists i :: 0 <= i < |d.s2| && d.s1 + 15 + 56 != d.s2[i] + 15)
    && |d.primaryKey| == |d.altKey| == |d.originalKey| == 16
  }

  predicate ToolsAnswer(d: Draws)
  {
    && d.pskPem != "" && d.wgServer.1 != "" && d.wgClient.0 != "" && d.wgClient.1 != "" && d.wgPsk != ""
    && d.awgServer.1 != "" && d.awgClient.0 != "" && d.awgClient.1 != "" && d.awgPsk != ""
    && d.ssPassword != "" && d.uuid != "" && d.reality.1 != "" && d.shortId != "" && d.hy2Auth != "" && d.hy2Obfs != ""
  }

  // ---- what generation comes to ----

  function PortOf(ports: map<string, int>, n: string): int
  {
    if n in ports then ports[n] else 0
  }

  function JunkOf(d: Draws): Junk
    requires Drawn(d)
  {
    var h := Pick(d.headers, []);
    Junk(d.jc + 3, d.jmin + 40, d.jmax + 70, d.s1 + 15, FirstOther(d.s1 + 15, d.s2), h[0], h[1], h[2], h[3])
  }

  datatype VlessKeys = VlessKeys(uuid: string, publicKey: string, shortId: string)

  datatype Hy2Keys = Hy2Keys(auth: string, obfsPassword: string)

  function WgKeysOf(d: Draws): WgKeys
  {
    WgKeys(d.wgServer.1, d.wgClient.0, d.wgClient.1, d.wgPsk)
  }

  function AwgKeysOf(d: Draws): WgKeys
  {
    WgKeys(d.awgServer.1, d.awgClient.0, d.awgClient.1, d.awgPsk)
  }

  function VlessKeysOf(d: Draws): VlessKeys
  {
    VlessKeys(d.uuid, d.reality.1, d.shortId)
  }

  function SniSecret(sni: map<string, string>, n: string, key: Bytes): string
  {
    if n in sni && AsciiText(sni[n]) then FakeTlsSecret(key, sni[n]) else ""
  }

  function GroupFor(n: string, ports: map<string, int>, sni: map<string, string>, d: Draws): Group
    requires Drawn(d)
  {
    var port, names := PortOf(ports, n), NamesOf(ports, sni, d);
    if n == "openvpn" then OpenVpn(port, d.pskPem)
    else if n == "wireguard" then WireGuard(port, WgKeysOf(d))
    else if n == "amneziawg" then AmneziaWg(port, AwgKeysOf(d), JunkOf(d))
    else if n == "shadowsocks" then Shadowsocks(port, SS_METHOD, d.ssPassword)
    else if n == "vless_reality" then Vless(port, d.uuid, d.reality.1, d.shortId, names.serverName)
    else if n == "hysteria2" then Hysteria2(port, d.hy2Auth, d.hy2Obfs)
    else if n == "mtproto_proxy" then MtProto(port, names.primary)
    else if n == "mtproto_proxy_alt" then MtProto(port, names.alt)
    else MtProto(port, names.original)
  }

  function Generated(ports: map<string, int>, sni: map<string, string>, d: Draws): map<string, Group>
    requires Drawn(d)
  {
    map n | n in KNOWN :: GroupFor(n, ports, sni, d)
  }

  datatype GenerateError = UnknownPort | ToolFailed(tool: Tool) | SniNotEncodable

  predicate Encodable(sni: map<string, string>, n: string)
  {
    n in sni ==> AsciiText(sni[n])
  }

  // The tools are called in this order, the host names encoded after them.
  function GenerateFailure(wanted: map<string, int>, sni: map<string, string>, broken: set<Tool>): Option<GenerateError>
  {
    if exists n :: n in wanted && n !in KNOWN then Some(UnknownPort)
    else if OpenVpnTool in broken then Some(ToolFailed(OpenVpnTool))
    else if WgTool in broken then Some(ToolFailed(WgTool))
    else if XrayTool in broken then Some(ToolFailed(XrayTool))
    else if !Encodable(sni, "mtproto_proxy") || !Encodable(sni, "mtproto_proxy_alt") then Some(SniNotEncodable)
    else None
  }

  // The host name and the three secrets, empty where nothing is configured.
  datatype Names = Names(serverName: string, primary: string, alt: string, original: string)

  function NamesOf(wanted: map<string, int>, sni: map<string, string>, d: Draws): Names
  {
    Names(
      if "vless_reality" in sni then sni["vless_reality"] else "",
      SniSecret(sni, "mtproto_proxy", d.primaryKey),
      SniSecret(sni, "mtproto_proxy_alt", d.altKey),
      if "mtproto_orig" in wanted then OriginalSecret(d.originalKey) else "")
  }

  method MakeNames(wanted: map<string, int>, sni: map<string, string>, d: Draws) returns (names: Option<Names>)
    ensures names == if Encodable(sni, "mtproto_proxy") && Encodable(sni, "mtproto_proxy_alt")
                     then Some(NamesOf(wanted, sni, d)) else None
  {
    var serverName, primary, alt, original := "", "", "", "";
    if "vless_reality" in sni {
      serverName := sni["vless_reality"];
    }
    if "mtproto_proxy" in sni {
      if !AsciiText(sni["mtproto_proxy"]) {
        return None;
      }
      primary := "ee" + ToHex(d.primaryKey) + ToHex(Encode(sni["mtproto_proxy"]));
    }
    if "mtproto_proxy_alt" in sni {
      if !AsciiText(sni["mtproto_proxy_alt"]) {
        return None;
      }
      alt := "ee" + ToHex(d.altKey) + ToHex(Encode(sni["mtproto_proxy_alt"]));
    }
    if "mtproto_orig" in wanted {
      original := "dd" + ToHex(d.originalKey);
    }
    names := Some(Names(serverName, primary, alt, original));
  }

  const SS_METHOD := "2022-blake3-aes-256-gcm"

  // The credential fields, those of one protocol or key set together.
  class ServerCredentials {
    // The nine port attributes, by protocol; zero until stamped.
    var ports: map<string, int>
    var openvpnPskPem: string
    var wgKeys: WgKeys
    var awgKeys: WgKeys
    var awgJunk: Junk
    var ssPasswordB64: string
    var vless: VlessKeys
    // The server's own halves, which no document carries.
    var wgPrivate: string
    var awgPrivate: string
    var vlessPrivate: string
    var hy2: Hy2Keys
    var names: Names

    constructor ()
      ensures ports == map[]
    {
      ports, openvpnPskPem, ssPasswordB64 := map[], "", "";
      wgPrivate, awgPrivate, vlessPrivate := "", "", "";
      wgKeys, awgKeys := WgKeys("", "", "", ""), WgKeys("", "", "", "");
      awgJunk := Junk(4, 40, 70, 0, 0, 0, 0, 0, 0);
      vless, hy2, names := VlessKeys("", "", ""), Hy2Keys("", ""), Names("", "", "", "");
    }

    // The client-visible fields of one protocol.
    function GroupOf(n: string): Group
      reads this
    {
      var port := PortOf(ports, n);
      if n == "openvpn" then OpenVpn(port, openvpnPskPem)
      else if n == "wireguard" then WireGuard(port, wgKeys)
      else if n == "amneziawg" then AmneziaWg(port, awgKeys, awgJunk)
      else if n == "shadowsocks" then Shadowsocks(port, SS_METHOD, ssPasswordB64)
      else if n == "vless_reality" then Vless(port, vless.uuid, vless.publicKey, vless.shortId, names.serverName)
      else if n == "hysteria2" then Hysteria2(port, hy2.auth, hy2.obfsPassword)
      else if n == "mtproto_proxy" then MtProto(port, names.primary)
      else if n == "mtproto_proxy_alt" then MtProto(port, names.alt)
      else MtProto(port, names.original)
    }

    method ApplyPorts(wanted: map<string, int>) returns (ok: bool)
      modifies `ports
      ensures ok <==> forall n :: n in wanted ==> n in KNOWN
      ensures ok ==> ports == old(ports) + wanted
    {
      var todo := wanted.Keys;
      while todo != {}
        invariant todo <= wanted.Keys && forall n :: n in wanted && n !in todo ==> n in KNOWN
        invariant ports == old(ports) + map n | n in wanted && n !in todo :: wanted[n]
        decreases todo
      {
        var n :| n in todo;
        if n !in KNOWN {
          return false;
        }
        ports := ports[n := wanted[n]];
        todo := todo - {n};
      }
      assert (map n | n in wanted && n !in todo :: wanted[n]) == wanted;
      ok := true;
    }

    method FillAmneziaWg(d: Draws)
      requires Drawn(d)
      modifies `awgKeys, `awgJunk, `awgPrivate
      ensures awgKeys == AwgKeysOf(d) && awgPrivate == d.awgServer.0 && awgJunk == JunkOf(d)
    {
      awgPrivate := d.awgServer.0;
      awgKeys := WgKeys(d.awgServer.1, d.awgClient.0, d.awgClient.1, d.awgPsk);
      var h := MagicHeaders(d.headers);
      var s1 := d.s1 + 15;
      var s2 := ResponsePadding(s1, d.s2);
      awgJunk := Junk(d.jc + 3, d.jmin + 40, d.jmax + 70, s1, s2, h[0], h[1], h[2], h[3]);
    }

    // Every field holds what the configuration and the draws call for.
    ghost predicate Filled(wanted: map<string, int>, found: Names, d: Draws)
      reads this
    {
      && Drawn(d) && ports == wanted && names == found
      && openvpnPskPem == d.pskPem && wgKeys == WgKeysOf(d) && awgKeys == AwgKeysOf(d) && awgJunk == JunkOf(d)
      && ssPasswordB64 == d.ssPassword && vless == VlessKeysOf(d) && hy2 == Hy2Keys(d.hy2Auth, d.hy2Obfs)
      && wgPrivate == d.wgServer.0 && awgPrivate == d.awgServer.0 && vlessPrivate == d.reality.0
    }

    lemma FilledGroup(wanted: map<string, int>, sni: map<string, string>, d: Draws, n: string)
      requires Filled(wanted, NamesOf(wanted, sni, d), d) && n in KNOWN
      ensures GroupOf(n) == GroupFor(n, wanted, sni, d)
    {
    }

    // Stamps the ports and fills every field; fails on a port name it does not know.
    method Fill(wanted: map<string, int>, found: Names, d: Draws) returns (known: bool)
      requires ports == map[] && Drawn(d)
      modifies this
      ensures known <==> forall n :: n in wanted ==> n in KNOWN
      ensures known ==> Filled(wanted, found, d)
    {
      known := ApplyPorts(wanted);
      if known {
        assert map[] + wanted == wanted;
        openvpnPskPem, ssPasswordB64 := d.pskPem, d.ssPassword;
        wgKeys := WgKeys(d.wgServer.1, d.wgClient.0, d.wgClient.1, d.wgPsk);
        wgPrivate, vlessPrivate := d.wgServer.0, d.reality.0;
        FillAmneziaWg(d);
        vless := VlessKeys(d.uuid, d.reality.1, d.shortId);
        hy2 := Hy2Keys(d.hy2Auth, d.hy2Obfs);
        names := found;
      }
    }

    // All nine groups.
    function Groups(): map<string, Group>
      reads this
    {
      map n | n in KNOWN :: GroupOf(n)
    }
  }

  method GenerateCredentials(ports: map<string, int>, sni: map<string, string>, d: Draws)
    returns (creds: ServerCredentials, failure: Option<GenerateError>)
    requires Drawn(d)
    ensures fresh(creds) && failure == GenerateFailure(ports, sni, d.broken)
    ensures failure.None? ==> creds.Filled(ports, NamesOf(ports, sni, d), d)
  {
    creds := new ServerCredentials();
    var names := MakeNames(ports, sni, d);
    var found := if names.None? then Names("", "", "", "") else names.value;
    var known := creds.Fill(ports, found, d);
    if !known {
      failure := Some(UnknownPort);
    } else if OpenVpnTool in d.broken {
      failure := Some(ToolFailed(OpenVpnTool));
    } else if WgTool in d.broken {
      failure := Some(ToolFailed(WgTool));
    } else if XrayTool in d.broken {
      failure := Some(ToolFailed(XrayTool));
    } else {
      failure := if names.None? then Some(SniNotEncodable) else None;
    }
  }

  /** The server's own halves do not show in the document: with others in their place it is the
      same. */
  lemma PrivateHalvesStayHome(ports: map<string, int>, sni: map<string, string>, enabled: seq<string>, d: Draws,
                              wg: string, awg: string, reality: string)
    requires Drawn(d)
    ensures var d' := d.(wgServer := (wg, d.wgServer.1), awgServer := (awg, d.awgServer.1),
                         reality := (reality, d.reality.1));
      Drawn(d') && PrintDoc(Generated(ports, sni, d'), enabled) == PrintDoc(Generated(ports, sni, d), enabled)
  {
    var d' := d.(wgServer := (wg, d.wgServer.1), awgServer := (awg, d.awgServer.1), reality := (reality, d.reality.1));
    assert JunkOf(d') == JunkOf(d) && NamesOf(ports, sni, d') == NamesOf(ports, sni, d);
    forall n | n in KNOWN
      ensures GroupFor(n, ports, sni, d') == GroupFor(n, ports, sni, d)
    {
    }
    assert Generated(ports, sni, d') == Generated(ports, sni, d);
  }

  // ---- for every accepted configuration ----

  lemma GeneratedIsComplete(ports: map<string, int>, sni: map<string, string>, d: Draws)
    requires Drawn(d)
    ensures Complete(Generated(ports, sni, d))
  {
  }

  lemma NamesAreFull(ports: map<string, int>, sni: map<string, string>, d: Draws, n: string)
    requires Drawn(d) && Encodable(sni, "mtproto_proxy") && Encodable(sni, "mtproto_proxy_alt")
    requires n in ports && (n in SNI_USING ==> n in sni && sni[n] != "")
    ensures HasName(NamesOf(ports, sni, d), n)
  {
  }

  predicate HasName(names: Names, n: string)
  {
    && (n == "vless_reality" ==> names.serverName != "")
    && (n == "mtproto_proxy" ==> names.primary != "")
    && (n == "mtproto_proxy_alt" ==> names.alt != "")
    && (n == "mtproto_orig" ==> names.original != "")
  }

  lemma NamedGroupIsFull(ports: map<string, int>, sni: map<string, string>, d: Draws, n: string)
    requires Drawn(d) && ToolsAnswer(d) && n in KNOWN
    requires IsPort(PortOf(ports, n)) && HasName(NamesOf(ports, sni, d), n)
    ensures Full(GroupFor(n, ports, sni, d))
  {
  }

  lemma GeneratedGroupIsFull(c: ProtocolsConfig, d: Draws, n: string)
    requires Check(c) == None && GenerateFailure(c.ports, c.sni, d.broken) == None && Drawn(d) && ToolsAnswer(d)
    requires n in c.enabled
    ensures Full(GroupFor(n, c.ports, c.sni, d))
  {
    AcceptedCovers(c, n);
    NamesAreFull(c.ports, c.sni, d, n);
    NamedGroupIsFull(c.ports, c.sni, d, n);
  }

  /** Whatever the accepted configuration and the draws, the printed document parses, and
      gives every enabled protocol's client-visible fields unchanged. */
  lemma CredentialsRoundTrip(c: ProtocolsConfig, d: Draws)
    requires Check(c) == None && GenerateFailure(c.ports, c.sni, d.broken) == None && Drawn(d) && ToolsAnswer(d)
    ensures var groups := Generated(c.ports, c.sni, d);
            ParseDoc(Map(PrintDoc(groups, c.enabled))) == Ok((c.enabled, Kept(groups, c.enabled)))
  {
    var groups := Generated(c.ports, c.sni, d);
    GeneratedIsComplete(c.ports, c.sni, d);
    forall n | n in c.enabled
      ensures n in KNOWN
    {
      AcceptedCovers(c, n);
    }
    forall n | n in c.enabled && n in groups
      ensures Full(groups[n])
    {
      GeneratedGroupIsFull(c, d, n);
    }
    DocumentRoundTrip(groups, c.enabled);
  }

  /** Generation fails for an accepted configuration exactly when a key tool fails or a
      fake-TLS host name is not ASCII, which the validator does not check. */
  lemma AcceptedMayNotGenerate(c: ProtocolsConfig, broken: set<Tool>)
    requires Check(c) == None
    ensures GenerateFailure(c.ports, c.sni, broken) == None <==>
              broken == {} && Encodable(c.sni, "mtproto_proxy") && Encodable(c.sni, "mtproto_proxy_alt")
    ensures GenerateFailure(c.ports, c.sni, broken) != Some(UnknownPort)
  {
    if broken != {} {
      var tool :| tool in broken;
      assert tool.OpenVpnTool? || tool.WgTool? || tool.XrayTool?;
    }
  }

  /** The AmneziaWG parameters keep the two handshakes apart by length and the four message
      types apart by header. */
  lemma JunkKeepsMessagesApart(d: Draws)
    requires Drawn(d)
    ensures var j := JunkOf(d);
            var h := [j.h1, j.h2, j.h3, j.h4];
            && (forall a, b :: 0 <= a < b < 4 ==> h[a] != h[b])
            && (forall a :: 0 <= a < 4 ==> h[a] == 0 || 5 <= h[a] < 0x1_0000_0000)
            && 148 + j.s1 != 92 + j.s2
            && 3 <= j.jc <= 7 && 40 <= j.jmin <= 59 && 70 <= j.jmax <= 99 && 15 <= j.s1 <= 149 && 15 <= j.s2 <= 149
  {
    PickSpreads(d.headers, []);
    var h := Pick(d.headers, []);
    assert [h[0], h[1], h[2], h[3]] == h;
    FirstOtherDiffers(d.s1 + 15, d.s2);
  }

  /** Every enabled protocol is delivered its own port, and keys that belong together: the public
      halves are those of the private ones, the client's its own and the server's the server's;
      everything else is what was drawn for it. */
  lemma DeliveredGroupsFit(c: ProtocolsConfig, d: Draws, public_: string -> string)
    requires Check(c) == None && Drawn(d)
    requires d.wgServer.1 == public_(d.wgServer.0) && d.wgClient.1 == public_(d.wgClient.0)
    requires d.awgServer.1 == public_(d.awgServer.0) && d.awgClient.1 == public_(d.awgClient.0)
    ensures forall n :: n in c.enabled ==> GroupFor(n, c.ports, c.sni, d).port == c.ports[n]
    ensures var wg := GroupFor("wireguard", c.ports, c.sni, d);
      wg.WireGuard? && wg.keys == WgKeys(public_(d.wgServer.0), d.wgClient.0, public_(d.wgClient.0), d.wgPsk)
    ensures var awg := GroupFor("amneziawg", c.ports, c.sni, d);
      awg.AmneziaWg? && awg.keys == WgKeys(public_(d.awgServer.0), d.awgClient.0, public_(d.awgClient.0), d.awgPsk)
    ensures var ovpn := GroupFor("openvpn", c.ports, c.sni, d); ovpn.OpenVpn? && ovpn.pskPem == d.pskPem
    ensures var ss := GroupFor("shadowsocks", c.ports, c.sni, d);
      ss.Shadowsocks? && ss.cipher == "2022-blake3-aes-256-gcm" && ss.passwordB64 == d.ssPassword
    ensures var vless := GroupFor("vless_reality", c.ports, c.sni, d);
      && vless.Vless? && vless.uuid == d.uuid && vless.publicKey == d.reality.1 && vless.shortId == d.shortId
      && ("vless_reality" in c.sni ==> vless.serverName == c.sni["vless_reality"])
    ensures var hy2 := GroupFor("hysteria2", c.ports, c.sni, d);
      hy2.Hysteria2? && hy2.auth == d.hy2Auth && hy2.obfsPassword == d.hy2Obfs
  {
    forall n | n in c.enabled
      ensures GroupFor(n, c.ports, c.sni, d).port == c.ports[n]
    {
      AcceptedCovers(c, n);
    }
  }

  /** The secrets a client receives read back as the generated key and host name. */
  lemma DeliveredSecretsRead(c: ProtocolsConfig, d: Draws, n: string)
    requires Check(c) == None && GenerateFailure(c.ports, c.sni, d.broken) == None && Drawn(d)
    requires n in c.enabled
    ensures var g := GroupFor(n, c.ports, c.sni, d);
            && (n == "mtproto_proxy" ==> n in c.sni && ParseFakeTlsSecret(g.secret) == Ok((d.primaryKey, c.sni[n])))
            && (n == "mtproto_proxy_alt" ==> n in c.sni && ParseFakeTlsSecret(g.secret) == Ok((d.altKey, c.sni[n])))
            && (n == "mtproto_orig" ==> ParseOriginalSecret(g.secret) == Ok(d.originalKey))
  {
    AcceptedCovers(c, n);
    if n == "mtproto_proxy" {
      FakeTlsSecretRoundTrip(d.primaryKey, c.sni[n]);
    } else if n == "mtproto_proxy_alt" {
      FakeTlsSecretRoundTrip(d.altKey, c.sni[n]);
    } else if n == "mtproto_orig" {
      OriginalSecretRoundTrip(d.originalKey);
    }
  }

  /** From an accepted configuration to the client: generated, written, read, and equal. */
  method Deliver(c: ProtocolsConfig, d: Draws) returns (client: ClientCredentials)
    requires Check(c) == None && GenerateFailure(c.ports, c.sni, d.broken) == None && Drawn(d) && ToolsAnswer(d)
    ensures fresh(client) && client.enabled == c.enabled
    ensures client.groups == Kept(Generated(c.ports, c.sni, d), c.enabled)
  {
    var creds, failure := GenerateCredentials(c.ports, c.sni, d);
    GroupsFilled(creds, c.ports, c.sni, d);
    var doc := WriteDocument(creds.Groups(), c.enabled);
    client := new ClientCredentials();
    CredentialsRoundTrip(c, d);
    var unread := client.Fill(Map(doc));
  }

  lemma GroupsFilled(creds: ServerCredentials, ports: map<string, int>, sni: map<string, string>, d: Draws)
    requires Drawn(d) && creds.Filled(ports, NamesOf(ports, sni, d), d)
    ensures creds.Groups() == Generated(ports, sni, d)
  {
    forall n | n in KNOWN
      ensures creds.GroupOf(n) == GroupFor(n, ports, sni, d)
    {
      creds.FilledGroup(ports, sni, d, n);
    }
  }
}
