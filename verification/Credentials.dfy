/** One-time credentials on their way from the listener to the client: generated, written as
    one document, and read back. */
module Credentials {
  import opened Wrappers
  import opened Config
  import opened Registry

  // What a client needs for one protocol.
  datatype Group =
    | OpenVpn(port: int, pskPem: string)
    | WireGuard(port: int, keys: WgKeys)
    | AmneziaWg(port: int, keys: WgKeys, junk: Junk)
    | Shadowsocks(port: int, cipher: string, passwordB64: string)
    | Vless(port: int, uuid: string, publicKey: string, shortId: string, serverName: string)
    | Hysteria2(port: int, auth: string, obfsPassword: string)
    | MtProto(port: int, secret: string)

  datatype WgKeys = WgKeys(serverPublic: string, clientPrivate: string, clientPublic: string, presharedKey: string)

  datatype Junk = Junk(jc: int, jmin: int, jmax: int, s1: int, s2: int, h1: int, h2: int, h3: int, h4: int)

  // ---- documents ----

  datatype Yaml =
    Text(text: string) | Number(number: int) | Flag(flag: bool) | Null | List(items: seq<Yaml>) | Map(entries: Section)

  type Section = map<string, Yaml>

  function KeySection(k: WgKeys): Section
  {
    map["server_public_key" := Text(k.serverPublic), "client_private_key" := Text(k.clientPrivate),
        "client_public_key" := Text(k.clientPublic), "preshared_key" := Text(k.presharedKey)]
  }

  function JunkSection(j: Junk): Section
  {
    map["jc" := Number(j.jc), "jmin" := Number(j.jmin), "jmax" := Number(j.jmax),
        "s1" := Number(j.s1), "s2" := Number(j.s2),
        "h1" := Number(j.h1), "h2" := Number(j.h2), "h3" := Number(j.h3), "h4" := Number(j.h4)]
  }

  // The section builders.
  function Print(g: Group): Section
  {
    match g
    case OpenVpn(port, pskPem) => map["port" := Number(port), "protocol" := Text("udp"), "psk_pem" := Text(pskPem)]
    case WireGuard(port, keys) => map["port" := Number(port)] + KeySection(keys)
    case AmneziaWg(port, keys, junk) => map["port" := Number(port)] + KeySection(keys) + JunkSection(junk)
    case Shadowsocks(port, cipher, passwordB64) =>
      map["port" := Number(port), "method" := Text(cipher), "password_b64" := Text(passwordB64)]
    case Vless(port, uuid, publicKey, shortId, serverName) =>
      map["port" := Number(port), "uuid" := Text(uuid), "public_key" := Text(publicKey),
          "short_id" := Text(shortId), "server_name" := Text(serverName)]
    case Hysteria2(port, auth, obfsPassword) =>
      map["port" := Number(port), "auth" := Text(auth), "obfs_password" := Text(obfsPassword)]
    case MtProto(port, secret) => map["port" := Number(port), "secret" := Text(secret)]
  }

  // ---- reading a section ----

  datatype ReadError =
    NotMapping | BadEnabled | BadSection(name: string) | Missing(key: string) | Invalid(key: string)
    | MissingSections | UnknownNames

  function Required(s: Section, key: string): Result<Yaml, ReadError>
  {
    if key !in s || s[key].Null? then Err(Missing(key)) else Ok(s[key])
  }

  function RequiredStr(s: Section, key: string): Result<string, ReadError>
  {
    var v :- Required(s, key);
    if !v.Text? || v.text == "" then Err(Invalid(key)) else Ok(v.text)
  }

  function RequiredInt(s: Section, key: string): Result<int, ReadError>
  {
    var v :- Required(s, key);
    if !v.Number? then Err(Invalid(key)) else Ok(v.number)
  }

  function RequiredPort(s: Section): Result<int, ReadError>
  {
    var port :- RequiredInt(s, "port");
    if !IsPort(port) then Err(Invalid("port")) else Ok(port)
  }

  function ReadKeys(s: Section): Result<WgKeys, ReadError>
  {
    var serverPublic :- RequiredStr(s, "server_public_key");
    var clientPrivate :- RequiredStr(s, "client_private_key");
    var clientPublic :- RequiredStr(s, "client_public_key");
    var presharedKey :- RequiredStr(s, "preshared_key");
    Ok(WgKeys(serverPublic, clientPrivate, clientPublic, presharedKey))
  }

  function ReadJunk(s: Section): Result<Junk, ReadError>
  {
    var jc :- RequiredInt(s, "jc");
    var jmin :- RequiredInt(s, "jmin");
    var jmax :- RequiredInt(s, "jmax");
    var s1 :- RequiredInt(s, "s1");
    var s2 :- RequiredInt(s, "s2");
    var h1 :- RequiredInt(s, "h1");
    var h2 :- RequiredInt(s, "h2");
    var h3 :- RequiredInt(s, "h3");
    var h4 :- RequiredInt(s, "h4");
    Ok(Junk(jc, jmin, jmax, s1, s2, h1, h2, h3, h4))
  }

  function ReadSecret(s: Section): Result<Group, ReadError>
  {
    var port :- RequiredPort(s);
    var secret :- RequiredStr(s, "secret");
    Ok(MtProto(port, secret))
  }

  function ReadOpenVpn(s: Section): Result<Group, ReadError>
  {
    var port :- RequiredPort(s);
    var pskPem :- RequiredStr(s, "psk_pem");
    Ok(OpenVpn(port, pskPem))
  }

  function ReadWireGuard(s: Section): Result<Group, ReadError>
  {
    var port :- RequiredPort(s);
    var keys :- ReadKeys(s);
    Ok(WireGuard(port, keys))
  }

  function ReadAmneziaWg(s: Section): Result<Group, ReadError>
  {
    var port :- RequiredPort(s);
    var keys :- ReadKeys(s);
    var junk :- ReadJunk(s);
    Ok(AmneziaWg(port, keys, junk))
  }

  function ReadShadowsocks(s: Section): Result<Group, ReadError>
  {
    var port :- RequiredPort(s);
    var cipher :- RequiredStr(s, "method");
    var passwordB64 :- RequiredStr(s, "password_b64");
    Ok(Shadowsocks(port, cipher, passwordB64))
  }

  function ReadVless(s: Section): Result<Group, ReadError>
  {
    var port :- RequiredPort(s);
    var uuid :- RequiredStr(s, "uuid");
    var publicKey :- RequiredStr(s, "public_key");
    var shortId :- RequiredStr(s, "short_id");
    var serverName :- RequiredStr(s, "server_name");
    Ok(Vless(port, uuid, publicKey, shortId, serverName))
  }

  function ReadHysteria2(s: Section): Result<Group, ReadError>
  {
    var port :- RequiredPort(s);
    var auth :- RequiredStr(s, "auth");
    var obfsPassword :- RequiredStr(s, "obfs_password");
    Ok(Hysteria2(port, auth, obfsPassword))
  }

  function Read(name: string, s: Section): Result<Group, ReadError>
    requires name in KNOWN
  {
    if name == "openvpn" then ReadOpenVpn(s)
    else if name == "wireguard" then ReadWireGuard(s)
    else if name == "amneziawg" then ReadAmneziaWg(s)
    else if name == "shadowsocks" then ReadShadowsocks(s)
    else if name == "vless_reality" then ReadVless(s)
    else if name == "hysteria2" then ReadHysteria2(s)
    else ReadSecret(s)
  }

  // The group that belongs to a protocol.
  predicate Suits(name: string, g: Group)
  {
    if name == "openvpn" then g.OpenVpn?
    else if name == "wireguard" then g.WireGuard?
    else if name == "amneziawg" then g.AmneziaWg?
    else if name == "shadowsocks" then g.Shadowsocks?
    else if name == "vless_reality" then g.Vless?
    else if name == "hysteria2" then g.Hysteria2?
    else g.MtProto?
  }

  predicate FullKeys(k: WgKeys)
  {
    k.serverPublic != "" && k.clientPrivate != "" && k.clientPublic != "" && k.presharedKey != ""
  }

  // A usable port, and nothing empty.
  predicate Full(g: Group)
  {
    && IsPort(g.port)
    && match g
       case OpenVpn(_, pskPem) => pskPem != ""
       case WireGuard(_, keys) => FullKeys(keys)
       case AmneziaWg(_, keys, _) => FullKeys(keys)
       case Shadowsocks(_, cipher, passwordB64) => cipher != "" && passwordB64 != ""
       case Vless(_, uuid, publicKey, shortId, serverName) =>
         uuid != "" && publicKey != "" && shortId != "" && serverName != ""
       case Hysteria2(_, auth, obfsPassword) => auth != "" && obfsPassword != ""
       case MtProto(_, secret) => secret != ""
  }

  // ---- a section reads back as the group it was written from ----

  // The section holds every entry of `t`.
  ghost predicate Has(s: Section, t: Section)
  {
    forall key :: key in t ==> key in s && s[key] == t[key]
  }

  lemma KeysRead(s: Section, k: WgKeys)
    requires Has(s, KeySection(k))
    ensures ReadKeys(s).Ok? <==> FullKeys(k)
    ensures FullKeys(k) ==> ReadKeys(s) == Ok(k)
  {
    var t := KeySection(k);
    assert "server_public_key" in t && "client_private_key" in t && "client_public_key" in t && "preshared_key" in t;
  }

  predicate Numbered(s: Section, key: string, n: int)
  {
    key in s && s[key] == Number(n)
  }

  predicate Padded(s: Section, j: Junk)
  {
    && Numbered(s, "jc", j.jc) && Numbered(s, "jmin", j.jmin) && Numbered(s, "jmax", j.jmax)
    && Numbered(s, "s1", j.s1) && Numbered(s, "s2", j.s2)
    && Numbered(s, "h1", j.h1) && Numbered(s, "h2", j.h2) && Numbered(s, "h3", j.h3) && Numbered(s, "h4", j.h4)
  }

  lemma JunkHas(s: Section, j: Junk)
    ensures Has(s, JunkSection(j)) <==> Padded(s, j)
  {
    var t := JunkSection(j);
    assert "jc" in t && "jmin" in t && "jmax" in t && "s1" in t && "s2" in t;
    assert "h1" in t && "h2" in t && "h3" in t && "h4" in t;
  }

  lemma NumberRead(s: Section, key: string, n: int)
    ensures RequiredInt(s, key) == Ok(n) <==> Numbered(s, key, n)
  {
  }

  lemma JunkExactly(s: Section, j: Junk)
    ensures ReadJunk(s) == Ok(j) <==> Has(s, JunkSection(j))
  {
    JunkHas(s, j);
    NumberRead(s, "jc", j.jc);
    NumberRead(s, "jmin", j.jmin);
    NumberRead(s, "jmax", j.jmax);
    NumberRead(s, "s1", j.s1);
    NumberRead(s, "s2", j.s2);
    NumberRead(s, "h1", j.h1);
    NumberRead(s, "h2", j.h2);
    NumberRead(s, "h3", j.h3);
    NumberRead(s, "h4", j.h4);
  }

  // Reading gives the group back, or fails, as the group is full or not.
  predicate RoundTrips(read: Result<Group, ReadError>, g: Group)
  {
    if Full(g) then read == Ok(g) else read.Err?
  }

  lemma OpenVpnRoundTrip(g: Group)
    requires g.OpenVpn?
    ensures RoundTrips(ReadOpenVpn(Print(g)), g)
  {
  }

  lemma WireGuardRoundTrip(g: Group)
    requires g.WireGuard?
    ensures RoundTrips(ReadWireGuard(Print(g)), g)
  {
    assert "port" !in KeySection(g.keys);
    KeysRead(Print(g), g.keys);
  }

  // The section says everything the group holds.  The transport of OpenVPN is written but not read.
  ghost predicate Carries(s: Section, g: Group)
  {
    Has(s, Print(g) - {"protocol"})
  }

  lemma HasBoth(s: Section, t: Section, u: Section)
    requires t.Keys !! u.Keys
    ensures Has(s, t + u) <==> Has(s, t) && Has(s, u)
  {
    if Has(s, t + u) {
      assert forall key :: key in t ==> key in t + u && (t + u)[key] == t[key];
      assert forall key :: key in u ==> key in t + u && (t + u)[key] == u[key];
    }
  }

  lemma HasThree(s: Section, t: Section, u: Section, v: Section)
    requires t.Keys !! u.Keys && t.Keys !! v.Keys && u.Keys !! v.Keys
    ensures Has(s, t + u + v) <==> Has(s, t) && Has(s, u) && Has(s, v)
  {
    HasBoth(s, t + u, v);
    HasBoth(s, t, u);
  }

  lemma AmneziaWgKeys(keys: WgKeys, junk: Junk)
    ensures var k, j := KeySection(keys), JunkSection(junk);
      k.Keys !! j.Keys && "port" !in k && "port" !in j && "protocol" !in k && "protocol" !in j
  {
  }

  lemma AmneziaWgSays(s: Section, g: Group)
    requires g.AmneziaWg?
    ensures Carries(s, g) <==>
            Numbered(s, "port", g.port) && Has(s, KeySection(g.keys)) && Has(s, JunkSection(g.junk))
  {
    var port, keys, junk := map["port" := Number(g.port)], KeySection(g.keys), JunkSection(g.junk);
    AmneziaWgKeys(g.keys, g.junk);
    Without(port + keys + junk, "protocol");
    HasThree(s, port, keys, junk);
    assert "port" in port;
  }

  lemma Without(t: Section, key: string)
    requires key !in t
    ensures t - {key} == t
  {
  }

  lemma AmneziaWgRoundTrip(g: Group)
    requires g.AmneziaWg?
    ensures RoundTrips(ReadAmneziaWg(Print(g)), g)
  {
    AmneziaWgSays(Print(g), g);
    KeysRead(Print(g), g.keys);
    JunkExactly(Print(g), g.junk);
  }

  lemma ShadowsocksRoundTrip(g: Group)
    requires g.Shadowsocks?
    ensures RoundTrips(ReadShadowsocks(Print(g)), g)
  {
  }

  lemma VlessRoundTrip(g: Group)
    requires g.Vless?
    ensures RoundTrips(ReadVless(Print(g)), g)
  {
  }

  lemma Hysteria2RoundTrip(g: Group)
    requires g.Hysteria2?
    ensures RoundTrips(ReadHysteria2(Print(g)), g)
  {
  }

  lemma SecretRoundTrip(g: Group)
    requires g.MtProto?
    ensures RoundTrips(ReadSecret(Print(g)), g)
  {
  }

  /** A section reads back as the group it was written from exactly when it is full. */
  lemma SectionRoundTrip(name: string, g: Group)
    requires name in KNOWN && Suits(name, g)
    ensures RoundTrips(Read(name, Print(g)), g)
  {
    match g
    case OpenVpn(_, _) => OpenVpnRoundTrip(g);
    case WireGuard(_, _) => WireGuardRoundTrip(g);
    case AmneziaWg(_, _, _) => AmneziaWgRoundTrip(g);
    case Shadowsocks(_, _, _) => ShadowsocksRoundTrip(g);
    case Vless(_, _, _, _, _) => VlessRoundTrip(g);
    case Hysteria2(_, _, _) => Hysteria2RoundTrip(g);
    case MtProto(_, _) => SecretRoundTrip(g);
  }

  // ---- which sections read, and as which group ----

  lemma KeysExactly(s: Section, k: WgKeys)
    ensures ReadKeys(s) == Ok(k) <==> FullKeys(k) && Has(s, KeySection(k))
  {
    if FullKeys(k) && Has(s, KeySection(k)) {
      KeysRead(s, k);
    }
  }

  lemma PortExactly(s: Section, port: int)
    ensures RequiredPort(s) == Ok(port) <==> IsPort(port) && Numbered(s, "port", port)
  {
  }

  lemma OpenVpnExactly(s: Section, g: Group)
    ensures ReadOpenVpn(s) == Ok(g) <==> g.OpenVpn? && Full(g) && Carries(s, g)
  {
    if g.OpenVpn? {
      var t := Print(g) - {"protocol"};
      assert "port" in t && "psk_pem" in t;
    }
  }

  lemma WireGuardExactly(s: Section, g: Group)
    ensures ReadWireGuard(s) == Ok(g) <==> g.WireGuard? && Full(g) && Carries(s, g)
  {
    if g.WireGuard? {
      var port, keys := map["port" := Number(g.port)], KeySection(g.keys);
      assert "port" !in keys && "protocol" !in keys;
      assert Print(g) - {"protocol"} == port + keys;
      HasBoth(s, port, keys);
      KeysExactly(s, g.keys);
    }
  }

  lemma AmneziaWgExactly(s: Section, g: Group)
    ensures ReadAmneziaWg(s) == Ok(g) <==> g.AmneziaWg? && Full(g) && Carries(s, g)
  {
    if g.AmneziaWg? {
      AmneziaWgSays(s, g);
      PortExactly(s, g.port);
      KeysExactly(s, g.keys);
      JunkExactly(s, g.junk);
    }
  }

  lemma ShadowsocksExactly(s: Section, g: Group)
    ensures ReadShadowsocks(s) == Ok(g) <==> g.Shadowsocks? && Full(g) && Carries(s, g)
  {
    if g.Shadowsocks? {
      var t := Print(g) - {"protocol"};
      assert "port" in t && "method" in t && "password_b64" in t;
    }
  }

  lemma VlessExactly(s: Section, g: Group)
    ensures ReadVless(s) == Ok(g) <==> g.Vless? && Full(g) && Carries(s, g)
  {
    if g.Vless? {
      var t := Print(g) - {"protocol"};
      assert "port" in t && "uuid" in t && "public_key" in t && "short_id" in t;
      assert "server_name" in t;
    }
  }

  lemma Hysteria2Exactly(s: Section, g: Group)
    ensures ReadHysteria2(s) == Ok(g) <==> g.Hysteria2? && Full(g) && Carries(s, g)
  {
    if g.Hysteria2? {
      var t := Print(g) - {"protocol"};
      assert "port" in t && "auth" in t && "obfs_password" in t;
    }
  }

  lemma SecretExactly(s: Section, g: Group)
    ensures ReadSecret(s) == Ok(g) <==> g.MtProto? && Full(g) && Carries(s, g)
  {
    if g.MtProto? {
      var t := Print(g) - {"protocol"};
      assert "port" in t && "secret" in t;
    }
  }

  /** Any section at all reads as a group exactly when that is the protocol's kind of group, is
      full, and the section says everything it holds, whatever else the section says. */
  lemma SectionReadsExactly(name: string, s: Section, g: Group)
    requires name in KNOWN
    ensures Read(name, s) == Ok(g) <==> Suits(name, g) && Full(g) && Carries(s, g)
  {
    OpenVpnExactly(s, g);
    WireGuardExactly(s, g);
    AmneziaWgExactly(s, g);
    ShadowsocksExactly(s, g);
    VlessExactly(s, g);
    Hysteria2Exactly(s, g);
    SecretExactly(s, g);
  }

  // ---- the whole document ----

  const NOTE := "_note"
  const ENABLED := "_protocols_enabled"

  function Texts(names: seq<string>): (items: seq<Yaml>)
    ensures |items| == |names| && forall i :: 0 <= i < |names| ==> items[i] == Text(names[i])
  {
    seq(|names|, i requires 0 <= i < |names| => Text(names[i]))
  }

  function Sections(groups: map<string, Group>, names: seq<string>): Section
  {
    map n | n in names && n in KNOWN && n in groups :: Map(Print(groups[n]))
  }

  function Header(enabled: seq<string>): Section
  {
    map[NOTE := Text("One-time test credentials. Do not use for production VPN."), ENABLED := List(Texts(enabled))]
  }

  function PrintDoc(groups: map<string, Group>, enabled: seq<string>): Section
  {
    Header(enabled) + Sections(groups, enabled)
  }

  lemma SectionsGrow(groups: map<string, Group>, names: seq<string>, n: string)
    ensures Sections(groups, names + [n])
         == if n in KNOWN && n in groups then Sections(groups, names)[n := Map(Print(groups[n]))]
            else Sections(groups, names)
  {
  }

  lemma HeaderThenSection(header: Section, sections: Section, n: string, y: Yaml)
    ensures header + sections[n := y] == (header + sections)[n := y]
  {
  }

  /** One section per enabled protocol that has a builder, after the note and the list. */
  method WriteDocument(groups: map<string, Group>, enabled: seq<string>) returns (doc: Section)
    ensures doc == PrintDoc(groups, enabled)
  {
    doc := Header(enabled);
    for i := 0 to |enabled|
      invariant doc == Header(enabled) + Sections(groups, enabled[..i])
    {
      var n := enabled[i];
      assert enabled[..i + 1] == enabled[..i] + [n];
      SectionsGrow(groups, enabled[..i], n);
      if n in KNOWN && n in groups {
        HeaderThenSection(Header(enabled), Sections(groups, enabled[..i]), n, Map(Print(groups[n])));
        doc := doc[n := Map(Print(groups[n]))];
      }
    }
    assert enabled[..|enabled|] == enabled;
  }

  // What the document holds for a known protocol: nothing, or a section that reads or fails.
  function Found(raw: Section): string -> Option<Result<Group, ReadError>>
  {
    (key: string) =>
      if key !in raw || key !in KNOWN then None
      else if !raw[key].Map? then Some(Err(BadSection(key)))
      else Some(Read(key, raw[key].entries))
  }

  function Gather(found: string -> Option<Result<Group, ReadError>>, keys: seq<string>,
                  acc: map<string, Group>): Result<map<string, Group>, ReadError>
  {
    if keys == [] then Ok(acc)
    else
      match found(keys[0])
      case None => Gather(found, keys[1..], acc)
      case Some(Err(e)) => Err(e)
      case Some(Ok(g)) => Gather(found, keys[1..], acc[keys[0] := g])
  }

  function EnabledNames(raw: Section): Result<seq<string>, ReadError>
  {
    if ENABLED in raw && raw[ENABLED].List?
       && (forall i :: 0 <= i < |raw[ENABLED].items| ==> raw[ENABLED].items[i].Text?)
    then Ok(seq(|raw[ENABLED].items|, i requires 0 <= i < |raw[ENABLED].items| => raw[ENABLED].items[i].text))
    else Err(BadEnabled)
  }

  // The enabled list against the sections: first the known names, then the others.
  function CrossCheck(raw: Section, enabled: seq<string>): Option<ReadError>
  {
    if exists i :: 0 <= i < |enabled| && enabled[i] in KNOWN && enabled[i] !in raw then Some(MissingSections)
    else if exists i :: 0 <= i < |enabled| && enabled[i] !in KNOWN then Some(UnknownNames)
    else None
  }

  function ParseDoc(doc: Yaml): Result<(seq<string>, map<string, Group>), ReadError>
  {
    if !doc.Map? then Err(NotMapping)
    else
      var enabled :- EnabledNames(doc.entries);
      var groups :- Gather(Found(doc.entries), KNOWN, map[]);
      match CrossCheck(doc.entries, enabled)
      case Some(e) => Err(e)
      case None => Ok((enabled, groups))
  }

  // What the client holds; a protocol without a section has no group.
  class ClientCredentials {
    var enabled: seq<string>
    var groups: map<string, Group>

    constructor ()
      ensures enabled == [] && groups == map[]
    {
      enabled, groups := [], map[];
    }

    // Runs the section parsers, in their order.
    method FillSections(raw: Section, keys: seq<string>) returns (failure: Option<ReadError>)
      modifies `groups
      ensures match Gather(Found(raw), keys, old(groups))
              case Ok(all) => failure == None && groups == all
              case Err(e) => failure == Some(e)
    {
      for i := 0 to |keys|
        invariant Gather(Found(raw), keys[i..], groups) == Gather(Found(raw), keys, old(groups))
      {
        assert keys[i..][0] == keys[i] && keys[i..][1..] == keys[i + 1..];
        var section := Found(raw)(keys[i]);
        if section.Some? {
          if section.value.Err? {
            return Some(section.value.error);
          }
          groups := groups[keys[i] := section.value.value];
        }
      }
      failure := None;
    }

    /** Reads the enabled list and the sections, then checks one against the other. */
    method Fill(doc: Yaml) returns (failure: Option<ReadError>)
      requires enabled == [] && groups == map[]
      modifies this
      ensures failure == match ParseDoc(doc) { case Ok(_) => None case Err(e) => Some(e) }
      ensures failure.None? ==> ParseDoc(doc) == Ok((enabled, groups))
    {
      if !doc.Map? {
        return Some(NotMapping);
      }
      var names := EnabledNames(doc.entries);
      if names.Err? {
        return Some(names.error);
      }
      enabled := names.value;
      failure := FillSections(doc.entries, KNOWN);
      if failure.None? {
        failure := CrossCheck(doc.entries, enabled);
      }
    }
  }

  // ---- and back ----

  function Kept(groups: map<string, Group>, enabled: seq<string>): map<string, Group>
  {
    map n | n in enabled && n in groups :: groups[n]
  }

  // Every known protocol has its own kind of group.
  ghost predicate Complete(groups: map<string, Group>)
  {
    forall n :: n in KNOWN ==> n in groups && Suits(n, groups[n])
  }

  ghost predicate AllFull(groups: map<string, Group>, enabled: seq<string>)
  {
    forall n :: n in enabled && n in groups ==> Full(groups[n])
  }

  predicate Agrees(found: string -> Option<Result<Group, ReadError>>, kept: map<string, Group>, k: string)
  {
    found(k) == if k in kept then Some(Ok(kept[k])) else None
  }

  lemma {:induction false} GatherAll(found: string -> Option<Result<Group, ReadError>>, keys: seq<string>,
                                     acc: map<string, Group>, kept: map<string, Group>)
    requires forall k :: k in keys ==> Agrees(found, kept, k)
    requires forall k :: k in kept ==> k in keys || (k in acc && acc[k] == kept[k])
    requires forall k :: k in acc ==> k in kept && acc[k] == kept[k]
    ensures Gather(found, keys, acc) == Ok(kept)
  {
    if keys == [] {
      assert acc == kept;
    } else {
      var key, rest := keys[0], keys[1..];
      assert Agrees(found, kept, key);
      assert forall k :: k in keys ==> k == key || k in rest;
      GatherAll(found, rest, if key in kept then acc[key := kept[key]] else acc, kept);
    }
  }

  lemma {:induction false} GatherFails(found: string -> Option<Result<Group, ReadError>>, keys: seq<string>,
                                       acc: map<string, Group>, bad: string)
    requires bad in keys && found(bad).Some? && found(bad).value.Err?
    ensures Gather(found, keys, acc).Err?
  {
    if keys[0] != bad {
      match found(keys[0])
      case None => GatherFails(found, keys[1..], acc, bad);
      case Some(Err(_)) =>
      case Some(Ok(g)) => GatherFails(found, keys[1..], acc[keys[0] := g], bad);
    }
  }

  lemma GatherExactly(found: string -> Option<Result<Group, ReadError>>, keys: seq<string>, all: map<string, Group>)
    ensures Gather(found, keys, map[]) == Ok(all) <==>
              (forall k :: k in all ==> k in keys) && forall k :: k in keys ==> Agrees(found, all, k)
  {
    if bad :| bad in keys && found(bad).Some? && found(bad).value.Err? {
      GatherFails(found, keys, map[], bad);
      assert !Agrees(found, all, bad);
    } else {
      var kept := map k | k in keys && found(k).Some? :: found(k).value.value;
      GatherAll(found, keys, map[], kept);
      if (forall k :: k in all ==> k in keys) && forall k :: k in keys ==> Agrees(found, all, k) {
        GatherAll(found, keys, map[], all);
      }
    }
  }

  lemma HeaderStaysApart(n: string)
    requires n in KNOWN
    ensures n != NOTE && n != ENABLED
  {
    assert n[0] != '_' && NOTE[0] == '_' && ENABLED[0] == '_';
  }

  lemma HeaderIsUnknown()
    ensures NOTE !in KNOWN && ENABLED !in KNOWN
  {
    if ENABLED in KNOWN {
      HeaderStaysApart(ENABLED);
    }
    if NOTE in KNOWN {
      HeaderStaysApart(NOTE);
    }
  }

  lemma SectionPrinted(header: Section, groups: map<string, Group>, enabled: seq<string>, k: string)
    requires k !in header && k in KNOWN && k in groups
    ensures var doc := header + Sections(groups, enabled);
            if k in enabled then k in doc && doc[k] == Map(Print(groups[k])) else k !in doc
  {
  }

  lemma FoundSection(raw: Section, k: string, s: Section)
    requires k in KNOWN && k in raw && raw[k] == Map(s)
    ensures Found(raw)(k) == Some(Read(k, s))
  {
  }

  lemma FoundAsPrinted(groups: map<string, Group>, enabled: seq<string>, k: string)
    requires Complete(groups) && k in KNOWN
    ensures var found := Found(PrintDoc(groups, enabled))(k);
            if k in enabled then found.Some? && RoundTrips(found.value, groups[k]) else found == None
  {
    HeaderStaysApart(k);
    var header := Header(enabled);
    assert k !in header;
    SectionPrinted(header, groups, enabled, k);
    if k in enabled {
      FoundSection(PrintDoc(groups, enabled), k, Print(groups[k]));
      SectionRoundTrip(k, groups[k]);
    }
  }

  lemma EnabledReadsBack(groups: map<string, Group>, enabled: seq<string>)
    ensures EnabledNames(PrintDoc(groups, enabled)) == Ok(enabled)
  {
    HeaderIsUnknown();
    assert PrintDoc(groups, enabled)[ENABLED] == List(Texts(enabled));
    assert EnabledNames(PrintDoc(groups, enabled)).value == enabled;
  }

  lemma CrossChecks(groups: map<string, Group>, enabled: seq<string>)
    requires Complete(groups) && forall n :: n in enabled ==> n in KNOWN
    ensures CrossCheck(PrintDoc(groups, enabled), enabled) == None
  {
    forall i | 0 <= i < |enabled|
      ensures enabled[i] in PrintDoc(groups, enabled)
    {
      assert enabled[i] in enabled;
    }
  }

  lemma FullSectionFound(groups: map<string, Group>, enabled: seq<string>, k: string)
    requires Complete(groups) && AllFull(groups, enabled) && k in KNOWN
    ensures Agrees(Found(PrintDoc(groups, enabled)), Kept(groups, enabled), k)
  {
    FoundAsPrinted(groups, enabled, k);
  }

  lemma FullSectionsGather(groups: map<string, Group>, enabled: seq<string>, keys: seq<string>)
    requires Complete(groups) && AllFull(groups, enabled)
    requires (forall n :: n in enabled ==> n in keys) && forall k :: k in keys ==> k in KNOWN
    ensures Gather(Found(PrintDoc(groups, enabled)), keys, map[]) == Ok(Kept(groups, enabled))
  {
    var found, kept := Found(PrintDoc(groups, enabled)), Kept(groups, enabled);
    assert forall k :: k in keys ==> Agrees(found, kept, k) by {
      forall k | k in keys
        ensures Agrees(found, kept, k)
      {
        FullSectionFound(groups, enabled, k);
      }
    }
    GatherAll(found, keys, map[], kept);
  }

  lemma EmptySectionFails(groups: map<string, Group>, enabled: seq<string>, keys: seq<string>)
    requires Complete(groups) && !AllFull(groups, enabled)
    requires (forall n :: n in enabled ==> n in keys) && forall k :: k in keys ==> k in KNOWN
    ensures Gather(Found(PrintDoc(groups, enabled)), keys, map[]).Err?
  {
    var bad :| bad in enabled && bad in groups && !Full(groups[bad]);
    FoundAsPrinted(groups, enabled, bad);
    GatherFails(Found(PrintDoc(groups, enabled)), keys, map[], bad);
  }

  /** A written document reads back exactly when every enabled protocol's group is full, and
      then gives the enabled list and the enabled groups unchanged, and nothing else. */
  lemma DocumentRoundTrip(groups: map<string, Group>, enabled: seq<string>)
    requires Complete(groups) && forall n :: n in enabled ==> n in KNOWN
    ensures AllFull(groups, enabled) ==>
              ParseDoc(Map(PrintDoc(groups, enabled))) == Ok((enabled, Kept(groups, enabled)))
    ensures !AllFull(groups, enabled) ==> ParseDoc(Map(PrintDoc(groups, enabled))).Err?
  {
    EnabledReadsBack(groups, enabled);
    if AllFull(groups, enabled) {
      CrossChecks(groups, enabled);
      FullSectionsGather(groups, enabled, KNOWN);
    } else {
      EmptySectionFails(groups, enabled, KNOWN);
    }
  }

  lemma EnabledExactly(raw: Section, enabled: seq<string>)
    ensures EnabledNames(raw) == Ok(enabled) <==>
              "_protocols_enabled" in raw && raw["_protocols_enabled"] == List(Texts(enabled))
  {
    if ENABLED in raw && raw[ENABLED] == List(Texts(enabled)) {
      assert EnabledNames(raw).value == enabled;
    }
    if EnabledNames(raw) == Ok(enabled) {
      assert raw[ENABLED].items == Texts(enabled);
    }
  }

  lemma CrossCheckExactly(raw: Section, enabled: seq<string>)
    ensures CrossCheck(raw, enabled) == None <==> forall n :: n in enabled ==> n in KNOWN && n in raw
  {
    if forall n :: n in enabled ==> n in KNOWN && n in raw {
      assert forall i :: 0 <= i < |enabled| ==> enabled[i] in enabled;
    }
  }

  // The client holds a group under `n` exactly when the document has it as a section, and then
  // the group that the section reads as.
  ghost predicate Gives(raw: Section, groups: map<string, Group>, n: string)
    requires n in KNOWN
  {
    && (n in groups <==> n in raw)
    && (n in groups ==> raw[n].Map? && Read(n, raw[n].entries) == Ok(groups[n]))
  }

  lemma FoundExactly(raw: Section, groups: map<string, Group>, n: string)
    requires n in KNOWN
    ensures Agrees(Found(raw), groups, n) <==> Gives(raw, groups, n)
  {
  }

  ghost predicate GivesAll(raw: Section, groups: map<string, Group>, keys: seq<string>)
    requires forall n :: n in keys ==> n in KNOWN
  {
    (forall n :: n in groups ==> n in keys) && forall n :: n in keys ==> Gives(raw, groups, n)
  }

  lemma GroupsExactly(raw: Section, groups: map<string, Group>, keys: seq<string>)
    requires forall n :: n in keys ==> n in KNOWN
    ensures Gather(Found(raw), keys, map[]) == Ok(groups) <==> GivesAll(raw, groups, keys)
  {
    GatherExactly(Found(raw), keys, groups);
    forall n | n in keys
      ensures Agrees(Found(raw), groups, n) <==> Gives(raw, groups, n)
    {
      FoundExactly(raw, groups, n);
    }
  }

  /** Any document at all is accepted exactly when it lists the enabled names as texts, each known
      and with a section, and every section of a known protocol reads: the client then holds the
      group of each such section, and no other. */
  lemma DocumentReadsExactly(doc: Yaml, enabled: seq<string>, groups: map<string, Group>)
    ensures ParseDoc(doc) == Ok((enabled, groups)) <==>
              && doc.Map?
              && "_protocols_enabled" in doc.entries && doc.entries["_protocols_enabled"] == List(Texts(enabled))
              && (forall n :: n in enabled ==> n in KNOWN && n in doc.entries)
              && GivesAll(doc.entries, groups, KNOWN)
  {
    if doc.Map? {
      GroupsExactly(doc.entries, groups, KNOWN);
      EnabledExactly(doc.entries, enabled);
      CrossCheckExactly(doc.entries, enabled);
    }
  }
}
