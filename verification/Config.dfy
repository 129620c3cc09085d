/** The validator of the configuration's protocol section. */
module Config {
  import opened Wrappers
  import opened Registry

  datatype ProtocolsConfig = ProtocolsConfig(
    enabled: seq<string>, priority: seq<string>, ports: map<string, int>, sni: map<string, string>)

  datatype ConfigError =
    UnknownEnabled | UnknownPriority | MissingPorts | UnknownPorts | BadPorts | MissingSni | OrphanSni | EmptySni

  const SNI_USING := {"vless_reality", "mtproto_proxy", "mtproto_proxy_alt"}

  predicate IsPort(p: int)
  {
    1 <= p <= 65535
  }

  // The first rule that is broken, in the validator's order.
  function Check(c: ProtocolsConfig): Option<ConfigError>
  {
    if exists i :: 0 <= i < |c.enabled| && c.enabled[i] !in KNOWN then Some(UnknownEnabled)
    else if exists i :: 0 <= i < |c.priority| && c.priority[i] !in KNOWN then Some(UnknownPriority)
    else if exists i :: 0 <= i < |c.enabled| && c.enabled[i] !in c.ports then Some(MissingPorts)
    else if exists n :: n in c.ports && n !in KNOWN then Some(UnknownPorts)
    else if exists n :: n in c.ports && !IsPort(c.ports[n]) then Some(BadPorts)
    else if exists n :: n in SNI_USING && n in c.enabled && n !in c.sni then Some(MissingSni)
    else if exists n :: n in c.sni && n !in SNI_USING then Some(OrphanSni)
    else if exists n :: n in c.sni && c.sni[n] == "" then Some(EmptySni)
    else None
  }

  /** Exactly which configurations are accepted. */
  lemma AcceptedExactly(c: ProtocolsConfig)
    ensures Check(c) == None <==>
              && (forall n :: n in c.enabled ==> n in KNOWN && n in c.ports)
              && (forall n :: n in c.priority ==> n in KNOWN)
              && (forall n :: n in c.ports ==> n in KNOWN && 1 <= c.ports[n] <= 65535)
              && (forall n :: n in {"vless_reality", "mtproto_proxy", "mtproto_proxy_alt"} && n in c.enabled ==>
                    n in c.sni)
              && (forall n :: n in c.sni ==>
                    n in {"vless_reality", "mtproto_proxy", "mtproto_proxy_alt"} && c.sni[n] != "")
  {
    if Check(c) == None {
      forall n | n in c.enabled
        ensures n in KNOWN && n in c.ports
      {
        var i :| 0 <= i < |c.enabled| && c.enabled[i] == n;
      }
      forall n | n in c.priority
        ensures n in KNOWN
      {
        var i :| 0 <= i < |c.priority| && c.priority[i] == n;
      }
    }
  }

  /** What an accepted configuration guarantees for every enabled protocol. */
  lemma AcceptedCovers(c: ProtocolsConfig, n: string)
    requires Check(c) == None && n in c.enabled
    ensures n in KNOWN && n in c.ports && IsPort(c.ports[n])
    ensures n in SNI_USING ==> n in c.sni && c.sni[n] != ""
  {
    var i :| 0 <= i < |c.enabled| && c.enabled[i] == n;
  }
}
