/** The nine protocols and their static flags. */
module Registry {
  const KNOWN := [
    "openvpn", "wireguard", "amneziawg", "shadowsocks", "vless_reality", "hysteria2",
    "mtproto_proxy", "mtproto_proxy_alt", "mtproto_orig"]

  predicate IsMtg(name: string)
  {
    name == "mtproto_proxy" || name == "mtproto_proxy_alt"
  }

  predicate RequiresTelegramDc(name: string)
  {
    IsMtg(name) || name == "mtproto_orig"
  }

  predicate UsesIptablesCounter(name: string)
  {
    RequiresTelegramDc(name) || name == "openvpn"
  }
}
