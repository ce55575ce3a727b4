/** Client links: toUserResponse and the generate*Url functions of internal/api/local.go, wired
    to the generator as NewAgent of cmd/agent/main.go does. A link is its parts, not its text. */
module Links {
  import opened Machine
  import opened Generator

  datatype AgentConfig = AgentConfig(
    vlessPort: int, ssPort: int, vmessPort: int, trojanPort: int, hy2Port: int, tuicPort: int,
    realitySni: string, serverIp: string, serverIpV6: string)

  datatype Secrets = Secrets(privateKey: string, publicKey: string, shortIds: seq<string>, ssPort: int)

  /** NodeConfig. */
  datatype Node = Node(
    serverIp: string, serverIpV6: string, publicKey: string, shortId: string, vlessPort: int, ssPort: int,
    ssMethod: string, realitySni: string, vmessPort: int, trojanPort: int, hy2Port: int, tuicPort: int)

  datatype Link = Link(
    protocol: Protocol, host: string, port: int, credential: Credential,
    sni: string, shortId: string, publicKey: string, method_: string, wsPath: string, alpn: seq<string>, insecure: bool)

  const DEFAULT_SNI := "www.apple.com"
  const DEFAULT_SS_PORT := 8388

  // ----- NewAgent's wiring -----

  function EffectiveSsPort(cfg: AgentConfig, s: Secrets): int {
    if cfg.ssPort == DEFAULT_SS_PORT then s.ssPort else cfg.ssPort
  }

  /** `cert` is what EnsureSelfSignedCert gives; it is only asked for when a TLS port is set,
      and None is its failure. */
  function SettingsOf(cfg: AgentConfig, s: Secrets, cert: Option<(string, string)>): Settings {
    var wanted := cfg.trojanPort > 0 || cfg.hy2Port > 0 || cfg.tuicPort > 0;
    var paths := if cert.Some? && wanted then cert.value else ("", "");
    Settings(cfg.vlessPort, EffectiveSsPort(cfg, s), cfg.vmessPort, cfg.trojanPort, cfg.hy2Port, cfg.tuicPort,
             s.privateKey, s.shortIds, paths.0, paths.1)
  }

  function NodeOf(cfg: AgentConfig, s: Secrets): Node
    requires s.shortIds != []
  {
    Node(cfg.serverIp, cfg.serverIpV6, s.publicKey, s.shortIds[0], cfg.vlessPort, EffectiveSsPort(cfg, s),
         SS_METHOD, cfg.realitySni, cfg.vmessPort, cfg.trojanPort, cfg.hy2Port, cfg.tuicPort)
  }

  // ----- Links -----

  predicate IsBracket(c: char) {
    c == '[' || c == ']'
  }

  function TrimLeft(s: string): string {
    if s != "" && IsBracket(s[0]) then TrimLeft(s[1..]) else s
  }

  function TrimRight(s: string): string {
    if s != "" && IsBracket(s[|s| - 1]) then TrimRight(s[..|s| - 1]) else s
  }

  /** strings.Trim(s, "[]"), as hostPort does before it joins host and port. */
  function TrimBrackets(s: string): string {
    TrimRight(TrimLeft(s))
  }

  /** The host of a link. The VMess link carries the address as it is. */
  function HostFor(protocol: Protocol, address: string): string {
    if protocol.VMESS? then address else TrimBrackets(address)
  }

  function BareLink(protocol: Protocol, n: Node, port: int, credential: Credential): Link {
    Link(protocol, HostFor(protocol, n.serverIp), port, credential, "", "", "", "", "", [], false)
  }

  function TlsLink(protocol: Protocol, n: Node, port: int, credential: Credential): Link {
    BareLink(protocol, n, port, credential).(sni := SELF_CERT_CN, insecure := true)
  }

  /** The six generate*Url functions. None is the empty string. */
  function LinkFor(n: Node, u: User, protocol: Protocol, h: Hashes): Option<Link> {
    if n.serverIp == "" then None else
    match protocol
    case VLESS =>
      Some(BareLink(VLESS, n, n.vlessPort, Vless(u.uuid, FLOW)).(
           sni := if n.realitySni == "" then DEFAULT_SNI else n.realitySni,
           publicKey := n.publicKey, shortId := n.shortId))
    case SHADOWSOCKS =>
      Some(BareLink(SHADOWSOCKS, n, n.ssPort, Shadowsocks(u.ssPassword)).(
           method_ := if n.ssMethod == "" then SS_METHOD else n.ssMethod))
    case VMESS =>
      if n.vmessPort == 0 then None
      else Some(BareLink(VMESS, n, n.vmessPort, Vmess(u.uuid)).(wsPath := WS_PATH))
    case TROJAN =>
      if n.trojanPort == 0 then None
      else Some(TlsLink(TROJAN, n, n.trojanPort, Trojan(h.secret("otun-trojan", u.uuid))))
    case HYSTERIA2 =>
      if n.hy2Port == 0 then None
      else Some(TlsLink(HYSTERIA2, n, n.hy2Port, Hysteria2(h.secret("otun-hy2", u.uuid))))
    case TUIC =>
      if n.tuicPort == 0 then None
      else
        var credential := Tuic(h.tuicId(u.uuid), h.secret("otun-tuic-pw", u.uuid));
        Some(TlsLink(TUIC, n, n.tuicPort, credential).(alpn := ["h3"]))
    case OTHER(_) => None
  }

  function V6(n: Node): Node {
    n.(serverIp := n.serverIpV6)
  }

  function LinksOver(n: Node, u: User, protocols: seq<Protocol>, h: Hashes): seq<Link> {
    if protocols == [] then []
    else
      var link := LinkFor(n, u, protocols[0], h);
      (if link.Some? then [link.value] else []) + LinksOver(n, u, protocols[1..], h)
  }

  /** The links of a subscription: all IPv4 ones, then all IPv6 ones. */
  function AllLinks(n: Node, u: User, h: Hashes): seq<Link> {
    LinksOver(n, u, u.protocols, h) + if n.serverIpV6 == "" then [] else LinksOver(V6(n), u, u.protocols, h)
  }

  method AppendLinks(links: seq<Link>, n: Node, u: User, h: Hashes) returns (out: seq<Link>)
    ensures out == links + LinksOver(n, u, u.protocols, h)
  {
    out := links;
    for i := 0 to |u.protocols|
      invariant out + LinksOver(n, u, u.protocols[i..], h) == links + LinksOver(n, u, u.protocols, h)
    {
      assert u.protocols[i..][1..] == u.protocols[i + 1..];
      var link := LinkFor(n, u, u.protocols[i], h);
      if link.Some? {
        out := out + [link.value];
      }
    }
  }

  /** toUserResponse's two loops over the user's protocols. */
  method SubscriptionLinks(n: Node, u: User, h: Hashes) returns (links: seq<Link>)
    ensures links == AllLinks(n, u, h)
  {
    links := AppendLinks([], n, u, h);
    if n.serverIpV6 != "" {
      links := AppendLinks(links, V6(n), u, h);
    }
  }

  lemma {:induction false} LinksOverExact(n: Node, u: User, protocols: seq<Protocol>, h: Hashes, link: Link)
    ensures link in LinksOver(n, u, protocols, h) <==>
            exists p :: p in protocols && LinkFor(n, u, p, h) == Some(link)
  {
    if protocols != [] {
      LinksOverExact(n, u, protocols[1..], h, link);
      assert forall p :: p in protocols <==> p == protocols[0] || p in protocols[1..];
    }
  }

  // ----- Agreement -----

  /** The public key that belongs to a private one. */
  type KeyPair = string -> string

  /** A client that follows the link is let in as `id`, and accepts the server's certificate. */
  ghost predicate Serves(inbound: Inbound, link: Link, id: Uuid, pub: KeyPair) {
    && inbound.protocol == link.protocol && inbound.port == link.port
    && Entry(id, link.credential) in inbound.users
    && inbound.method_ == link.method_ && inbound.wsPath == link.wsPath
    && match inbound.tls
       case NoTls => link.sni == "" && !link.insecure
       case Reality(name, priv, ids) =>
         link.sni == name && link.shortId in ids && link.publicKey == pub(priv) && !link.insecure
       case SelfSigned(name, _, _, alpn) => link.sni == name && alpn == link.alpn && link.insecure
  }

  ghost predicate Served(c: Config, link: Link, id: Uuid, pub: KeyPair) {
    exists i :: i in c.inbounds && Serves(i, link, id, pub)
  }

  function PortOf(cfg: AgentConfig, s: Secrets, p: Protocol): int {
    match p
    case VLESS => cfg.vlessPort
    case SHADOWSOCKS => EffectiveSsPort(cfg, s)
    case VMESS => cfg.vmessPort
    case TROJAN => cfg.trojanPort
    case HYSTERIA2 => cfg.hy2Port
    case TUIC => cfg.tuicPort
    case OTHER(_) => 0
  }

  predicate CertReady(cert: Option<(string, string)>) {
    cert.Some? && cert.value.0 != "" && cert.value.1 != ""
  }

  /** What the operator must have configured for a protocol's links to work. */
  predicate WellConfigured(cfg: AgentConfig, s: Secrets, cert: Option<(string, string)>, p: Protocol, pub: KeyPair) {
    match p
    case VLESS => cfg.realitySni != "" && s.publicKey == pub(s.privateKey)
    case SHADOWSOCKS => true
    case VMESS => cfg.vmessPort >= 0
    case OTHER(_) => true
    case _ => PortOf(cfg, s, p) == 0 || (PortOf(cfg, s, p) > 0 && CertReady(cert))
  }

  function SelfSignedTls(g: Settings, alpn: seq<string>): Tls {
    SelfSigned(SELF_CERT_CN, g.certPath, g.keyPath, alpn)
  }

  /** The inbound that a protocol's links are for. */
  function ServingInbound(g: Settings, l: Lists, sni: string, h: Hashes, p: Protocol): Inbound {
    match p
    case VLESS => Inbound(VLESS, g.vlessPort, Reality(sni, g.privateKey, g.shortIds), "", "", "", l.vless)
    case VMESS => Inbound(VMESS, g.vmessPort, NoTls, "", "", WS_PATH, l.vmess)
    case TROJAN => Inbound(TROJAN, g.trojanPort, SelfSignedTls(g, []), "", "", "", l.trojan)
    case HYSTERIA2 => Inbound(HYSTERIA2, g.hy2Port, SelfSignedTls(g, []), "", "", "", l.hy2)
    case TUIC => Inbound(TUIC, g.tuicPort, SelfSignedTls(g, ["h3"]), "", "", "", l.tuic)
    case _ => Inbound(SHADOWSOCKS, g.ssPort, NoTls, SS_METHOD, h.master(g.privateKey), "", l.ss)
  }

  predicate InboundExists(g: Settings, p: Protocol) {
    match p
    case VLESS => true
    case SHADOWSOCKS => true
    case VMESS => g.vmessPort > 0
    case TROJAN => g.trojanPort > 0 && g.HasCert()
    case HYSTERIA2 => g.hy2Port > 0 && g.HasCert()
    case TUIC => g.tuicPort > 0 && g.HasCert()
    case OTHER(_) => false
  }

  /** An inbound is there exactly when it is its protocol's own and that one exists. */
  lemma InboundOf(g: Settings, l: Lists, sni: string, h: Hashes, i: Inbound)
    ensures i in InboundsFor(g, l, sni, h) <==>
            InboundExists(g, i.protocol) && i == ServingInbound(g, l, sni, h, i.protocol)
  {
  }

  lemma ProtocolServedIff(cfg: AgentConfig, s: Secrets, cert: Option<(string, string)>, users: seq<User>,
                          u: User, p: Protocol, now: int, h: Hashes, pub: KeyPair)
    requires s.shortIds != [] && u in users && u.Active(now) && p in u.protocols
    requires LinkFor(NodeOf(cfg, s), u, p, h).Some?
    ensures Served(ConfigFor(SettingsOf(cfg, s, cert), users, cfg.realitySni, now, h),
                   LinkFor(NodeOf(cfg, s), u, p, h).value, u.uuid, pub)
            <==> WellConfigured(cfg, s, cert, p, pub)
  {
    var g := SettingsOf(cfg, s, cert);
    var link := LinkFor(NodeOf(cfg, s), u, p, h).value;
    var lists := EntryLists(users, now, h);
    var c := ConfigFor(g, users, cfg.realitySni, now, h);
    var e := Entry(u.uuid, link.credential);
    EntriesExact(users, p, now, h, e);
    assert e in Pick(lists, p);
    forall i ensures i in c.inbounds && Serves(i, link, u.uuid, pub) ==> WellConfigured(cfg, s, cert, p, pub) {
      InboundOf(g, lists, cfg.realitySni, h, i);
    }
    if WellConfigured(cfg, s, cert, p, pub) {
      var i := ServingInbound(g, lists, cfg.realitySni, h, p);
      InboundOf(g, lists, cfg.realitySni, h, i);
      assert Serves(i, link, u.uuid, pub);
    }
  }

  lemma {:induction false} ListedServedIff(cfg: AgentConfig, s: Secrets, cert: Option<(string, string)>,
                                           users: seq<User>, u: User, link: Link, now: int, h: Hashes, pub: KeyPair)
    requires s.shortIds != [] && u in users && u.Active(now)
    requires link in LinksOver(NodeOf(cfg, s), u, u.protocols, h)
    ensures Served(ConfigFor(SettingsOf(cfg, s, cert), users, cfg.realitySni, now, h), link, u.uuid, pub)
            <==> WellConfigured(cfg, s, cert, link.protocol, pub)
  {
    LinksOverExact(NodeOf(cfg, s), u, u.protocols, h, link);
    LinkOfItsProtocol(NodeOf(cfg, s), u, h, link);
    ProtocolServedIff(cfg, s, cert, users, u, link.protocol, now, h, pub);
  }

  lemma LinkOfItsProtocol(n: Node, u: User, h: Hashes, link: Link)
    requires exists p :: p in u.protocols && LinkFor(n, u, p, h) == Some(link)
    ensures link.protocol in u.protocols && LinkFor(n, u, link.protocol, h) == Some(link)
  {
  }

  /** Nothing but the links depends on the node's addresses. */
  lemma V6IsAnotherNode(cfg: AgentConfig, s: Secrets, cert: Option<(string, string)>, p: Protocol, pub: KeyPair)
    requires s.shortIds != []
    ensures var cfg6 := cfg.(serverIp := cfg.serverIpV6);
            && V6(NodeOf(cfg, s)) == NodeOf(cfg6, s) && SettingsOf(cfg6, s, cert) == SettingsOf(cfg, s, cert)
            && cfg6.realitySni == cfg.realitySni
            && (WellConfigured(cfg6, s, cert, p, pub) <==> WellConfigured(cfg, s, cert, p, pub))
  {
  }

  /** A link of a subscription, for IPv4 or IPv6, works exactly when its protocol is well
      configured: a negative port, or a TLS port whose certificate could not be made, gives a
      link that leads nowhere. */
  lemma LinkServedIff(cfg: AgentConfig, s: Secrets, cert: Option<(string, string)>, users: seq<User>,
                      u: User, link: Link, now: int, h: Hashes, pub: KeyPair)
    requires s.shortIds != [] && u in users && u.Active(now) && link in AllLinks(NodeOf(cfg, s), u, h)
    ensures Served(ConfigFor(SettingsOf(cfg, s, cert), users, cfg.realitySni, now, h), link, u.uuid, pub)
            <==> WellConfigured(cfg, s, cert, link.protocol, pub)
  {
    if link in LinksOver(NodeOf(cfg, s), u, u.protocols, h) {
      ListedServedIff(cfg, s, cert, users, u, link, now, h, pub);
    } else {
      V6IsAnotherNode(cfg, s, cert, link.protocol, pub);
      ListedServedIff(cfg.(serverIp := cfg.serverIpV6), s, cert, users, u, link, now, h, pub);
    }
  }

  /** And the other way: every entry of every inbound belongs to an active user who is given a
      link to that protocol and port with that credential, if the node has an address at all. */
  lemma EntryHasLink(cfg: AgentConfig, s: Secrets, cert: Option<(string, string)>, users: seq<User>,
                     now: int, h: Hashes, i: Inbound, e: Entry)
    requires s.shortIds != [] && (cfg.serverIp != "" || cfg.serverIpV6 != "")
    requires i in ConfigFor(SettingsOf(cfg, s, cert), users, cfg.realitySni, now, h).inbounds && e in i.users
    ensures exists u, link :: && u in users && u.Active(now) && u.uuid == e.name
                              && link in AllLinks(NodeOf(cfg, s), u, h)
                              && link.protocol == i.protocol && link.port == i.port && link.credential == e.credential
  {
    var g := SettingsOf(cfg, s, cert);
    var lists := EntryLists(users, now, h);
    InboundOf(g, lists, cfg.realitySni, h, i);
    InboundPort(cfg, s, cert, lists, h, i);
    var p := i.protocol;
    assert i.users == EntriesFor(users, p, now, h);
    EntriesExact(users, p, now, h, e);
    var u :| u in users && u.Active(now) && p in u.protocols && e == Entry(u.uuid, CredentialFor(p, u, h));
    var link := ListedLink(cfg, s, cert, u, i, h);
  }

  lemma InboundPort(cfg: AgentConfig, s: Secrets, cert: Option<(string, string)>, l: Lists, h: Hashes, i: Inbound)
    requires i in InboundsFor(SettingsOf(cfg, s, cert), l, cfg.realitySni, h)
    ensures InboundExists(SettingsOf(cfg, s, cert), i.protocol) && i.port == PortOf(cfg, s, i.protocol)
  {
    InboundOf(SettingsOf(cfg, s, cert), l, cfg.realitySni, h, i);
  }

  lemma LinkExists(cfg: AgentConfig, s: Secrets, cert: Option<(string, string)>, u: User, p: Protocol, h: Hashes)
    requires s.shortIds != [] && cfg.serverIp != "" && InboundExists(SettingsOf(cfg, s, cert), p)
    ensures var link := LinkFor(NodeOf(cfg, s), u, p, h);
            && link.Some? && link.value.protocol == p && link.value.port == PortOf(cfg, s, p)
            && link.value.credential == CredentialFor(p, u, h)
  {
  }

  /** An inbound that exists gives each user of its protocol a link. */
  lemma ListedLink(cfg: AgentConfig, s: Secrets, cert: Option<(string, string)>, u: User, i: Inbound, h: Hashes)
    returns (link: Link)
    requires s.shortIds != [] && (cfg.serverIp != "" || cfg.serverIpV6 != "") && i.protocol in u.protocols
    requires InboundExists(SettingsOf(cfg, s, cert), i.protocol) && i.port == PortOf(cfg, s, i.protocol)
    ensures link in AllLinks(NodeOf(cfg, s), u, h)
    ensures link.protocol == i.protocol && link.port == i.port && link.credential == CredentialFor(i.protocol, u, h)
  {
    if cfg.serverIp != "" {
      LinkExists(cfg, s, cert, u, i.protocol, h);
      link := LinkFor(NodeOf(cfg, s), u, i.protocol, h).value;
      LinksOverExact(NodeOf(cfg, s), u, u.protocols, h, link);
    } else {
      V6IsAnotherNode(cfg, s, cert, i.protocol, k => k);
      LinkExists(cfg.(serverIp := cfg.serverIpV6), s, cert, u, i.protocol, h);
      link := LinkFor(V6(NodeOf(cfg, s)), u, i.protocol, h).value;
      LinksOverExact(V6(NodeOf(cfg, s)), u, u.protocols, h, link);
    }
  }

  function Readdressed(link: Link, address: string): Link {
    link.(host := HostFor(link.protocol, address))
  }

  lemma MirroredLink(n: Node, u: User, p: Protocol, h: Hashes)
    requires n.serverIp != "" && n.serverIpV6 != ""
    ensures var link, mirrored := LinkFor(n, u, p, h), LinkFor(V6(n), u, p, h);
            mirrored == if link.Some? then Some(Readdressed(link.value, n.serverIpV6)) else None
  {
  }

  /** The IPv6 half of a subscription is the IPv4 half with the address replaced. */
  lemma {:induction false} V6Mirrors(n: Node, u: User, protocols: seq<Protocol>, h: Hashes, k: nat)
    requires n.serverIp != "" && n.serverIpV6 != ""
    ensures |LinksOver(V6(n), u, protocols, h)| == |LinksOver(n, u, protocols, h)|
    ensures k < |LinksOver(n, u, protocols, h)| ==>
              LinksOver(V6(n), u, protocols, h)[k] == Readdressed(LinksOver(n, u, protocols, h)[k], n.serverIpV6)
  {
    if protocols != [] {
      MirroredLink(n, u, protocols[0], h);
      V6Mirrors(n, u, protocols[1..], h, if k > 0 && LinkFor(n, u, protocols[0], h).Some? then k - 1 else k);
    }
  }

  lemma PartsOf(n: Node, u: User, h: Hashes, link: Link)
    requires LinkFor(n, u, link.protocol, h) == Some(link)
    ensures link.credential == match link.protocol
                               case VLESS => Vless(u.uuid, "xtls-rprx-vision")
                               case SHADOWSOCKS => Shadowsocks(u.ssPassword)
                               case VMESS => Vmess(u.uuid)
                               case TROJAN => Trojan(h.secret("otun-trojan", u.uuid))
                               case HYSTERIA2 => Hysteria2(h.secret("otun-hy2", u.uuid))
                               case TUIC => Tuic(h.tuicId(u.uuid), h.secret("otun-tuic-pw", u.uuid))
                               case OTHER(_) => link.credential
    ensures link.insecure <==> link.protocol in [TROJAN, HYSTERIA2, TUIC]
    ensures link.insecure ==> link.sni == "www.bing.com"
    ensures link.protocol == VLESS ==>
              && link.publicKey == n.publicKey && link.shortId == n.shortId
              && link.sni == if n.realitySni != "" then n.realitySni else "www.apple.com"
    ensures link.protocol == SHADOWSOCKS ==>
              link.method_ == if n.ssMethod != "" then n.ssMethod else "chacha20-ietf-poly1305"
    ensures link.protocol == VMESS ==> link.wsPath == "/vmess"
    ensures link.alpn == if link.protocol == TUIC then ["h3"] else []
  {
  }

  /** What a link holds besides host and port, text by text. */
  lemma {:induction false} LinkParts(n: Node, u: User, h: Hashes, link: Link)
    requires link in LinksOver(n, u, u.protocols, h)
    ensures link.protocol in u.protocols
    ensures link.credential == match link.protocol
                               case VLESS => Vless(u.uuid, "xtls-rprx-vision")
                               case SHADOWSOCKS => Shadowsocks(u.ssPassword)
                               case VMESS => Vmess(u.uuid)
                               case TROJAN => Trojan(h.secret("otun-trojan", u.uuid))
                               case HYSTERIA2 => Hysteria2(h.secret("otun-hy2", u.uuid))
                               case TUIC => Tuic(h.tuicId(u.uuid), h.secret("otun-tuic-pw", u.uuid))
                               case OTHER(_) => link.credential
    ensures link.insecure <==> link.protocol in [TROJAN, HYSTERIA2, TUIC]
    ensures link.insecure ==> link.sni == "www.bing.com"
    ensures link.protocol == VLESS ==>
              && link.publicKey == n.publicKey && link.shortId == n.shortId
              && link.sni == if n.realitySni != "" then n.realitySni else "www.apple.com"
    ensures link.protocol == SHADOWSOCKS ==>
              link.method_ == if n.ssMethod != "" then n.ssMethod else "chacha20-ietf-poly1305"
    ensures link.protocol == VMESS ==> link.wsPath == "/vmess"
    ensures link.alpn == if link.protocol == TUIC then ["h3"] else []
  {
    hide LinkFor;
    LinksOverExact(n, u, u.protocols, h, link);
    LinkOfItsProtocol(n, u, h, link);
    PartsOf(n, u, h, link);
  }

  // ----- Where links lead -----

  predicate AllBrackets(s: string) {
    forall i :: 0 <= i < |s| ==> s[i] == '[' || s[i] == ']'
  }

  lemma {:induction false} TrimLeftMeans(s: string) returns (cut: string)
    ensures s == cut + TrimLeft(s) && AllBrackets(cut)
    ensures TrimLeft(s) != "" ==> !IsBracket(TrimLeft(s)[0])
  {
    if s != "" && IsBracket(s[0]) {
      var rest := TrimLeftMeans(s[1..]);
      cut := [s[0]] + rest;
      assert s == [s[0]] + s[1..];
    } else {
      cut := "";
    }
  }

  lemma {:induction false} TrimRightMeans(s: string) returns (cut: string)
    ensures s == TrimRight(s) + cut && AllBrackets(cut)
    ensures TrimRight(s) != "" ==> !IsBracket(TrimRight(s)[|TrimRight(s)| - 1])
  {
    if s != "" && IsBracket(s[|s| - 1]) {
      var rest := TrimRightMeans(s[..|s| - 1]);
      cut := rest + [s[|s| - 1]];
      assert s == s[..|s| - 1] + [s[|s| - 1]];
    } else {
      cut := "";
    }
  }

  predicate BareEnds(s: string) {
    s != "" ==> s[0] != '[' && s[0] != ']' && s[|s| - 1] != '[' && s[|s| - 1] != ']'
  }

  /** What a host is: the address without the brackets at its two ends, and so the address itself
      when it has none there. */
  lemma {:induction false} TrimMeans(s: string)
    ensures exists left, right :: s == left + TrimBrackets(s) + right && AllBrackets(left) && AllBrackets(right)
    ensures BareEnds(TrimBrackets(s))
    ensures BareEnds(s) ==> TrimBrackets(s) == s
  {
    var left := TrimLeftMeans(s);
    var right := TrimRightMeans(TrimLeft(s));
    assert s == left + TrimBrackets(s) + right;
    if TrimBrackets(s) != "" {
      assert TrimBrackets(s)[0] == TrimLeft(s)[0];
    }
  }

  lemma {:induction false} HostsOver(n: Node, u: User, protocols: seq<Protocol>, h: Hashes, k: nat)
    requires k < |LinksOver(n, u, protocols, h)|
    ensures n.serverIp != ""
    ensures var link := LinksOver(n, u, protocols, h)[k];
            link.host == if link.protocol == VMESS then n.serverIp else TrimBrackets(n.serverIp)
  {
    var first := LinkFor(n, u, protocols[0], h);
    if first.None? || k > 0 {
      HostsOver(n, u, protocols[1..], h, if first.Some? then k - 1 else k);
    }
  }

  lemma {:induction false} PortsOver(n: Node, u: User, h: Hashes, link: Link)
    requires link in LinksOver(n, u, u.protocols, h)
    ensures link.port == match link.protocol
                         case VLESS => n.vlessPort
                         case SHADOWSOCKS => n.ssPort
                         case VMESS => n.vmessPort
                         case TROJAN => n.trojanPort
                         case HYSTERIA2 => n.hy2Port
                         case TUIC => n.tuicPort
                         case OTHER(_) => 0
  {
    LinksOverExact(n, u, u.protocols, h, link);
    LinkOfItsProtocol(n, u, h, link);
  }

  /** Every link of a subscription leads to the node: those of the first half to its IPv4 address,
      the others to its IPv6 address, without brackets except in a VMess link; and to the port that
      is configured for its protocol, where Shadowsocks' default stands for the port in the secrets. */
  lemma {:induction false} LinksLeadHome(cfg: AgentConfig, s: Secrets, u: User, h: Hashes, k: nat)
    requires s.shortIds != [] && k < |AllLinks(NodeOf(cfg, s), u, h)|
    ensures var link := AllLinks(NodeOf(cfg, s), u, h)[k];
            var address := if k < |LinksOver(NodeOf(cfg, s), u, u.protocols, h)| then cfg.serverIp else cfg.serverIpV6;
            && address != ""
            && link.host == (if link.protocol == VMESS then address else TrimBrackets(address))
            && link.port == match link.protocol
                            case VLESS => cfg.vlessPort
                            case SHADOWSOCKS => if cfg.ssPort == 8388 then s.ssPort else cfg.ssPort
                            case VMESS => cfg.vmessPort
                            case TROJAN => cfg.trojanPort
                            case HYSTERIA2 => cfg.hy2Port
                            case TUIC => cfg.tuicPort
                            case OTHER(_) => 0
  {
    hide LinkFor, LinksOver, TrimBrackets;
    var n := NodeOf(cfg, s);
    var link := AllLinks(n, u, h)[k];
    var split := |LinksOver(n, u, u.protocols, h)|;
    if k < split {
      HostsOver(n, u, u.protocols, h, k);
      PortsOver(n, u, h, link);
    } else {
      HostsOver(V6(n), u, u.protocols, h, k - split);
      PortsOver(V6(n), u, h, link);
    }
  }
}
