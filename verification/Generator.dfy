/** The sing-box configuration: internal/config/generator.go, credentials.go and types.go. The
    hash behind a derived credential is a parameter. */
module Generator {
  import opened Machine

  /** config.User, without the device id that nothing here reads. */
  datatype User = User(
    uuid: Uuid, protocols: seq<Protocol>, ssPassword: string, enabled: bool,
    trafficLimit: Int64, trafficUsed: Int64, expireAt: Option<int>)
  {
    predicate OverQuota() {
      trafficLimit > 0 && trafficUsed >= trafficLimit
    }

    predicate Expired(now: int) {
      expireAt.Some? && now > expireAt.value
    }

    /** Gets into the configuration. */
    predicate Active(now: int) {
      enabled && !OverQuota() && !Expired(now)
    }
  }

  /** `secret(domain, uuid)` is deriveSecret, `tuicId` the hash behind TUICUUID. */
  datatype Hashes = Hashes(secret: (string, Uuid) -> string, tuicId: Uuid -> Uuid, master: string -> string)

  datatype Credential =
    | Vless(uuid: Uuid, flow: string)
    | Shadowsocks(password: string)
    | Vmess(uuid: Uuid)
    | Trojan(password: string)
    | Hysteria2(password: string)
    | Tuic(uuid: Uuid, password: string)

  datatype Entry = Entry(name: Uuid, credential: Credential)

  datatype Tls =
    | NoTls
    | Reality(serverName: string, privateKey: string, shortIds: seq<string>)
    | SelfSigned(serverName: string, certPath: string, keyPath: string, alpn: seq<string>)

  datatype Inbound = Inbound(
    protocol: Protocol, port: int, tls: Tls, method_: string, password: string, wsPath: string, users: seq<Entry>)

  datatype Config = Config(inbounds: seq<Inbound>, stats: seq<Uuid>)

  const SS_METHOD := "chacha20-ietf-poly1305"
  const FLOW := "xtls-rprx-vision"
  const WS_PATH := "/vmess"
  const SELF_CERT_CN := "www.bing.com"

  predicate Known(protocol: Protocol) {
    !protocol.OTHER?
  }

  /** What the user entry of each protocol carries. */
  function CredentialFor(protocol: Protocol, u: User, h: Hashes): Credential
    requires Known(protocol)
  {
    match protocol
    case VLESS => Vless(u.uuid, FLOW)
    case SHADOWSOCKS => Shadowsocks(u.ssPassword)
    case VMESS => Vmess(u.uuid)
    case TROJAN => Trojan(h.secret("otun-trojan", u.uuid))
    case HYSTERIA2 => Hysteria2(h.secret("otun-hy2", u.uuid))
    case TUIC => Tuic(h.tuicId(u.uuid), h.secret("otun-tuic-pw", u.uuid))
  }

  /** One copy of `e` for each occurrence of `protocol`. */
  function Occurrences(protocols: seq<Protocol>, protocol: Protocol, e: Entry): seq<Entry> {
    if protocols == [] then []
    else (if protocols[0] == protocol then [e] else []) + Occurrences(protocols[1..], protocol, e)
  }

  /** The entries of one inbound: the active users in order, once per occurrence of the protocol. */
  function EntriesFor(users: seq<User>, protocol: Protocol, now: int, h: Hashes): seq<Entry>
    requires Known(protocol)
  {
    if users == [] then []
    else
      var u := users[0];
      (if u.Active(now) then Occurrences(u.protocols, protocol, Entry(u.uuid, CredentialFor(protocol, u, h))) else [])
      + EntriesFor(users[1..], protocol, now, h)
  }

  function ActiveIds(users: seq<User>, now: int): seq<Uuid> {
    if users == [] then []
    else (if users[0].Active(now) then [users[0].uuid] else []) + ActiveIds(users[1..], now)
  }

  datatype Settings = Settings(
    vlessPort: int, ssPort: int, vmessPort: int, trojanPort: int, hy2Port: int, tuicPort: int,
    privateKey: string, shortIds: seq<string>, certPath: string, keyPath: string)
  {
    predicate HasCert() {
      certPath != "" && keyPath != ""
    }
  }

  /** The six lists that the loop grows. */
  datatype Lists = Lists(
    vless: seq<Entry>, ss: seq<Entry>, vmess: seq<Entry>, trojan: seq<Entry>, hy2: seq<Entry>, tuic: seq<Entry>)

  /** What the six lists must hold, each stated by its own protocol. */
  function EntryLists(users: seq<User>, now: int, h: Hashes): Lists {
    Lists(EntriesFor(users, VLESS, now, h), EntriesFor(users, SHADOWSOCKS, now, h),
          EntriesFor(users, VMESS, now, h), EntriesFor(users, TROJAN, now, h),
          EntriesFor(users, HYSTERIA2, now, h), EntriesFor(users, TUIC, now, h))
  }

  /** The inbounds that exist, in order. */
  function InboundsFor(g: Settings, l: Lists, sni: string, h: Hashes): seq<Inbound> {
    var tls := SelfSigned(SELF_CERT_CN, g.certPath, g.keyPath, []);
    [Inbound(VLESS, g.vlessPort, Reality(sni, g.privateKey, g.shortIds), "", "", "", l.vless),
     Inbound(SHADOWSOCKS, g.ssPort, NoTls, SS_METHOD, h.master(g.privateKey), "", l.ss)]
    + (if g.vmessPort > 0 then [Inbound(VMESS, g.vmessPort, NoTls, "", "", WS_PATH, l.vmess)] else [])
    + (if g.trojanPort > 0 && g.HasCert() then [Inbound(TROJAN, g.trojanPort, tls, "", "", "", l.trojan)] else [])
    + (if g.hy2Port > 0 && g.HasCert() then [Inbound(HYSTERIA2, g.hy2Port, tls, "", "", "", l.hy2)] else [])
    + (if g.tuicPort > 0 && g.HasCert()
       then [Inbound(TUIC, g.tuicPort, tls.(alpn := ["h3"]), "", "", "", l.tuic)] else [])
  }

  function ConfigFor(g: Settings, users: seq<User>, sni: string, now: int, h: Hashes): Config {
    Config(InboundsFor(g, EntryLists(users, now, h), sni, h), ActiveIds(users, now))
  }

  const NO_LISTS := Lists([], [], [], [], [], [])

  function Join(a: Lists, b: Lists): Lists {
    Lists(a.vless + b.vless, a.ss + b.ss, a.vmess + b.vmess, a.trojan + b.trojan, a.hy2 + b.hy2, a.tuic + b.tuic)
  }

  lemma JoinThree(a: Lists, b: Lists, c: Lists)
    ensures Join(a, Join(b, c)) == Join(Join(a, b), c)
  {
    assert forall x: seq<Entry>, y: seq<Entry>, z: seq<Entry> :: x + (y + z) == (x + y) + z;
  }

  lemma JoinNone(a: Lists)
    ensures Join(a, NO_LISTS) == a == Join(NO_LISTS, a)
  {
  }

  /** What one listed protocol appends. */
  function OneList(protocol: Protocol, u: User, h: Hashes): Lists {
    match protocol
    case VLESS => NO_LISTS.(vless := [Entry(u.uuid, Vless(u.uuid, FLOW))])
    case SHADOWSOCKS => NO_LISTS.(ss := [Entry(u.uuid, Shadowsocks(u.ssPassword))])
    case VMESS => NO_LISTS.(vmess := [Entry(u.uuid, Vmess(u.uuid))])
    case TROJAN => NO_LISTS.(trojan := [Entry(u.uuid, Trojan(h.secret("otun-trojan", u.uuid)))])
    case HYSTERIA2 => NO_LISTS.(hy2 := [Entry(u.uuid, Hysteria2(h.secret("otun-hy2", u.uuid)))])
    case TUIC => NO_LISTS.(tuic := [Entry(u.uuid, Tuic(h.tuicId(u.uuid), h.secret("otun-tuic-pw", u.uuid)))])
    case OTHER(_) => NO_LISTS
  }

  function UserLists(protocols: seq<Protocol>, u: User, h: Hashes): Lists {
    if protocols == [] then NO_LISTS else Join(OneList(protocols[0], u, h), UserLists(protocols[1..], u, h))
  }

  function ListsOf(users: seq<User>, now: int, h: Hashes): Lists {
    if users == [] then NO_LISTS
    else Join(UserPart(users[0], now, h), ListsOf(users[1..], now, h))
  }

  function UserPart(u: User, now: int, h: Hashes): Lists {
    if u.Active(now) then UserLists(u.protocols, u, h) else NO_LISTS
  }

  function Pick(l: Lists, protocol: Protocol): seq<Entry>
    requires Known(protocol)
  {
    match protocol
    case VLESS => l.vless
    case SHADOWSOCKS => l.ss
    case VMESS => l.vmess
    case TROJAN => l.trojan
    case HYSTERIA2 => l.hy2
    case TUIC => l.tuic
  }

  lemma PickJoin(a: Lists, b: Lists, protocol: Protocol)
    requires Known(protocol)
    ensures Pick(Join(a, b), protocol) == Pick(a, protocol) + Pick(b, protocol)
  {
  }

  lemma {:induction false} PickUser(protocols: seq<Protocol>, u: User, h: Hashes, protocol: Protocol)
    requires Known(protocol)
    ensures Pick(UserLists(protocols, u, h), protocol)
            == Occurrences(protocols, protocol, Entry(u.uuid, CredentialFor(protocol, u, h)))
  {
    if protocols != [] {
      PickUser(protocols[1..], u, h, protocol);
      PickJoin(OneList(protocols[0], u, h), UserLists(protocols[1..], u, h), protocol);
    }
  }

  /** The loop that grows six lists at once leaves in each what its protocol alone asks for. */
  lemma {:induction false} PickAll(users: seq<User>, now: int, h: Hashes, protocol: Protocol)
    requires Known(protocol)
    ensures Pick(ListsOf(users, now, h), protocol) == EntriesFor(users, protocol, now, h)
  {
    if users != [] {
      var u := users[0];
      PickAll(users[1..], now, h, protocol);
      PickUser(u.protocols, u, h, protocol);
      PickJoin(UserPart(u, now, h), ListsOf(users[1..], now, h), protocol);
    }
  }

  /** The order of the file. */
  function Place(protocol: Protocol): nat {
    match protocol
    case VLESS => 1
    case SHADOWSOCKS => 2
    case VMESS => 3
    case TROJAN => 4
    case HYSTERIA2 => 5
    case TUIC => 6
    case OTHER(_) => 0
  }

  /** At most one inbound a protocol, in that order. */
  lemma InboundOrder(g: Settings, l: Lists, sni: string, h: Hashes, i: nat, j: nat)
    requires i < j < |InboundsFor(g, l, sni, h)|
    ensures 1 <= Place(InboundsFor(g, l, sni, h)[i].protocol) < Place(InboundsFor(g, l, sni, h)[j].protocol)
  {
  }

  class ConfigGenerator {
    const settings: Settings
    const hashes: Hashes

    constructor (settings: Settings, hashes: Hashes)
      ensures this.settings == settings && this.hashes == hashes
    {
      this.settings, this.hashes := settings, hashes;
    }

    /** The switch: one append for a known protocol, nothing for another. */
    method AppendOne(lists: Lists, u: User, protocol: Protocol) returns (out: Lists)
      ensures out == Join(lists, OneList(protocol, u, hashes))
    {
      out := lists;
      match protocol {
        case VLESS => out := out.(vless := out.vless + [Entry(u.uuid, Vless(u.uuid, FLOW))]);
        case SHADOWSOCKS => out := out.(ss := out.ss + [Entry(u.uuid, Shadowsocks(u.ssPassword))]);
        case VMESS => out := out.(vmess := out.vmess + [Entry(u.uuid, Vmess(u.uuid))]);
        case TROJAN =>
          out := out.(trojan := out.trojan + [Entry(u.uuid, Trojan(hashes.secret("otun-trojan", u.uuid)))]);
        case HYSTERIA2 =>
          out := out.(hy2 := out.hy2 + [Entry(u.uuid, Hysteria2(hashes.secret("otun-hy2", u.uuid)))]);
        case TUIC =>
          var credential := Tuic(hashes.tuicId(u.uuid), hashes.secret("otun-tuic-pw", u.uuid));
          out := out.(tuic := out.tuic + [Entry(u.uuid, credential)]);
        case OTHER(_) =>
      }
    }

    /** The inner loop over the protocols that the user lists. */
    method AppendUser(lists: Lists, u: User) returns (out: Lists)
      ensures out == Join(lists, UserLists(u.protocols, u, hashes))
    {
      out := lists;
      JoinNone(lists);
      for i := 0 to |u.protocols|
        invariant Join(lists, UserLists(u.protocols, u, hashes)) == Join(out, UserLists(u.protocols[i..], u, hashes))
      {
        assert u.protocols[i..][1..] == u.protocols[i + 1..];
        JoinThree(out, OneList(u.protocols[i], u, hashes), UserLists(u.protocols[i + 1..], u, hashes));
        out := AppendOne(out, u, u.protocols[i]);
      }
      JoinNone(out);
    }

    method CollectLists(users: seq<User>, now: int) returns (lists: Lists, stats: seq<Uuid>)
      ensures lists == ListsOf(users, now, hashes) && stats == ActiveIds(users, now)
    {
      lists, stats := NO_LISTS, [];
      JoinNone(ListsOf(users, now, hashes));
      for i := 0 to |users|
        invariant ListsOf(users, now, hashes) == Join(lists, ListsOf(users[i..], now, hashes))
        invariant ActiveIds(users, now) == stats + ActiveIds(users[i..], now)
      {
        var u := users[i];
        NextUser(users[i..], now, hashes, lists, stats);
        assert users[i..][1..] == users[i + 1..];
        if u.enabled && !u.OverQuota() && !u.Expired(now) {
          lists := AppendUser(lists, u);
          stats := stats + [u.uuid];
        }
      }
      JoinNone(lists);
    }

    method Generate(users: seq<User>, sni: string, now: int) returns (config: Config)
      ensures config == ConfigFor(settings, users, sni, now, hashes)
    {
      var lists, stats := CollectLists(users, now);
      ListsAreEntries(users, now, hashes);
      var inbounds := BuildInbounds(lists, sni);
      config := Config(inbounds, stats);
    }

    method BuildInbounds(lists: Lists, sni: string) returns (inbounds: seq<Inbound>)
      ensures inbounds == InboundsFor(settings, lists, sni, hashes)
    {
      var reality := Reality(sni, settings.privateKey, settings.shortIds);
      inbounds := [
        Inbound(VLESS, settings.vlessPort, reality, "", "", "", lists.vless),
        Inbound(SHADOWSOCKS, settings.ssPort, NoTls, SS_METHOD, hashes.master(settings.privateKey), "", lists.ss)];
      if settings.vmessPort > 0 {
        inbounds := inbounds + [Inbound(VMESS, settings.vmessPort, NoTls, "", "", WS_PATH, lists.vmess)];
      }
      var tls := SelfSigned(SELF_CERT_CN, settings.certPath, settings.keyPath, []);
      if settings.trojanPort > 0 && settings.HasCert() {
        inbounds := inbounds + [Inbound(TROJAN, settings.trojanPort, tls, "", "", "", lists.trojan)];
      }
      if settings.hy2Port > 0 && settings.HasCert() {
        inbounds := inbounds + [Inbound(HYSTERIA2, settings.hy2Port, tls, "", "", "", lists.hy2)];
      }
      if settings.tuicPort > 0 && settings.HasCert() {
        inbounds := inbounds + [Inbound(TUIC, settings.tuicPort, tls.(alpn := ["h3"]), "", "", "", lists.tuic)];
      }
    }
  }

  lemma {:induction false} NextUser(users: seq<User>, now: int, h: Hashes, lists: Lists, stats: seq<Uuid>)
    requires users != []
    ensures Join(lists, ListsOf(users, now, h))
            == Join(if users[0].Active(now) then Join(lists, UserLists(users[0].protocols, users[0], h)) else lists,
                    ListsOf(users[1..], now, h))
    ensures stats + ActiveIds(users, now)
            == (if users[0].Active(now) then stats + [users[0].uuid] else stats) + ActiveIds(users[1..], now)
  {
    JoinThree(lists, UserPart(users[0], now, h), ListsOf(users[1..], now, h));
    JoinNone(lists);
  }

  lemma {:induction false} ListsAreEntries(users: seq<User>, now: int, h: Hashes)
    ensures ListsOf(users, now, h) == EntryLists(users, now, h)
  {
    PickAll(users, now, h, VLESS);
    PickAll(users, now, h, SHADOWSOCKS);
    PickAll(users, now, h, VMESS);
    PickAll(users, now, h, TROJAN);
    PickAll(users, now, h, HYSTERIA2);
    PickAll(users, now, h, TUIC);
  }

  // ----- Who is in a configuration -----

  lemma {:induction false} ActiveIdsExact(users: seq<User>, now: int, id: Uuid)
    ensures id in ActiveIds(users, now) <==> exists i :: 0 <= i < |users| && users[i].Active(now) && users[i].uuid == id
  {
    if users != [] {
      ActiveIdsExact(users[1..], now, id);
      assert forall i :: 1 <= i < |users| ==> users[i] == users[1..][i - 1];
      if exists i :: 0 <= i < |users| && users[i].Active(now) && users[i].uuid == id {
        var i :| 0 <= i < |users| && users[i].Active(now) && users[i].uuid == id;
        assert i > 0 ==> users[1..][i - 1].Active(now);
      }
      if exists i :: 0 <= i < |users[1..]| && users[1..][i].Active(now) && users[1..][i].uuid == id {
        var i :| 0 <= i < |users[1..]| && users[1..][i].Active(now) && users[1..][i].uuid == id;
        assert users[i + 1].Active(now) && users[i + 1].uuid == id;
      }
    }
  }

  lemma {:induction false} OccurrencesExact(protocols: seq<Protocol>, protocol: Protocol, e: Entry, x: Entry)
    ensures x in Occurrences(protocols, protocol, e) <==> x == e && protocol in protocols
  {
    if protocols != [] {
      OccurrencesExact(protocols[1..], protocol, e, x);
    }
  }

  /** An entry stands in an inbound's list exactly when some active user lists the protocol
      and has that name and credential. */
  lemma {:induction false} EntriesExact(users: seq<User>, protocol: Protocol, now: int, h: Hashes, e: Entry)
    requires Known(protocol)
    ensures e in EntriesFor(users, protocol, now, h) <==>
            exists u :: u in users && u.Active(now) && protocol in u.protocols
                        && e == Entry(u.uuid, CredentialFor(protocol, u, h))
  {
    if users != [] {
      var u := users[0];
      OccurrencesExact(u.protocols, protocol, Entry(u.uuid, CredentialFor(protocol, u, h)), e);
      EntriesExact(users[1..], protocol, now, h, e);
      assert forall x :: x in users <==> x == u || x in users[1..];
    }
  }

  /** Every name in every inbound is counted: nobody's traffic goes unmetered. */
  lemma NamesAreCounted(g: Settings, users: seq<User>, sni: string, now: int, h: Hashes, i: nat, k: nat)
    requires var c := ConfigFor(g, users, sni, now, h); i < |c.inbounds| && k < |c.inbounds[i].users|
    ensures var c := ConfigFor(g, users, sni, now, h); c.inbounds[i].users[k].name in c.stats
  {
    var inbound := ConfigFor(g, users, sni, now, h).inbounds[i];
    var e := inbound.users[k];
    assert Known(inbound.protocol) && inbound.users == EntriesFor(users, inbound.protocol, now, h);
    EntriesExact(users, inbound.protocol, now, h, e);
    var u :| u in users && u.Active(now) && e.name == u.uuid;
    ActiveIdsExact(users, now, u.uuid);
  }
}
