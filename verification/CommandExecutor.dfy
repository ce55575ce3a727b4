/** Commands and their acks: internal/enroll/executor.go. What the outside world answers while a
    command runs is a parameter. */
module CommandExecutor {
  import opened Machine
  import opened Upgrade
  import opened Version

  /** Command ids are only compared. */
  type Id = nat

  const MAX_RECENT := 200

  /** A payload as the command's own handler decodes it. `sha` is the checksum listed for this
      machine's asset. */
  datatype Payload = BadPayload | Plan(tag: string, sha: string) | Session(session: string, url: string, sameHost: bool)

  datatype Kind = Ping | GetConfig | Reload | UpgradeAgent | OpenTunnel | OtherKind(name: string)

  datatype Command = Command(id: Id, kind: Kind, expiresAt: Option<int>, payload: Payload)

  datatype Code = Expired | InvalidPayload | ApplyFailed | UnsupportedType | TunnelFailed | Internal

  datatype AckData = NoData | NodeConfig | UpgradeData(from: string, to: string) | SessionData(session: string)

  datatype Ack = Ack(id: Id, error: Option<Code>, data: AckData)

  /** What the parts that a command calls answer. */
  datatype Answers = Answers(reloadOk: bool, tunnelOk: bool, faults: Faults)

  datatype Setup = Setup(version: string, canReload: bool, canUpgrade: bool, canTunnel: bool, sha: Checksum)

  /** The acks of recent commands, and the order to evict them in. */
  datatype Cache = Cache(recent: map<Id, Ack>, order: seq<Id>)

  datatype Exec = Exec(cache: Cache, pendingExit: bool, files: Files)

  function Done(data: AckData): Ack {
    Ack(0, None, data)
  }

  function Failed(code: Code): Ack {
    Ack(0, Some(code), NoData)
  }

  function IsExpired(c: Command, serverTime: int): bool {
    c.expiresAt.Some? && serverTime > c.expiresAt.value
  }

  /** Gets as far as PrepareUpgrade's file work. */
  predicate Prepares(s: Setup, c: Command, serverTime: int) {
    && !IsExpired(c, serverTime) && c.kind.UpgradeAgent? && s.canUpgrade && c.payload.Plan?
    && c.payload.tag != s.version && Newer(c.payload.tag, s.version)
    && c.payload.tag != "" && c.payload.sha != ""
  }

  function PrepareResult(s: Setup, c: Command, a: Answers, f: Files): Prepared
    requires c.payload.Plan?
  {
    PrepareTrace(f, c.payload.sha, s.sha, a.faults).1
  }

  function TunnelAck(s: Setup, c: Command, a: Answers): Ack {
    if !s.canTunnel then Failed(UnsupportedType)
    else if !c.payload.Session? then Failed(InvalidPayload)
    else if c.payload.session == "" || c.payload.url == "" || !c.payload.sameHost then Failed(InvalidPayload)
    else if !a.tunnelOk then Failed(TunnelFailed)
    else Done(SessionData(c.payload.session))
  }

  function Perform(s: Setup, c: Command, serverTime: int, a: Answers, f: Files): Ack {
    if IsExpired(c, serverTime) then Failed(Expired) else
    match c.kind
    case GetConfig => Done(NodeConfig)
    case Reload =>
      if !s.canReload then Failed(Internal) else if !a.reloadOk then Failed(ApplyFailed) else Done(NoData)
    case Ping => Done(NoData)
    case UpgradeAgent =>
      if !s.canUpgrade then Failed(UnsupportedType)
      else if !c.payload.Plan? then Failed(InvalidPayload)
      else if c.payload.tag == s.version then Done(UpgradeData(s.version, c.payload.tag))
      else if !Newer(c.payload.tag, s.version) then Failed(InvalidPayload)
      else if !Prepares(s, c, serverTime) || !PrepareResult(s, c, a, f).Ready? then Failed(Internal)
      else Done(UpgradeData(s.version, c.payload.tag))
    case OpenTunnel => TunnelAck(s, c, a)
    case OtherKind(_) => Failed(UnsupportedType)
  }

  function FilesAfter(s: Setup, c: Command, serverTime: int, a: Answers, f: Files): Files {
    if Prepares(s, c, serverTime) then PrepareFiles(f, c.payload.sha, s.sha, a.faults) else f
  }

  predicate Upgrades(s: Setup, c: Command, serverTime: int, a: Answers, f: Files) {
    Prepares(s, c, serverTime) && PrepareResult(s, c, a, f).Ready?
  }

  /** The eviction loop. */
  function Evict(c: Cache): Cache
    decreases |c.order|
  {
    if |c.order| <= MAX_RECENT then c else Evict(Cache(c.recent - {c.order[0]}, c.order[1..]))
  }

  function Remember(c: Cache, ack: Ack): Cache {
    Evict(Cache(c.recent[ack.id := ack], if ack.id in c.recent then c.order else c.order + [ack.id]))
  }

  /** What performing the command would be acknowledged with. */
  function Candidate(s: Setup, e: Exec, c: Command, serverTime: int, a: Answers): (ack: Ack)
    ensures ack.id == c.id
  {
    Perform(s, c, serverTime, a, e.files).(id := c.id)
  }

  function Execute(s: Setup, e: Exec, c: Command, serverTime: int, a: Answers): (Exec, Ack) {
    if c.id in e.cache.recent then (e, e.cache.recent[c.id])
    else
      var ack := Candidate(s, e, c, serverTime, a);
      (Exec(Remember(e.cache, ack), e.pendingExit || Upgrades(s, c, serverTime, a, e.files),
            FilesAfter(s, c, serverTime, a, e.files)), ack)
  }

  predicate NoDups(ids: seq<Id>) {
    forall i, j :: 0 <= i < j < |ids| ==> ids[i] != ids[j]
  }

  /** The map and the eviction list hold the same ids, once each, at most 200, and each ack
      stands under its own id. */
  ghost predicate CacheOk(c: Cache) {
    && NoDups(c.order) && |c.order| <= MAX_RECENT
    && (forall id :: id in c.order <==> id in c.recent)
    && (forall id :: id in c.recent ==> c.recent[id].id == id)
  }

  class Executor {
    const setup: Setup
    const disk: Disk
    var recent: map<Id, Ack>
    var order: seq<Id>
    var pendingExit: bool

    ghost function View(): Exec
      reads this, disk
    {
      Exec(Cache(recent, order), pendingExit, disk.View())
    }

    constructor (setup: Setup, disk: Disk)
      ensures this.setup == setup && this.disk == disk
      ensures View() == Exec(EMPTY_CACHE, false, disk.View())
    {
      this.setup, this.disk := setup, disk;
      recent, order, pendingExit := map[], [], false;
    }

    method ExecuteCommand(c: Command, serverTime: int, a: Answers) returns (ack: Ack)
      modifies this, disk
      ensures (View(), ack) == Execute(setup, old(View()), c, serverTime, a)
    {
      if c.id in recent {
        return recent[c.id];
      }
      ack := Dispatch(c, serverTime, a);
      ack := ack.(id := c.id);
      RememberAck(ack);
    }

    method Dispatch(c: Command, serverTime: int, a: Answers) returns (ack: Ack)
      modifies this`pendingExit, disk
      ensures ack == Perform(setup, c, serverTime, a, old(disk.View()))
      ensures disk.View() == FilesAfter(setup, c, serverTime, a, old(disk.View()))
      ensures pendingExit == (old(pendingExit) || Upgrades(setup, c, serverTime, a, old(disk.View())))
    {
      if c.expiresAt.Some? && serverTime > c.expiresAt.value {
        return Failed(Expired);
      }
      match c.kind {
        case GetConfig => ack := Done(NodeConfig);
        case Reload =>
          ack := if !setup.canReload then Failed(Internal)
          else if !a.reloadOk then Failed(ApplyFailed) else Done(NoData);
        case Ping => ack := Done(NoData);
        case UpgradeAgent => ack := UpgradeTo(c, serverTime, a);
        case OpenTunnel => ack := TunnelAck(setup, c, a);
        case OtherKind(_) => ack := Failed(UnsupportedType);
      }
    }

    method UpgradeTo(c: Command, ghost serverTime: int, a: Answers) returns (ack: Ack)
      requires c.kind.UpgradeAgent? && !IsExpired(c, serverTime)
      modifies this`pendingExit, disk
      ensures ack == Perform(setup, c, serverTime, a, old(disk.View()))
      ensures disk.View() == FilesAfter(setup, c, serverTime, a, old(disk.View()))
      ensures pendingExit == (old(pendingExit) || Upgrades(setup, c, serverTime, a, old(disk.View())))
    {
      if !setup.canUpgrade {
        return Failed(UnsupportedType);
      }
      if !c.payload.Plan? {
        return Failed(InvalidPayload);
      }
      var tag := c.payload.tag;
      if tag == setup.version {
        return Done(UpgradeData(setup.version, tag));
      }
      var newer := IsNewerRelease(tag, setup.version);
      if !newer {
        return Failed(InvalidPayload);
      }
      if tag == "" || c.payload.sha == "" {
        return Failed(Internal);
      }
      var r := disk.PrepareFrom(c.payload.sha, setup.sha, a.faults);
      if !r.Ready? {
        return Failed(Internal);
      }
      pendingExit := true;
      ack := Done(UpgradeData(setup.version, tag));
    }

    method RememberAck(ack: Ack)
      modifies this`recent, this`order
      ensures Cache(recent, order) == Remember(old(Cache(recent, order)), ack)
    {
      if ack.id !in recent {
        order := order + [ack.id];
      }
      recent := recent[ack.id := ack];
      ghost var evicted := Evict(Cache(recent, order));
      while |order| > MAX_RECENT
        invariant Evict(Cache(recent, order)) == evicted
        decreases |order|
      {
        recent := recent - {order[0]};
        order := order[1..];
      }
    }
  }

  const EMPTY_CACHE := Cache(map[], [])

  // ----- What an ack says -----

  /** An upgrade to another release gets through: the release is newer, its checksum is listed, and
      every step of the attempt works. */
  predicate UpgradeWorks(s: Setup, c: Command, a: Answers, f: Files) {
    var x := a.faults;
    && s.canUpgrade && c.payload.Plan? && Newer(c.payload.tag, s.version) && c.payload.sha != ""
    && x.download.Fetched? && x.hashOk && s.sha(x.download.whole) == c.payload.sha && x.chmodOk
    && (x.backupOk || f.exe.None?) && x.installOk
  }

  predicate TunnelAsked(c: Command) {
    c.payload.Session? && c.payload.session != "" && c.payload.url != "" && c.payload.sameHost
  }

  /** The error of a command that has not expired, by its kind. */
  predicate ErrorSays(s: Setup, c: Command, a: Answers, f: Files, error: Option<Code>) {
    match c.kind
    case Ping => error == None
    case GetConfig => error == None
    case Reload =>
      && (error == None <==> s.canReload && a.reloadOk)
      && (error == Some(Internal) <==> !s.canReload)
      && (error == Some(ApplyFailed) <==> s.canReload && !a.reloadOk)
    case UpgradeAgent =>
      var same := s.canUpgrade && c.payload.Plan? && c.payload.tag == s.version;
      var refused := c.payload.Plan? ==> c.payload.tag != s.version && !Newer(c.payload.tag, s.version);
      && (error == None <==> same || UpgradeWorks(s, c, a, f))
      && (error == Some(UnsupportedType) <==> !s.canUpgrade)
      && (error == Some(InvalidPayload) <==> s.canUpgrade && refused)
      && (error == Some(Internal) <==> s.canUpgrade && !refused && !same && !UpgradeWorks(s, c, a, f))
    case OpenTunnel =>
      && (error == None <==> s.canTunnel && TunnelAsked(c) && a.tunnelOk)
      && (error == Some(UnsupportedType) <==> !s.canTunnel)
      && (error == Some(InvalidPayload) <==> s.canTunnel && !TunnelAsked(c))
      && (error == Some(TunnelFailed) <==> s.canTunnel && TunnelAsked(c) && !a.tunnelOk)
    case OtherKind(_) => error == Some(UnsupportedType)
  }

  /** The data that a command which worked brings back. */
  function DataOf(s: Setup, c: Command): AckData {
    match c.kind
    case GetConfig => NodeConfig
    case UpgradeAgent => if c.payload.Plan? then UpgradeData(s.version, c.payload.tag) else NoData
    case OpenTunnel => if c.payload.Session? then SessionData(c.payload.session) else NoData
    case _ => NoData
  }

  /** What the ack of a command that is really performed says: expired by the server's clock and
      nothing else, or done, or exactly one error for each way to fail; data only when it is done;
      and an exit becomes pending exactly by an upgrade to another release that works. */
  lemma AckSays(s: Setup, e: Exec, c: Command, serverTime: int, a: Answers)
    requires c.id !in e.cache.recent
    ensures var (e1, ack) := Execute(s, e, c, serverTime, a);
            var late := c.expiresAt.Some? && serverTime > c.expiresAt.value;
            && ack.id == c.id
            && (ack.error == Some(Expired) <==> late)
            && (!late ==> ErrorSays(s, c, a, e.files, ack.error))
            && ack.data == (if ack.error == None then DataOf(s, c) else NoData)
            && (e1.pendingExit <==> e.pendingExit || (!late && c.kind.UpgradeAgent? && UpgradeWorks(s, c, a, e.files)))
            && (e1.files != e.files ==> !late && c.kind.UpgradeAgent? && s.canUpgrade)
  {
    if c.kind.UpgradeAgent? && c.payload.Plan? {
      PrepareResultIs(e.files, c.payload.sha, s.sha, a.faults);
      NewerIsNamed(c.payload.tag, s.version);
    }
  }

  lemma NewerIsNamed(tag: string, version: string)
    ensures Newer(tag, version) ==> tag != "" && tag != version
  {
    NewerIsStrictOrder(tag, version, tag);
    assert SplitDots(TrimV("")) == [""];
  }

  // ----- The cache on its own: a sequence of candidate acks, some of them already known -----

  function LastIds(ids: seq<Id>, n: nat): seq<Id> {
    if |ids| <= n then ids else ids[|ids| - n..]
  }

  lemma RememberNew(c: Cache, ack: Ack)
    requires CacheOk(c) && ack.id !in c.recent
    ensures var c' := Remember(c, ack);
            && CacheOk(c') && c'.order == LastIds(c.order + [ack.id], MAX_RECENT)
            && ack.id in c'.recent && c'.recent[ack.id] == ack
            && (forall id :: id in c'.order && id != ack.id ==> id in c.recent && c'.recent[id] == c.recent[id])
  {
    var order := c.order + [ack.id];
    var recent := c.recent[ack.id := ack];
    SnocNew(c.order, ack.id);
    if |order| > MAX_RECENT {
      EvictOne(Cache(recent, order));
    }
  }

  lemma SnocNew(ids: seq<Id>, id: Id)
    requires NoDups(ids) && id !in ids
    ensures NoDups(ids + [id]) && forall x :: x in ids + [id] <==> x in ids || x == id
  {
  }

  lemma {:induction false} EvictOne(c: Cache)
    requires |c.order| == MAX_RECENT + 1 && NoDups(c.order)
    requires forall id :: id in c.order <==> id in c.recent
    ensures Evict(c) == Cache(c.recent - {c.order[0]}, c.order[1..])
    ensures NoDups(c.order[1..])
    ensures forall id :: id in c.order[1..] <==> id in c.recent - {c.order[0]}
  {
    assert forall id :: id in c.order <==> id == c.order[0] || id in c.order[1..];
    assert c.order[0] !in c.order[1..];
  }

  /** One call: a known id is replayed, any other is performed and remembered. */
  function Lookup(c: Cache, candidate: Ack): (Cache, Ack) {
    if candidate.id in c.recent then (c, c.recent[candidate.id]) else (Remember(c, candidate), candidate)
  }

  function LookupAll(c: Cache, candidates: seq<Ack>): (r: (Cache, seq<Ack>))
    ensures |r.1| == |candidates|
    decreases |candidates|
  {
    if candidates == [] then (c, [])
    else
      var (c1, ack) := Lookup(c, candidates[0]);
      var (c2, acks) := LookupAll(c1, candidates[1..]);
      (c2, [ack] + acks)
  }

  /** The ids that are performed, not replayed, in order. */
  function Fresh(c: Cache, candidates: seq<Ack>): seq<Id>
    decreases |candidates|
  {
    if candidates == [] then []
    else
      (if candidates[0].id in c.recent then [] else [candidates[0].id])
      + Fresh(Lookup(c, candidates[0]).0, candidates[1..])
  }

  /** `past` is what was performed so far: the cache is its last 200 ids, and equal ids in it
      are more than 200 places apart. */
  ghost predicate FollowsHistory(c: Cache, past: seq<Id>) {
    CacheOk(c) && c.order == LastIds(past, MAX_RECENT) && Spaced(past)
  }

  predicate Spaced(past: seq<Id>) {
    forall i, j :: 0 <= i < j < |past| && past[i] == past[j] ==> j - i > MAX_RECENT
  }

  lemma {:induction false} FreshCons(c: Cache, past: seq<Id>, candidates: seq<Ack>)
    requires candidates != []
    ensures var first := candidates[0];
            past + Fresh(c, candidates)
            == (if first.id in c.recent then past else past + [first.id]) + Fresh(Lookup(c, first).0, candidates[1..])
  {
  }

  lemma StepFollows(c: Cache, past: seq<Id>, candidate: Ack)
    requires FollowsHistory(c, past)
    ensures FollowsHistory(Lookup(c, candidate).0, if candidate.id in c.recent then past else past + [candidate.id])
  {
    var id := candidate.id;
    if id !in c.recent {
      RememberNew(c, candidate);
      assert LastIds(c.order + [id], MAX_RECENT) == LastIds(past + [id], MAX_RECENT);
      NotAmongLast(past, MAX_RECENT, id);
    }
  }

  lemma NotAmongLast(past: seq<Id>, n: nat, id: Id)
    requires id !in LastIds(past, n)
    ensures forall i :: 0 <= i < |past| && past[i] == id ==> |past| - i > n
  {
    var tail := LastIds(past, n);
    assert forall k :: 0 <= k < |tail| ==> tail[k] == past[|past| - |tail| + k];
    assert forall i :: |past| - |tail| <= i < |past| ==> past[i] == tail[i - (|past| - |tail|)];
  }

  lemma {:induction false} RunFollows(c: Cache, past: seq<Id>, candidates: seq<Ack>)
    requires FollowsHistory(c, past)
    ensures FollowsHistory(LookupAll(c, candidates).0, past + Fresh(c, candidates))
    decreases |candidates|
  {
    if candidates == [] {
      assert past + [] == past;
    } else {
      var id := candidates[0].id;
      StepFollows(c, past, candidates[0]);
      FreshCons(c, past, candidates);
      RunFollows(Lookup(c, candidates[0]).0, if id in c.recent then past else past + [id], candidates[1..]);
    }
  }

  /** How many ids were remembered after this one. */
  function Age(order: seq<Id>, id: Id): nat
    requires id in order
    decreases |order|
  {
    if order[|order| - 1] == id then 0 else 1 + Age(order[..|order| - 1], id)
  }

  lemma {:induction false} AgeInSuffix(order: seq<Id>, id: Id, n: nat)
    requires id in order && Age(order, id) < n
    ensures id in LastIds(order, n) && Age(LastIds(order, n), id) == Age(order, id)
    decreases |order|
  {
    var last := |order| - 1;
    var tail := LastIds(order, n);
    assert tail[|tail| - 1] == order[last];
    if order[last] != id {
      AgeInSuffix(order[..last], id, n - 1);
      assert tail[..|tail| - 1] == LastIds(order[..last], n - 1);
    } else {
      assert id == tail[|tail| - 1];
    }
  }

  lemma {:induction false} CacheAges(c: Cache, candidate: Ack, id: Id)
    requires CacheOk(c) && id in c.recent && candidate.id !in c.recent && Age(c.order, id) + 1 < MAX_RECENT
    ensures var c1 := Remember(c, candidate);
            && CacheOk(c1) && id in c1.recent && id in c1.order && c1.recent[id] == c.recent[id]
            && Age(c1.order, id) == Age(c.order, id) + 1
  {
    RememberNew(c, candidate);
    var order := c.order + [candidate.id];
    assert order[..|order| - 1] == c.order;
    AgeInSuffix(order, id, MAX_RECENT);
  }

  lemma {:induction false} StaysCached(c: Cache, candidates: seq<Ack>, id: Id)
    requires CacheOk(c) && id in c.recent
    requires Age(c.order, id) + |Fresh(c, candidates)| < MAX_RECENT
    ensures id in LookupAll(c, candidates).0.recent && LookupAll(c, candidates).0.recent[id] == c.recent[id]
    ensures forall k :: 0 <= k < |candidates| && candidates[k].id == id ==>
                          LookupAll(c, candidates).1[k] == c.recent[id]
    decreases |candidates|
  {
    if candidates != [] {
      var (c1, ack) := Lookup(c, candidates[0]);
      if candidates[0].id !in c.recent {
        CacheAges(c, candidates[0], id);
      }
      StaysCached(c1, candidates[1..], id);
      var acks := LookupAll(c, candidates).1;
      var rest := LookupAll(c1, candidates[1..]).1;
      assert acks == [ack] + rest;
      forall k | 0 <= k < |candidates| && candidates[k].id == id ensures acks[k] == c.recent[id] {
        if k > 0 {
          assert candidates[1..][k - 1] == candidates[k];
        }
      }
    }
  }

  // ----- Any sequence of commands -----

  datatype Call = Call(command: Command, serverTime: int, answers: Answers)

  function ExecuteAll(s: Setup, e: Exec, calls: seq<Call>): (r: (Exec, seq<Ack>))
    ensures |r.1| == |calls|
    decreases |calls|
  {
    if calls == [] then (e, [])
    else
      var (e1, ack) := Execute(s, e, calls[0].command, calls[0].serverTime, calls[0].answers);
      var (e2, acks) := ExecuteAll(s, e1, calls[1..]);
      (e2, [ack] + acks)
  }

  /** The ids of the commands that are really performed, in order. */
  function Performed(s: Setup, e: Exec, calls: seq<Call>): seq<Id>
    decreases |calls|
  {
    if calls == [] then []
    else
      (if calls[0].command.id in e.cache.recent then [] else [calls[0].command.id])
      + Performed(s, Execute(s, e, calls[0].command, calls[0].serverTime, calls[0].answers).0, calls[1..])
  }

  function Candidates(s: Setup, e: Exec, calls: seq<Call>): (r: seq<Ack>)
    ensures |r| == |calls|
    decreases |calls|
  {
    if calls == [] then []
    else
      [Candidate(s, e, calls[0].command, calls[0].serverTime, calls[0].answers)]
      + Candidates(s, Execute(s, e, calls[0].command, calls[0].serverTime, calls[0].answers).0, calls[1..])
  }

  lemma {:induction false} CallsAreLookups(s: Setup, e: Exec, calls: seq<Call>)
    ensures var l := LookupAll(e.cache, Candidates(s, e, calls));
            && ExecuteAll(s, e, calls).0.cache == l.0 && ExecuteAll(s, e, calls).1 == l.1
            && Performed(s, e, calls) == Fresh(e.cache, Candidates(s, e, calls))
    ensures forall k :: 0 <= k < |calls| ==> Candidates(s, e, calls)[k].id == calls[k].command.id
    decreases |calls|
  {
    if calls != [] {
      var first := calls[0];
      var candidate := Candidate(s, e, first.command, first.serverTime, first.answers);
      var (e1, ack) := Execute(s, e, first.command, first.serverTime, first.answers);
      assert Lookup(e.cache, candidate) == (e1.cache, ack);
      CallsAreLookups(s, e1, calls[1..]);
      assert Candidates(s, e, calls)[1..] == Candidates(s, e1, calls[1..]);
    }
  }

  /** Conditional at-most-once. From an empty cache, whatever is delivered and redelivered: the
      cache stays sound, and an id that is performed a second time has at least 200 performed
      ids in between, the last 200 of them all different and none of them itself. */
  lemma {:induction false} PerformedAgainOnlyAfter200(s: Setup, e: Exec, calls: seq<Call>, i: nat, j: nat)
    requires e.cache == EMPTY_CACHE
    requires var p := Performed(s, e, calls); i < j < |p| && p[i] == p[j]
    ensures CacheOk(ExecuteAll(s, e, calls).0.cache)
    ensures var p := Performed(s, e, calls);
            j - i > 200 && NoDups(p[j - 200..j]) && p[j] !in p[j - 200..j]
  {
    CallsAreLookups(s, e, calls);
    RunFollows(e.cache, [], Candidates(s, e, calls));
    assert [] + Performed(s, e, calls) == Performed(s, e, calls);
    SpacedWindow(Performed(s, e, calls), j);
  }

  lemma SpacedWindow(p: seq<Id>, j: nat)
    requires Spaced(p) && MAX_RECENT <= j < |p|
    ensures NoDups(p[j - MAX_RECENT..j]) && p[j] !in p[j - MAX_RECENT..j]
  {
    var window := p[j - MAX_RECENT..j];
    assert forall x :: 0 <= x < |window| ==> window[x] == p[j - MAX_RECENT + x];
  }

  /** A remembered ack is replayed unchanged for as long as fewer than 200 new commands have
      been performed since. */
  lemma {:induction false} ReplayIsOriginal(s: Setup, e: Exec, calls: seq<Call>, id: Id)
    requires CacheOk(e.cache) && id in e.cache.recent
    requires Age(e.cache.order, id) + |Performed(s, e, calls)| < MAX_RECENT
    ensures forall k :: 0 <= k < |calls| && calls[k].command.id == id ==>
                          ExecuteAll(s, e, calls).1[k] == e.cache.recent[id]
  {
    CallsAreLookups(s, e, calls);
    StaysCached(e.cache, Candidates(s, e, calls), id);
  }
}
