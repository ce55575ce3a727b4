/** Quota enforcement in local mode: the interleavings of the accounting tick, the user-change
    callbacks and the regenerations of cmd/agent/main.go. Each action is one critical section
    of the source, or one of its writes. */
module Quota {
  import opened Machine
  import opened Counters
  import opened Ledger
  import opened LocalStore
  import opened Accounting
  import opened Generator

  datatype Env = Env(settings: Settings, sni: string, hashes: Hashes)

  /** An accounting pass: Collect, then Deltas, then one AddTraffic for each delta. */
  datatype PassState = Idle | Collected(reading: Snapshot) | Adding(todo: Table, crossed: bool)

  /** regenerateConfig under regenMu. Listed holds the snapshot that ListUsers gave. */
  datatype Regen = Free | Before(pass: PassState, accounted: bool) | Listed(users: seq<User>) | Written | Reloaded

  /** `written` is the configuration file, `loaded` what the running sing-box has read,
      `queued` the regenerateConfig goroutines waiting for regenMu. */
  datatype State = State(
    users: LocalStore.Users, last: Table, written: Config, loaded: Option<Config>,
    tick: PassState, queued: nat, regen: Regen)

  datatype Action =
    | UserChange(op: UserOp, saveOk: bool, now: int)
    | ReloadCommand
    | TickCollect(reading: Snapshot)
    | TickDeltas
    | TickAdd(uuid: Uuid)
    | TickEnd
    | RegenEnter
    | RegenCollect(reading: Snapshot)
    | RegenDeltas
    | RegenAdd(uuid: Uuid)
    | RegenAccounted
    | RegenList(list: seq<LocalUser>)
    | RegenWrite(ok: bool, now: int)
    | RegenReload(ok: bool)
    | RegenReset
    | Crash
    | Respawn

  function ToUser(u: LocalUser): User {
    User(u.uuid, u.protocols, u.ssPassword, u.enabled, u.trafficLimit, u.trafficUsed, u.expireAt)
  }

  function ToUsers(list: seq<LocalUser>): (us: seq<User>)
    ensures |us| == |list| && forall i :: 0 <= i < |list| ==> us[i] == ToUser(list[i])
  {
    seq(|list|, i requires 0 <= i < |list| => ToUser(list[i]))
  }

  ghost predicate Enabled(s: State, a: Action) {
    match a
    case UserChange(_, _, _) => true
    case ReloadCommand => true
    case TickCollect(_) => s.tick.Idle?
    case TickDeltas => s.tick.Collected?
    case TickAdd(u) => s.tick.Adding? && u in s.tick.todo
    case TickEnd => s.tick.Adding? && s.tick.todo == map[]
    case RegenEnter => s.regen.Free? && s.queued > 0
    case RegenCollect(_) => s.regen == Before(Idle, false)
    case RegenDeltas => s.regen.Before? && s.regen.pass.Collected?
    case RegenAdd(u) => s.regen.Before? && s.regen.pass.Adding? && u in s.regen.pass.todo
    case RegenAccounted =>
      s.regen == Before(Idle, false)
      || (s.regen.Before? && s.regen.pass.Adding? && s.regen.pass.todo == map[])
    case RegenList(list) => s.regen == Before(Idle, true) && ListsAll(list, s.users)
    case RegenWrite(_, _) => s.regen.Listed?
    case RegenReload(_) => s.regen.Written?
    case RegenReset => s.regen.Reloaded?
    case Crash => s.loaded.Some?
    case Respawn => s.loaded.None?
  }

  function AddOne(users: LocalStore.Users, todo: Table, u: Uuid): LocalStore.Users
    requires u in todo
  {
    Credit(users, u, todo[u].upload, todo[u].download)
  }

  /** AddTraffic's result. */
  predicate CrossesNow(users: LocalStore.Users, todo: Table, u: Uuid)
    requires u in todo
  {
    u in users && !users[u].OverQuota() && AddOne(users, todo, u)[u].OverQuota()
  }

  ghost function Apply(env: Env, s: State, a: Action): State
    requires Enabled(s, a)
  {
    match a
    case UserChange(op, saveOk, now) =>
      var e := ApplyOp(s.users, op, saveOk, now);
      s.(users := e.users, queued := s.queued + (if e.fired then 1 else 0))
    case ReloadCommand => s.(queued := s.queued + 1)
    case TickCollect(r) => s.(tick := Collected(r))
    case TickDeltas =>
      s.(tick := Adding(DeltasOf(s.last, s.tick.reading), false), last := Remembered(s.last, s.tick.reading))
    case TickAdd(u) =>
      s.(users := AddOne(s.users, s.tick.todo, u),
      tick := Adding(s.tick.todo - {u}, s.tick.crossed || CrossesNow(s.users, s.tick.todo, u)))
    case TickEnd => s.(tick := Idle, queued := s.queued + (if s.tick.crossed then 1 else 0))
    case RegenEnter => s.(regen := Before(Idle, false), queued := s.queued - 1)
    case RegenCollect(r) => s.(regen := Before(Collected(r), false))
    case RegenDeltas =>
      s.(regen := Before(Adding(DeltasOf(s.last, s.regen.pass.reading), false), false),
      last := Remembered(s.last, s.regen.pass.reading))
    case RegenAdd(u) =>
      s.(users := AddOne(s.users, s.regen.pass.todo, u), regen := Before(Adding(s.regen.pass.todo - {u}, false), false))
    case RegenAccounted => s.(regen := Before(Idle, true))
    case RegenList(list) => s.(regen := Listed(ToUsers(list)))
    case RegenWrite(ok, now) =>
      if ok then s.(written := ConfigFor(env.settings, s.regen.users, env.sni, now, env.hashes), regen := Written)
      else s.(regen := Free)
    case RegenReload(ok) => s.(loaded := if ok then Some(s.written) else None, regen := Reloaded)
    case RegenReset => s.(last := map[], regen := Free)
    case Crash => s.(loaded := None)
    case Respawn => s.(loaded := Some(s.written))
  }

  /** The agent starts with any stored users and any old configuration file; initLocalMode's
      own call is the first regeneration. */
  ghost predicate Initial(s: State) {
    && WellKeyed(s.users) && s.loaded.None? && s.tick.Idle? && s.regen.Free?
    && s.queued > 0 && s.last == map[]
  }

  ghost predicate CanRun(env: Env, s: State, run: seq<Action>)
    decreases |run|
  {
    run == [] || (Enabled(s, run[0]) && CanRun(env, Apply(env, s, run[0]), run[1..]))
  }

  ghost function After(env: Env, s: State, run: seq<Action>): State
    requires CanRun(env, s, run)
    decreases |run|
  {
    if run == [] then s else After(env, Apply(env, s, run[0]), run[1..])
  }

  /** A save that fails in a user change, or a write of the file that fails. AddTraffic ignores
      the outcome of its save, which does not matter here. */
  predicate Fails(s: State, a: Action) {
    match a
    case UserChange(op, saveOk, now) => ApplyOp(s.users, op, saveOk, now).outcome.SaveFailed?
    case RegenWrite(ok, _) => !ok
    case _ => false
  }

  ghost predicate NoFailures(env: Env, s: State, run: seq<Action>)
    requires CanRun(env, s, run)
    decreases |run|
  {
    run == [] || (!Fails(s, run[0]) && NoFailures(env, Apply(env, s, run[0]), run[1..]))
  }

  // ----- The invariant -----

  predicate TickCrossed(s: State) {
    s.tick.Adding? && s.tick.crossed
  }

  /** A regeneration that will list the users again is on its way: the tick still holds
      `crossed`, one is queued, or the running one has not called ListUsers yet. */
  predicate Coming(s: State) {
    TickCrossed(s) || s.queued > 0 || s.regen.Before?
  }

  /** A configuration made from this snapshot will not serve `k`. */
  predicate LeavesOut(users: seq<User>, k: Uuid) {
    forall i :: 0 <= i < |users| && users[i].uuid == k ==> !users[i].enabled || users[i].OverQuota()
  }

  predicate Fixing(s: State, k: Uuid) {
    s.regen.Listed? && LeavesOut(s.regen.users, k)
  }

  /** For a user who should not be served: being in the file, in the pending snapshot or in the
      running sing-box means that what removes the user is already under way. */
  predicate Covered(s: State, k: Uuid) {
    && (k in s.written.stats ==> Coming(s) || Fixing(s, k))
    && (s.regen.Listed? && !LeavesOut(s.regen.users, k) ==> Coming(s))
    && (s.loaded.Some? && k in s.loaded.value.stats ==>
          Coming(s) || Fixing(s, k) || (s.regen.Written? && k !in s.written.stats))
  }

  ghost predicate Inv(s: State) {
    WellKeyed(s.users) && forall k :: !Wanted(s.users, k) ==> Covered(s, k)
  }

  lemma WrittenLeavesOut(env: Env, users: seq<User>, now: int, k: Uuid)
    requires LeavesOut(users, k)
    ensures k !in ConfigFor(env.settings, users, env.sni, now, env.hashes).stats
  {
    ActiveIdsExact(users, now, k);
  }

  lemma SnapshotLeavesOut(users: LocalStore.Users, list: seq<LocalUser>, k: Uuid)
    requires ListsAll(list, users) && !Wanted(users, k)
    ensures LeavesOut(ToUsers(list), k)
  {
  }

  /** A user who becomes unwanted without a failed save does so by an operation that queues a
      regeneration, or by a credit that crosses the limit. */
  lemma ChangeQueues(env: Env, s: State, a: Action, k: Uuid)
    requires WellKeyed(s.users) && a.UserChange? && !Fails(s, a)
    ensures WellKeyed(Apply(env, s, a).users)
    ensures Wanted(s.users, k) && !Wanted(Apply(env, s, a).users, k) ==> Apply(env, s, a).queued > 0
  {
    OpIsLocal(s.users, a.op, a.saveOk, a.now, k);
    if Wanted(s.users, k) {
      QuietlyUnwantedIff(s.users, a.op, a.saveOk, a.now, k);
    }
  }

  lemma CreditCrosses(users: LocalStore.Users, todo: Table, u: Uuid, k: Uuid)
    requires WellKeyed(users) && u in todo
    ensures WellKeyed(AddOne(users, todo, u))
    ensures Wanted(users, k) && !Wanted(AddOne(users, todo, u), k) ==> CrossesNow(users, todo, u)
  {
  }

  lemma StepCovers(env: Env, s: State, a: Action, k: Uuid)
    requires WellKeyed(s.users) && Enabled(s, a) && !Fails(s, a)
    requires !Wanted(s.users, k) ==> Covered(s, k)
    ensures !Wanted(Apply(env, s, a).users, k) ==> Covered(Apply(env, s, a), k)
    ensures WellKeyed(Apply(env, s, a).users)
  {
    match a {
      case UserChange(_, _, _) =>
        ChangeQueues(env, s, a, k);
      case TickAdd(u) =>
        CreditCrosses(s.users, s.tick.todo, u, k);
      case RegenAdd(u) =>
        CreditCrosses(s.users, s.regen.pass.todo, u, k);
      case RegenList(list) =>
        if !Wanted(s.users, k) {
          SnapshotLeavesOut(s.users, list, k);
        }
      case RegenWrite(_, now) =>
        if LeavesOut(s.regen.users, k) {
          WrittenLeavesOut(env, s.regen.users, now, k);
        }
      case _ =>
    }
  }

  lemma StepKeepsInv(env: Env, s: State, a: Action)
    requires Inv(s) && Enabled(s, a) && !Fails(s, a)
    ensures Inv(Apply(env, s, a))
  {
    forall k ensures !Wanted(Apply(env, s, a).users, k) ==> Covered(Apply(env, s, a), k) {
      StepCovers(env, s, a, k);
    }
    StepCovers(env, s, a, []);
  }

  lemma {:induction false} RunKeepsInv(env: Env, s: State, run: seq<Action>)
    requires Inv(s) && CanRun(env, s, run) && NoFailures(env, s, run)
    ensures Inv(After(env, s, run))
    decreases |run|
  {
    if run != [] {
      StepKeepsInv(env, s, run[0]);
      RunKeepsInv(env, Apply(env, s, run[0]), run[1..]);
    }
  }

  lemma StepWellKeyed(env: Env, s: State, a: Action)
    requires WellKeyed(s.users) && Enabled(s, a)
    ensures WellKeyed(Apply(env, s, a).users)
  {
    if a.UserChange? {
      OpIsLocal(s.users, a.op, a.saveOk, a.now, []);
    }
  }

  lemma {:induction false} RunWellKeyed(env: Env, s: State, run: seq<Action>)
    requires WellKeyed(s.users) && CanRun(env, s, run)
    ensures WellKeyed(After(env, s, run).users)
    decreases |run|
  {
    if run != [] {
      StepWellKeyed(env, s, run[0]);
      RunWellKeyed(env, Apply(env, s, run[0]), run[1..]);
    }
  }

  /** A regeneration that is still to list the users makes good whatever failed before it. */
  lemma {:induction false} Recovers(env: Env, s: State, run: seq<Action>)
    requires WellKeyed(s.users) && Coming(s) && CanRun(env, s, run) && NoFailures(env, s, run)
    ensures Inv(After(env, s, run))
  {
    RunKeepsInv(env, s, run);
  }

  /** No crossing is ever lost. In every interleaving, with any failures before a moment when a
      regeneration was on its way and none after it, a deleted, disabled or over-quota user who
      is still in the file, or still served by the running sing-box, is about to be dropped.
      The very start is such a moment. */
  lemma {:induction false} NoLostCrossing(env: Env, s: State, before: seq<Action>, run: seq<Action>, k: Uuid)
    requires Initial(s) && CanRun(env, s, before) && Coming(After(env, s, before))
    requires CanRun(env, After(env, s, before), run) && NoFailures(env, After(env, s, before), run)
    requires !Wanted(After(env, After(env, s, before), run).users, k)
    ensures Covered(After(env, After(env, s, before), run), k)
  {
    RunWellKeyed(env, s, before);
    Recovers(env, After(env, s, before), run);
  }

  /** Nothing is due, and no snapshot waits to be written. */
  predicate AtRest(s: State) {
    !Coming(s) && !s.regen.Listed?
  }

  /** So whenever nothing is under way, the running sing-box serves wanted users only. */
  lemma {:induction false} QuietMeansEnforced(env: Env, s: State, before: seq<Action>, run: seq<Action>, k: Uuid)
    requires Initial(s) && CanRun(env, s, before) && Coming(After(env, s, before))
    requires CanRun(env, After(env, s, before), run) && NoFailures(env, After(env, s, before), run)
    requires var e := After(env, After(env, s, before), run);
             AtRest(e) && !e.regen.Written? && e.loaded.Some? && k in e.loaded.value.stats
    ensures Wanted(After(env, After(env, s, before), run).users, k)
  {
    if !Wanted(After(env, After(env, s, before), run).users, k) {
      NoLostCrossing(env, s, before, run, k);
    }
  }

  // ----- Where it stops holding -----

  /** Exactly when `Coming` alone covers an unwanted user in the file: unless the running
      regeneration has its snapshot in hand and nothing else is due. */
  lemma {:induction false} ComingIff(env: Env, s: State, before: seq<Action>, run: seq<Action>, k: Uuid)
    requires Initial(s) && CanRun(env, s, before) && Coming(After(env, s, before))
    requires CanRun(env, After(env, s, before), run) && NoFailures(env, After(env, s, before), run)
    requires var e := After(env, After(env, s, before), run);
             !Wanted(e.users, k) && k in e.written.stats
    ensures var e := After(env, After(env, s, before), run);
            Coming(e) <==> !e.regen.Listed? || e.queued > 0 || TickCrossed(e)
  {
    NoLostCrossing(env, s, before, run, k);
  }

  function Over(): LocalUser {
    LocalUser([1], "", [VLESS], "", true, 10, 10, None)
  }

  function Stale(): State {
    State(map[[1] := Over()], map[], Config([], [[1]]), None, Idle, 1, Free)
  }

  lemma {:induction false} AfterSnoc(env: Env, s: State, run: seq<Action>, a: Action)
    requires CanRun(env, s, run) && Enabled(After(env, s, run), a)
    ensures CanRun(env, s, run + [a]) && After(env, s, run + [a]) == Apply(env, After(env, s, run), a)
    ensures NoFailures(env, s, run) && !Fails(After(env, s, run), a) ==> NoFailures(env, s, run + [a])
    decreases |run|
  {
    if run == [] {
      assert run + [a] == [a] && [a][1..] == [];
      assert After(env, Apply(env, s, a), []) == Apply(env, s, a);
    } else {
      assert (run + [a])[1..] == run[1..] + [a];
      AfterSnoc(env, Apply(env, s, run[0]), run[1..], a);
    }
  }

  /** The first regeneration of an agent that starts with an over-quota user in an old file, up
      to its snapshot. */
  lemma StaleListed(env: Env) returns (run: seq<Action>)
    ensures Initial(Stale()) && CanRun(env, Stale(), run) && NoFailures(env, Stale(), run)
    ensures After(env, Stale(), run) == Stale().(queued := 0, regen := Listed(ToUsers([Over()])))
  {
    run := [];
    AfterSnoc(env, Stale(), run, RegenEnter);
    run := run + [RegenEnter];
    AfterSnoc(env, Stale(), run, RegenAccounted);
    run := run + [RegenAccounted];
    AfterSnoc(env, Stale(), run, RegenList([Over()]));
    run := run + [RegenList([Over()])];
  }

  /** The case left out by `Coming` is reached: nothing is due between ListUsers and the write,
      and the over-quota user is still in the file. */
  lemma ListedButNotWritten(env: Env)
    ensures exists s, run :: Initial(s) && CanRun(env, s, run) && NoFailures(env, s, run)
                             && !Wanted(After(env, s, run).users, [1]) && [1] in After(env, s, run).written.stats
                             && !Coming(After(env, s, run))
  {
    var run := StaleListed(env);
  }

  /** A user who has used `used` of 10 bytes. */
  function UserAt(used: Int64): LocalUser {
    LocalUser([1], "", [VLESS], "", true, 10, used, None)
  }

  function TenBytes(): Snapshot {
    map[[1] := Some(UserStats(10, 0))]
  }

  lemma TenBytesDelta()
    ensures DeltasOf(map[], TenBytes()) == map[[1] := UserStats(10, 0)]
  {
    assert Delta(10, 0) == 10;
  }

  /** An agent that starts with one user under the limit, who is in the file. */
  function Served(): State {
    State(map[[1] := UserAt(0)], map[], Config([], [[1]]), None, Idle, 1, Free)
  }

  /** One more action at the end of a run without failures. */
  lemma Extend(env: Env, s: State, run: seq<Action>, e: State, a: Action) returns (longer: seq<Action>, e': State)
    requires CanRun(env, s, run) && NoFailures(env, s, run) && After(env, s, run) == e && Enabled(e, a) && !Fails(e, a)
    ensures CanRun(env, s, longer) && NoFailures(env, s, longer) && After(env, s, longer) == e' == Apply(env, e, a)
  {
    AfterSnoc(env, s, run, a);
    longer, e' := run + [a], Apply(env, e, a);
  }

  /** Its first regeneration, whose own accounting takes the user over the limit. */
  lemma Crosses(env: Env) returns (run: seq<Action>, e: State)
    ensures CanRun(env, Served(), run) && NoFailures(env, Served(), run) && After(env, Served(), run) == e
    ensures e == Served().(users := map[[1] := UserAt(10)], last := e.last, queued := 0,
                           regen := Before(Adding(map[], false), false))
  {
    run, e := Extend(env, Served(), [], Served(), RegenEnter);
    run, e := Extend(env, Served(), run, e, RegenCollect(TenBytes()));
    run, e := Extend(env, Served(), run, e, RegenDeltas);
    TenBytesDelta();
    run, e := Extend(env, Served(), run, e, RegenAdd([1]));
  }

  /** And up to its snapshot. */
  lemma CrossesOnTheWay(env: Env) returns (run: seq<Action>, e: State)
    ensures CanRun(env, Served(), run) && NoFailures(env, Served(), run) && After(env, Served(), run) == e
    ensures e.users == map[[1] := UserAt(10)] && e.written == Served().written && e.tick == Idle
    ensures e.queued == 0 && e.regen == Listed(ToUsers([UserAt(10)]))
  {
    run, e := Crosses(env);
    run, e := Extend(env, Served(), run, e, RegenAccounted);
    OneListed();
    run, e := Extend(env, Served(), run, e, RegenList([UserAt(10)]));
  }

  lemma OneListed()
    ensures ListsAll([UserAt(10)], map[[1] := UserAt(10)])
  {
    assert [UserAt(10)][0] == UserAt(10);
  }

  /** One failed write loses a crossing: on a run from the start on which nothing fails before
      it, a user who was to be served crosses the limit, and once the write has failed the agent is
      at rest with the user still in the file. */
  lemma FailedWriteLoses(env: Env)
    ensures exists s, good ::
              && Initial(s) && CanRun(env, s, good) && NoFailures(env, s, good) && Wanted(s.users, [1])
              && After(env, s, good).regen.Listed?
              && var e := Apply(env, After(env, s, good), RegenWrite(false, 0));
                 AtRest(e) && !Wanted(e.users, [1]) && [1] in e.written.stats
  {
    var good, e := CrossesOnTheWay(env);
    assert Initial(Served()) && Wanted(Served().users, [1]);
  }

  /** Although nothing more fails, the agent can come to rest with the user unwanted and in the file. */
  ghost predicate CanForget(env: Env, s: State, k: Uuid) {
    exists run :: CanRun(env, s, run) && NoFailures(env, s, run) && AtRest(After(env, s, run))
                  && !Wanted(After(env, s, run).users, k) && k in After(env, s, run).written.stats
  }

  /** When a failed write loses an unwanted user who is in the file: exactly if no other
      regeneration is queued and the tick has not just seen a crossing. Otherwise every
      continuation without another failure makes up for it. */
  lemma FailedWriteIff(env: Env, s: State, now: int, k: Uuid)
    requires WellKeyed(s.users) && s.regen.Listed? && !Wanted(s.users, k) && k in s.written.stats
    ensures CanForget(env, Apply(env, s, RegenWrite(false, now)), k) <==> s.queued == 0 && !TickCrossed(s)
  {
    var e := Apply(env, s, RegenWrite(false, now));
    if Coming(e) {
      forall run | CanRun(env, e, run) && NoFailures(env, e, run) && AtRest(After(env, e, run))
                   && !Wanted(After(env, e, run).users, k)
        ensures k !in After(env, e, run).written.stats
      {
        Recovers(env, e, run);
      }
    } else {
      assert After(env, e, []) == e && CanRun(env, e, []) && NoFailures(env, e, []);
    }
  }

  // ----- One regeneration from start to end -----

  lemma ListedAreWanted(env: Env, users: LocalStore.Users, list: seq<LocalUser>, now: int)
    requires ListsAll(list, users)
    ensures forall k :: k in ConfigFor(env.settings, ToUsers(list), env.sni, now, env.hashes).stats ==> Wanted(users, k)
  {
    forall k | !Wanted(users, k)
      ensures k !in ConfigFor(env.settings, ToUsers(list), env.sni, now, env.hashes).stats
    {
      SnapshotLeavesOut(users, list, k);
      WrittenLeavesOut(env, ToUsers(list), now, k);
    }
  }

  class Agent {
    const store: Store
    const meter: Meter
    const generator: ConfigGenerator
    const sni: string
    var written: Config
    var loaded: Option<Config>

    constructor (store: Store, meter: Meter, generator: ConfigGenerator, sni: string, written: Config)
      ensures this.store == store && this.meter == meter && this.generator == generator && this.sni == sni
      ensures this.written == written && loaded.None?
    {
      this.store, this.meter, this.generator, this.sni := store, meter, generator, sni;
      this.written, loaded := written, None;
    }

    /** regenerateConfig without interference: `reading` is the pass before the restart, and the
        two flags say whether the write and the restart succeed. */
    method RegenerateConfig(reading: Option<Snapshot>, writeOk: bool, startOk: bool, now: int)
      requires store.Valid()
      modifies this, store, meter
      ensures store.Valid() && store.callbacks == old(store.callbacks)
      ensures store.users == if reading.None? then old(store.users)
                             else AccountAll(old(store.users), DeltasOf(old(meter.last), reading.value))
      ensures writeOk ==>
                exists list :: ListsAll(list, store.users)
                               && written == ConfigFor(generator.settings, ToUsers(list), sni, now, generator.hashes)
      ensures writeOk ==> meter.last == map[] && loaded == (if startOk then Some(written) else None)
      ensures writeOk ==> forall k :: k in written.stats ==> Wanted(store.users, k)
      ensures !writeOk ==> written == old(written) && loaded == old(loaded)
      ensures !writeOk ==>
                meter.last == if reading.None? then old(meter.last) else Remembered(old(meter.last), reading.value)
    {
      var crossed := AccountLocalTraffic(store, meter, reading, true);
      var list := store.ListUsers();
      var config := generator.Generate(ToUsers(list), sni, now);
      if !writeOk {
        return;
      }
      written := config;
      loaded := if startOk then Some(written) else None;
      meter.Reset();
      ListedAreWanted(Env(generator.settings, sni, generator.hashes), store.users, list, now);
    }
  }
}
