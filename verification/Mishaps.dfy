/** What goes wrong around a self-upgrade, for any two releases: concrete lives of the agent, with
    internal/enroll/runner.go, executor.go and upgrade.go as they are. */
module Mishaps {
  import opened Machine
  import opened Upgrade
  import opened Version
  import opened CommandExecutor
  import opened PollLoop
  import opened PollLaws
  import opened Protocol
  import opened UpgradeRuns
  import opened Lives

  // ----- The polls that these lives are made of -----

  function SameSum(b: Binary): string {
    "sum"
  }

  function ConfigOf(version: string): Config {
    Config(Setup(version, true, true, true, SameSum), true)
  }

  function FaultsOf(tag: string, works: bool): Faults {
    Faults(Fetched(Binary(tag, [])), true, true, true, true, works, works, true)
  }

  /** An honest upgrade that works, or whose install and restore both fail. */
  function UpgradeTo(id: Id, tag: string, works: bool): Given {
    Given(Command(id, UpgradeAgent, None, Plan(tag, "sum")), Answers(true, true, FaultsOf(tag, works)))
  }

  function Brings(g: Given, clearOk: bool): Round {
    Round(Answer(0, [g], [], 0, clearOk), true, 0, 0)
  }

  function Confirms(ids: seq<Id>, clearOk: bool): Round {
    Round(Answer(0, [], ids, 0, clearOk), true, 0, 0)
  }

  function Fails(received: bool): Round {
    Round(Failure(1.0, true), received, 0, 0)
  }

  function Outset(version: string): Files {
    Files(Some(Binary(version, [])), None, None)
  }

  // ----- What each of them does -----

  lemma {:induction false} OneCommand(s: Setup, e: Exec, g: Given)
    ensures var calls := CallsOf([g], 0);
            var (e1, ack) := Execute(s, e, g.command, 0, g.answers);
            && ExecuteAll(s, e, calls) == (e1, [ack])
            && CallsTouches(s, e, calls) == CallTouches(s, e, Call(g.command, 0, g.answers))
  {
    var call := Call(g.command, 0, g.answers);
    var calls := CallsOf([g], 0);
    assert calls == [call] && calls[1..] == [];
    assert [ExecuteCall(s, e, call).1] + [] == [ExecuteCall(s, e, call).1];
    assert CallTouches(s, e, call) + [] == CallTouches(s, e, call);
  }

  lemma UpgradeIsHonest(s: Setup, id: Id, tag: string, works: bool)
    requires Newer(tag, s.version) && s.canUpgrade && s.sha == SameSum
    ensures Prepares(s, UpgradeTo(id, tag, works).command, 0) && HonestPlan(s, UpgradeTo(id, tag, works))
  {
    NewerIsStrictOrder(tag, s.version, tag);
    assert tag != "" by { assert Parse("").None? by { assert SplitDots(TrimV("")) == [""]; } }
  }

  function ResultOf(f: Files, tag: string, works: bool): Prepared {
    PrepareTrace(f, "sum", SameSum, FaultsOf(tag, works)).1
  }

  /** With or without an executable to begin with. */
  lemma AttemptOf(f: Files, tag: string, works: bool)
    ensures ResultOf(f, tag, works) == if works then Ready else NoExecutableLeft
    ensures PrepareFiles(f, "sum", SameSum, FaultsOf(tag, works))
            == Files(if works then Some(Binary(tag, [])) else None, f.exe, None)
  {
    PrepareLeaves(f, "sum", SameSum, FaultsOf(tag, works));
  }

  lemma UpgradeCall(s: Setup, e: Exec, id: Id, tag: string, works: bool) returns (ack: Ack)
    requires Newer(tag, s.version) && s.canUpgrade && s.sha == SameSum
    requires CacheOk(e.cache) && id !in e.cache.recent
    ensures ack.id == id && (works ==> ack.error == None)
    ensures var (e1, acks) := ExecuteAll(s, e, CallsOf([UpgradeTo(id, tag, works)], 0));
            && acks == [ack] && CacheOk(e1.cache) && e1.cache.recent.Keys <= e.cache.recent.Keys + {id}
            && e1.pendingExit == (e.pendingExit || works)
            && e1.files == Files(if works then Some(Binary(tag, [])) else None, e.files.exe, None)
    ensures CallsTouches(s, e, CallsOf([UpgradeTo(id, tag, works)], 0))
            == [Attempted(if works then Ready else NoExecutableLeft, true)]
  {
    var g := UpgradeTo(id, tag, works);
    UpgradeIsHonest(s, id, tag, works);
    OneCommand(s, e, g);
    AttemptOf(e.files, tag, works);
    ack := Candidate(s, e, g.command, 0, g.answers);
    NewKeys(e.cache, ack);
  }

  /** An answered poll that brings one honest command and confirms nothing. */
  predicate BringsOne(s: Setup, x: Round, id: Id) {
    && x.reply.Answer? && x.received && x.reply.acked == []
    && |x.reply.commands| == 1 && x.reply.commands[0].command.id == id && HonestCommands(s, x.reply.commands)
  }

  /** One poll that brings one upgrade. */
  lemma UpgradeRound(old_: string, r: State, id: Id, tag: string, works: bool, clearOk: bool)
    returns (x: Round, r1: State, ack: Ack)
    requires Newer(tag, old_) && CacheOk(r.exec.cache) && id !in r.exec.cache.recent
    requires r.exec.pendingExit ==> r.pending != []
    ensures BringsOne(ConfigOf(old_).setup, x, id)
    ensures Step(ConfigOf(old_), r, x).0 == r1 && Step(ConfigOf(old_), r, x).1 == Running
    ensures RoundTouches(ConfigOf(old_), r, x)
            == (if clearOk then [BackupCleared] else []) + [Attempted(if works then Ready else NoExecutableLeft, true)]
    ensures CacheOk(r1.exec.cache) && r1.exec.cache.recent.Keys <= r.exec.cache.recent.Keys + {id}
    ensures r1.exec.pendingExit == (r.exec.pendingExit || works) && r1.fails == 0
    ensures r1.pending == r.pending + [ack] && ack.id == id && (works ==> ack.error == None)
    ensures AckIds(r1.pending) == AckIds(r.pending) + {id}
    ensures r1.exec.files == Files(if works then Some(Binary(tag, [])) else None, r.exec.files.exe, None)
  {
    var c := ConfigOf(old_);
    x := Brings(UpgradeTo(id, tag, works), clearOk);
    assert IdSet([]) == {};
    WithoutNone(r.pending);
    ack := UpgradeCall(c.setup, Confirmed(c, r, x.reply).exec, id, tag, works);
    UpgradeIsHonest(c.setup, id, tag, works);
    r1 := Step(c, r, x).0;
    AckIdsConcat(r.pending, [ack]);
    assert AckIds([ack]) == {ack.id};
  }

  /** The poll that confirms everything ends the process. */
  lemma ConfirmRound(c: Config, r: State, ids: seq<Id>, clearOk: bool)
    requires r.exec.pendingExit && AckIds(r.pending) <= IdSet(ids)
    ensures var (r1, exit, _) := Step(c, r, Confirms(ids, clearOk));
            exit == UpgradedByAck && r1.exec.files == Cleared(c, r.exec.files, clearOk)
  {
    FullConfirmationExits(c, r, Confirms(ids, clearOk));
  }

  lemma FailRound(c: Config, r: State, received: bool)
    requires c.hasExePath
    ensures var (r1, exit, _) := Step(c, r, Fails(received));
            if r.fails + 1 >= ROLLBACK_THRESHOLD && r.exec.files.prev.Some? then
              exit == UpgradedByRollback && r1.exec.files == Restored(r.exec.files, true)
            else exit == Running && r1.fails == r.fails + 1 && r1.exec == r.exec && r1.pending == r.pending
  {
  }

  // ----- Runs of a few polls -----

  lemma {:induction false} RunFirst(c: Config, r: State, x: Round, rest: seq<Round>)
    requires Step(c, r, x).1 == Running
    ensures var r1 := Step(c, r, x).0;
            && RunAll(c, r, [x] + rest).0 == RunAll(c, r1, rest).0
            && RunAll(c, r, [x] + rest).1 == RunAll(c, r1, rest).1
            && RunTouches(c, r, [x] + rest) == RoundTouches(c, r, x) + RunTouches(c, r1, rest)
  {
    assert ([x] + rest)[1..] == rest;
  }

  lemma {:induction false} RunOne(c: Config, r: State, x: Round)
    ensures RunAll(c, r, [x]).0 == Step(c, r, x).0 && RunAll(c, r, [x]).1 == Step(c, r, x).1
    ensures RunTouches(c, r, [x]) == RoundTouches(c, r, x)
  {
    assert [x][1..] == [] && RoundTouches(c, r, x) + [] == RoundTouches(c, r, x);
  }

  lemma HonestFirst(s: Setup, x: Round, rest: seq<Round>)
    requires (x.reply.Answer? ==> HonestCommands(s, x.reply.commands)) && HonestRounds(s, rest)
    ensures HonestRounds(s, [x] + rest)
  {
  }

  lemma {:induction false} ThreeFailures(c: Config, r: State, received: bool)
    requires c.hasExePath && r.fails == 0 && r.exec.files.prev.Some?
    ensures var (end, exit, _) := RunAll(c, r, Silence(received));
            exit == UpgradedByRollback && end.exec.files == Restored(r.exec.files, true)
    ensures HonestRounds(c.setup, Silence(received))
  {
    var f := Fails(received);
    var r1 := Step(c, r, f).0;
    var r2 := Step(c, r1, f).0;
    FailRound(c, r, received);
    FailRound(c, r1, received);
    FailRound(c, r2, received);
    RunFirst(c, r, f, [f] + [f]);
    RunFirst(c, r1, f, [f]);
    RunOne(c, r2, f);
  }

  /** Three polls without an answer. */
  function Silence(received: bool): seq<Round> {
    [Fails(received)] + ([Fails(received)] + [Fails(received)])
  }

  // ----- Nothing left to start -----

  lemma LossAndExit(old_: string, r: State, tag: string) returns (rounds: seq<Round>)
    requires Newer(tag, old_) && CacheOk(r.exec.cache) && r.exec.cache.recent.Keys <= {1}
    requires r.exec.pendingExit && r.pending != [] && AckIds(r.pending) <= {1}
    ensures var (end, exit, _) := RunAll(ConfigOf(old_), r, rounds);
            exit == UpgradedByAck && end.exec.files.exe == None && end.exec.files.prev == None
    ensures HonestRounds(ConfigOf(old_).setup, rounds)
  {
    hide Step, RoundTouches, Parse;
    var x, r1, ack := UpgradeRound(old_, r, 2, tag, false, true);
    assert IdSet([1, 2]) == {1, 2};
    rounds := [x] + [Confirms([1, 2], true)];
    ThenConfirmed(ConfigOf(old_), r, x, r1, [1, 2]);
    HonestFirst(ConfigOf(old_).setup, x, [Confirms([1, 2], true)]);
  }

  lemma {:induction false} ThenConfirmed(c: Config, r: State, x: Round, r1: State, ids: seq<Id>)
    requires Step(c, r, x).0 == r1 && Step(c, r, x).1 == Running
    requires c.hasExePath && r1.exec.pendingExit && AckIds(r1.pending) <= IdSet(ids)
    ensures var (end, exit, _) := RunAll(c, r, [x] + [Confirms(ids, true)]);
            exit == UpgradedByAck && end.exec.files.exe == r1.exec.files.exe && end.exec.files.prev == None
  {
    ConfirmRound(c, r1, ids, true);
    RunFirst(c, r, x, [Confirms(ids, true)]);
    RunOne(c, r1, Confirms(ids, true));
  }

  /** An upgrade exit with nothing left to start: two upgrades in one life, the second of which
      loses the executable, and the confirming poll then removes the last copy. */
  lemma ExitWithNothingLeft(old_: string, tag: string) returns (l: Life)
    requires Newer(tag, old_)
    ensures Runs(l) && VersionOf(l) == old_ && Outcome(l).1 == UpgradedByAck
    ensures FilesLeft(l).exe == None && FilesLeft(l).prev == None
  {
    var x, r1, ack := UpgradeRound(old_, Initial(Outset(old_), 0), 1, tag, true, true);
    var rest := LossAndExit(old_, r1, tag);
    l := LifeOf(old_, x, r1, rest);
  }

  /** A life from its first poll and the state after it. */
  lemma LifeOf(old_: string, x: Round, r1: State, rest: seq<Round>) returns (l: Life)
    requires Step(ConfigOf(old_), Initial(Outset(old_), 0), x).0 == r1
    requires Step(ConfigOf(old_), Initial(Outset(old_), 0), x).1 == Running
    requires BringsOne(ConfigOf(old_).setup, x, 1) && HonestRounds(ConfigOf(old_).setup, rest)
    ensures l == Life(ConfigOf(old_), Outset(old_), 0, [x] + rest) && Runs(l) && VersionOf(l) == old_
    ensures Outcome(l).1 == RunAll(ConfigOf(old_), r1, rest).1
    ensures FilesLeft(l) == RunAll(ConfigOf(old_), r1, rest).0.exec.files
    ensures Touches(l)
            == RoundTouches(ConfigOf(old_), Initial(Outset(old_), 0), x) + RunTouches(ConfigOf(old_), r1, rest)
  {
    l := Life(ConfigOf(old_), Outset(old_), 0, [x] + rest);
    RunFirst(ConfigOf(old_), Initial(l.files, 0), x, rest);
    HonestFirst(ConfigOf(old_).setup, x, rest);
  }

  // ----- A version that falls -----

  /** A life that is upgraded and confirmed, but cannot remove the backup. */
  lemma UpgradedLife(old_: string, tag: string) returns (l: Life)
    requires Newer(tag, old_)
    ensures Runs(l) && VersionOf(l) == old_ && Outcome(l).1 == UpgradedByAck
    ensures FilesLeft(l) == Files(Some(Binary(tag, [])), Some(Binary(old_, [])), None)
  {
    var x, r1, ack := UpgradeRound(old_, Initial(Outset(old_), 0), 1, tag, true, false);
    assert IdSet([1]) == {1};
    ConfirmRound(ConfigOf(old_), r1, [1], false);
    RunOne(ConfigOf(old_), r1, Confirms([1], false));
    l := LifeOf(old_, x, r1, [Confirms([1], false)]);
  }

  /** A life that never reaches the server and finds a backup. */
  lemma RolledBackLife(files: Files) returns (l: Life)
    requires files.exe.Some? && files.prev.Some?
    ensures Runs(l) && l.files == files && VersionOf(l) == files.exe.value.version
    ensures Outcome(l).1 == UpgradedByRollback && FilesLeft(l) == Restored(files, true)
  {
    var c := ConfigOf(files.exe.value.version);
    l := Life(c, files, 0, Silence(false));
    ThreeFailures(c, Initial(files, 0), false);
  }

  /** The version falls: a confirmed upgrade whose backup could not be removed, a new version
      that cannot reach the server, and the old one again. */
  lemma FallingChain(old_: string, tag: string) returns (lives: seq<Life>)
    requires Newer(tag, old_)
    ensures Chain(lives) && Versions(lives) == [old_, tag, old_] && !NeverFalls(Versions(lives))
  {
    hide Outcome;
    var l1 := UpgradedLife(old_, tag);
    var l2 := RolledBackLife(FilesLeft(l1));
    var l3 := Life(ConfigOf(old_), FilesLeft(l2), 0, []);
    lives := [l1, l2, l3];
    NewerIsStrictOrder(old_, tag, old_);
    assert Versions(lives)[1] == tag && Versions(lives)[2] == old_;
    assert !NotOlder(Versions(lives)[2], Versions(lives)[1]);
  }

  // ----- An upgrade that is acknowledged and undone -----

  /** The server has the ack of an upgrade that works, and the agent is the old version again:
      the process that prepared the upgrade sent the ack three times, heard nothing, and rolled
      back. */
  lemma AckedButUndone(old_: string, tag: string) returns (l: Life, ack: Ack)
    requires Newer(tag, old_)
    ensures Runs(l) && VersionOf(l) == old_ && Outcome(l).1 == UpgradedByRollback && FilesLeft(l).exe == l.files.exe
    ensures HonestRun(l.config, {}, Initial(l.files, l.now), l.rounds)
    ensures ack in AllProduced(Outcome(l).2) && ack.error == None
    ensures ack.id in GotAfter(l.config, {}, Initial(l.files, l.now), l.rounds)
  {
    var c, r := ConfigOf(old_), Initial(Outset(old_), 0);
    var x, r1;
    x, r1, ack := UpgradeRound(old_, r, 1, tag, true, true);
    ThreeFailures(c, r1, true);
    l := LifeOf(old_, x, r1, Silence(true));
    AckArrives(c, r, x, r1, ack);
  }

  /** The ack of the first poll arrives although no answer comes any more. */
  lemma {:induction false} AckArrives(c: Config, r: State, x: Round, r1: State, ack: Ack)
    requires Step(c, r, x).0 == r1 && Step(c, r, x).1 == Running && BringsOne(c.setup, x, ack.id)
    requires r.pending == [] && r1.pending == [ack]
    ensures HonestRun(c, {}, r, [x] + Silence(true))
    ensures ack in AllProduced(RunAll(c, r, [x] + Silence(true)).2)
    ensures ack.id in GotAfter(c, {}, r, [x] + Silence(true))
  {
    hide Step;
    var rest := Silence(true);
    assert ([x] + rest)[1..] == rest;
    SilenceIsHonest(c, {}, r1);
    QueuedReachesIff(c, {}, r1, rest, ack);
    RunCons(c, r1, rest);
    assert rest[0].received;
    FirstProduced(c, r, [x] + rest, ack);
  }

  lemma {:induction false} SilenceIsHonest(c: Config, got: set<Id>, r: State)
    ensures HonestRun(c, got, r, Silence(true))
  {
    FailuresAreHonest(c, got, r, Silence(true));
  }

  lemma {:induction false} FailuresAreHonest(c: Config, got: set<Id>, r: State, rounds: seq<Round>)
    requires forall k :: 0 <= k < |rounds| ==> rounds[k].reply.Failure?
    ensures HonestRun(c, got, r, rounds)
    decreases |rounds|
  {
    if rounds != [] && Step(c, r, rounds[0]).1 == Running {
      FailuresAreHonest(c, Received(got, r, rounds[0]), Step(c, r, rounds[0]).0, rounds[1..]);
    }
  }

  lemma {:induction false} FirstProduced(c: Config, r: State, rounds: seq<Round>, ack: Ack)
    requires rounds != [] && r.pending == [] && Step(c, r, rounds[0]).0.pending == [ack]
    ensures ack in AllProduced(RunAll(c, r, rounds).2)
  {
    StepPending(c, r, rounds[0]);
    RunCons(c, r, rounds);
    assert [ack][0] in Step(c, r, rounds[0]).2.produced;
  }

  // ----- A retry that succeeds -----

  /** After an attempt that lost the executable, the one that repairs the node removes the only
      copy before it installs the new one. Nothing is missing when the run is over, yet a crash in
      between would have left nothing to start. */
  lemma RepairStripsNode(old_: string, tag: string) returns (l: Life)
    requires Newer(tag, old_)
    ensures Runs(l) && VersionOf(l) == old_ && FilesLeft(l) == Outset(tag)
    ensures !ExeLost(Touches(l)) && !AllGone(Touches(l))
    ensures !CopiesThroughout(RunSteps(l.config, Initial(l.files, l.now), l.rounds))
  {
    hide Step, RoundTouches, Parse;
    var c, r := ConfigOf(old_), Initial(Outset(old_), 0);
    var x, r1, ack1 := UpgradeRound(old_, r, 1, tag, false, false);
    var y, r2, ack2 := UpgradeRound(old_, r1, 2, tag, true, false);
    RunOne(c, r1, y);
    l := LifeOf(old_, x, r1, [y]);
    LostThenRepaired(Touches(l), Attempted(NoExecutableLeft, true), Attempted(Ready, true));
    CopyAtEveryStepIff(c, r, l.rounds);
  }

  lemma LostThenRepaired(ts: seq<Touch>, lost: Touch, repaired: Touch)
    requires ts == [lost] + [repaired] && Loses(lost) && Strips(repaired) && Restores(repaired)
    ensures StripsLast(ts) && !ExeLost(ts) && !AllGone(ts)
  {
    assert ts[..1] == [lost] && LostAt([lost], 0) && Strips(ts[1]);
  }
}
