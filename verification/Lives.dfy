/** Versions over the lives of the agent: one process after another, each started from the files
    that the last one left. internal/enroll/runner.go and upgrade.go, with executor.go:203-238. */
module Lives {
  import opened Machine
  import opened Upgrade
  import opened Version
  import opened CommandExecutor
  import opened PollLoop
  import opened UpgradeRuns

  /** A binary with the checksum of a plan reports the plan's tag. */
  predicate HonestPlan(s: Setup, g: Given) {
    var d := g.answers.faults.download;
    g.command.payload.Plan? && d.Fetched? && s.sha(d.whole) == g.command.payload.sha ==>
      d.whole.version == g.command.payload.tag
  }

  predicate HonestCommands(s: Setup, commands: seq<Given>) {
    forall k :: 0 <= k < |commands| ==> HonestPlan(s, commands[k])
  }

  predicate HonestRounds(s: Setup, rounds: seq<Round>) {
    forall k :: 0 <= k < |rounds| && rounds[k].reply.Answer? ==> HonestCommands(s, rounds[k].reply.commands)
  }

  predicate NotOlder(a: string, b: string) {
    a == b || Newer(a, b)
  }

  // ----- One life: which versions the files hold -----

  /** The running version until an upgrade is prepared, a newer one after. */
  predicate Current(s: Setup, pendingExit: bool, b: Binary) {
    if pendingExit then Newer(b.version, s.version) else b.version == s.version
  }

  /** The executable is current; while it is missing, its backup is. */
  predicate Holds(s: Setup, e: Exec) {
    && (e.files.exe.Some? ==> Current(s, e.pendingExit, e.files.exe.value))
    && (e.files.exe.None? && e.files.prev.Some? ==> Current(s, e.pendingExit, e.files.prev.value))
  }

  /** Leaves the backup as it is. */
  predicate KeepsBackup(t: Touch) {
    match t
    case Attempted(BackupFailed, removePrevOk) => !removePrevOk
    case Attempted(r, _) => !r.Ready? && !r.InstallFailed? && !r.NoExecutableLeft?
    case _ => false
  }

  predicate KeptThroughout(ts: seq<Touch>) {
    forall i :: 0 <= i < |ts| ==> KeepsBackup(ts[i])
  }

  lemma KeptConcat(a: seq<Touch>, b: seq<Touch>)
    ensures KeptThroughout(a + b) <==> KeptThroughout(a) && KeptThroughout(b)
  {
    assert forall i :: 0 <= i < |a| ==> (a + b)[i] == a[i];
    assert forall i :: 0 <= i < |b| ==> (a + b)[|a| + i] == b[i];
  }

  predicate NotOlderBackup(s: Setup, f: Files) {
    f.prev.Some? ==> NotOlder(f.prev.value.version, s.version)
  }

  /** What touches do to the backup: it is the one from before, or none, or no older than what runs. */
  predicate BackupAfter(s: Setup, was: Files, f: Files, ts: seq<Touch>) {
    && (KeptThroughout(ts) ==> f.prev == was.prev)
    && (!KeptThroughout(ts) || NotOlderBackup(s, was) ==> NotOlderBackup(s, f))
  }

  lemma BackupConcat(s: Setup, was: Files, mid: Files, f: Files, a: seq<Touch>, b: seq<Touch>)
    requires BackupAfter(s, was, mid, a) && BackupAfter(s, mid, f, b)
    ensures BackupAfter(s, was, f, a + b)
  {
    KeptConcat(a, b);
  }

  lemma CallHolds(s: Setup, e: Exec, g: Given, serverTime: int)
    requires Holds(s, e) && HonestPlan(s, g)
    ensures var call := Call(g.command, serverTime, g.answers);
            var e1 := ExecuteCall(s, e, call).0;
            Holds(s, e1) && BackupAfter(s, e.files, e1.files, CallTouches(s, e, call))
  {
    var c := g.command;
    if c.id !in e.cache.recent && Prepares(s, c, serverTime) {
      PrepareLeaves(e.files, c.payload.sha, s.sha, g.answers.faults);
      assert CallTouches(s, e, Call(c, serverTime, g.answers))[0].Attempted?;
    }
  }

  lemma {:induction false} CommandsHold(s: Setup, e: Exec, commands: seq<Given>, serverTime: int)
    requires Holds(s, e) && HonestCommands(s, commands)
    ensures var calls := CallsOf(commands, serverTime);
            var e1 := ExecuteAll(s, e, calls).0;
            Holds(s, e1) && BackupAfter(s, e.files, e1.files, CallsTouches(s, e, calls))
    decreases |commands|
  {
    if commands != [] {
      var calls := CallsOf(commands, serverTime);
      var e1 := ExecuteCall(s, e, calls[0]).0;
      CallHolds(s, e, commands[0], serverTime);
      assert calls[1..] == CallsOf(commands[1..], serverTime);
      CommandsHold(s, e1, commands[1..], serverTime);
      BackupConcat(s, e.files, e1.files, ExecuteAll(s, e1, calls[1..]).0.files,
                   CallTouches(s, e, calls[0]), CallsTouches(s, e1, calls[1..]));
    }
  }

  lemma AnswerHolds(c: Config, r: State, a: Reply, x: Round)
    requires x.reply == a && a.Answer? && Holds(c.setup, r.exec) && HonestCommands(c.setup, a.commands)
    ensures var r1 := Step(c, r, x).0;
            Holds(c.setup, r1.exec) && BackupAfter(c.setup, r.exec.files, r1.exec.files, RoundTouches(c, r, x))
    ensures Step(c, r, x).1 == UpgradedByAck ==> Step(c, r, x).0.exec.pendingExit
  {
    var e1 := Confirmed(c, r, a).exec;
    var cleared := if c.hasExePath && a.clearOk then [BackupCleared] else [];
    var calls := CallsOf(a.commands, a.serverTime);
    assert c.hasExePath && a.clearOk ==> cleared[0] == BackupCleared;
    assert BackupAfter(c.setup, r.exec.files, e1.files, cleared);
    if Step(c, r, x).1 == Running {
      CommandsHold(c.setup, e1, a.commands, a.serverTime);
      BackupConcat(c.setup, r.exec.files, e1.files, ExecuteAll(c.setup, e1, calls).0.files,
                   cleared, CallsTouches(c.setup, e1, calls));
    } else {
      assert cleared + [] == cleared;
    }
  }

  /** The touches of a run before its rollback, if that is how it ends. */
  function BeforeRollback(ts: seq<Touch>): seq<Touch> {
    if ts != [] && ts[|ts| - 1].RolledBack? then ts[..|ts| - 1] else ts
  }

  /** How a run can end, for `was` its first files and `ts` its touches. */
  predicate Ends(s: Setup, was: Files, exit: Exit, e: Exec, ts: seq<Touch>) {
    if exit == UpgradedByRollback then
      && ts != [] && ts[|ts| - 1].RolledBack? && e.files.exe.Some? && e.files.prev == None
      && (KeptThroughout(BeforeRollback(ts)) ==> e.files.exe == was.prev)
      && (!KeptThroughout(BeforeRollback(ts)) || NotOlderBackup(s, was) ==>
            NotOlder(e.files.exe.value.version, s.version))
    else
      Holds(s, e) && BackupAfter(s, was, e.files, ts) && (exit == UpgradedByAck ==> e.pendingExit)
  }

  lemma StepEnds(c: Config, r: State, x: Round)
    requires Holds(c.setup, r.exec) && (x.reply.Answer? ==> HonestCommands(c.setup, x.reply.commands))
    ensures var (r1, exit, _) := Step(c, r, x);
            Ends(c.setup, r.exec.files, exit, r1.exec, RoundTouches(c, r, x))
  {
    if x.reply.Answer? {
      AnswerHolds(c, r, x.reply, x);
    }
  }

  lemma EndsConcat(s: Setup, was: Files, mid: Files, exit: Exit, e: Exec, a: seq<Touch>, b: seq<Touch>)
    requires BackupAfter(s, was, mid, a) && Ends(s, mid, exit, e, b)
    ensures Ends(s, was, exit, e, a + b)
  {
    if exit == UpgradedByRollback {
      assert (a + b)[|a + b| - 1] == b[|b| - 1];
      assert BeforeRollback(a + b) == a + BeforeRollback(b);
      KeptConcat(a, BeforeRollback(b));
    } else {
      BackupConcat(s, was, mid, e.files, a, b);
    }
  }

  /** Every way a run can end, with any failures, given honest releases. */
  lemma {:induction false} RunEnds(c: Config, r: State, rounds: seq<Round>)
    requires Holds(c.setup, r.exec) && HonestRounds(c.setup, rounds)
    ensures var (r1, exit, _) := RunAll(c, r, rounds);
            Ends(c.setup, r.exec.files, exit, r1.exec, RunTouches(c, r, rounds))
    decreases |rounds|
  {
    if rounds != [] {
      var (r1, exit, _) := Step(c, r, rounds[0]);
      assert rounds[0].reply.Answer? ==> HonestCommands(c.setup, rounds[0].reply.commands);
      StepEnds(c, r, rounds[0]);
      if exit == Running {
        RestIsHonest(c.setup, rounds);
        RunEnds(c, r1, rounds[1..]);
        var (end, exit2, _) := RunAll(c, r1, rounds[1..]);
        EndsConcat(c.setup, r.exec.files, r1.exec.files, exit2, end.exec,
                   RoundTouches(c, r, rounds[0]), RunTouches(c, r1, rounds[1..]));
      }
    }
  }

  lemma RestIsHonest(s: Setup, rounds: seq<Round>)
    requires rounds != [] && HonestRounds(s, rounds)
    ensures HonestRounds(s, rounds[1..])
  {
    forall k | 0 <= k < |rounds[1..]| && rounds[1..][k].reply.Answer?
      ensures HonestCommands(s, rounds[1..][k].reply.commands)
    {
      assert rounds[1..][k] == rounds[k + 1];
    }
  }

  // ----- Lives -----

  /** One life of the agent: the files it finds when it starts, and the polls it makes. */
  datatype Life = Life(config: Config, files: Files, now: nat, rounds: seq<Round>)

  function Outcome(l: Life): (State, Exit, seq<Entry>) {
    RunAll(l.config, Initial(l.files, l.now), l.rounds)
  }

  function FilesLeft(l: Life): Files {
    Outcome(l).0.exec.files
  }

  function Touches(l: Life): seq<Touch> {
    RunTouches(l.config, Initial(l.files, l.now), l.rounds)
  }

  function VersionOf(l: Life): string {
    l.config.setup.version
  }

  /** It runs the executable that is there, and releases are honest. */
  predicate Runs(l: Life) {
    && l.files.exe.Some? && l.files.exe.value.version == VersionOf(l)
    && HonestRounds(l.config.setup, l.rounds)
  }

  lemma LifeEnds(l: Life)
    requires Runs(l)
    ensures Ends(l.config.setup, l.files, Outcome(l).1, Outcome(l).0.exec, Touches(l))
  {
    assert Holds(l.config.setup, Initial(l.files, l.now).exec);
    RunEnds(l.config, Initial(l.files, l.now), l.rounds);
  }

  /** The n-th poll was answered, and removing a backup then works. */
  predicate LastClearOk(rounds: seq<Round>, n: nat) {
    0 < n <= |rounds| && rounds[n - 1].reply.Answer? && rounds[n - 1].reply.clearOk
  }

  /** What a confirmed upgrade leaves. An executable is there exactly when no double failure is
      left unrepaired, and is then another, newer release; no copy of any is left exactly when the
      backup was removed after such a failure. The exit itself clears the backup, unless that
      fails or no path is set. And an attempt of this very life replaced the executable. */
  lemma AckExitLeaves(l: Life)
    requires Runs(l) && Outcome(l).1 == UpgradedByAck
    ensures FilesLeft(l).exe.Some? <==> !ExeLost(Touches(l))
    ensures FilesLeft(l).exe == None && FilesLeft(l).prev == None <==> AllGone(Touches(l))
    ensures FilesLeft(l).exe.Some? ==>
              FilesLeft(l).exe != l.files.exe && Newer(FilesLeft(l).exe.value.version, VersionOf(l))
    ensures l.config.hasExePath && LastClearOk(l.rounds, |Outcome(l).2|) ==> FilesLeft(l).prev == None
    ensures Upgraded(Touches(l))
  {
    LifeEnds(l);
    PendingIff(l.config, Initial(l.files, l.now), l.rounds);
    MissingIff(l.config, Initial(l.files, l.now), l.rounds);
    LastRoundClears(l.config, Initial(l.files, l.now), l.rounds);
    NewerIsStrictOrder(VersionOf(l), VersionOf(l), VersionOf(l));
  }

  lemma {:induction false} LastRoundClears(c: Config, r: State, rounds: seq<Round>)
    requires RunAll(c, r, rounds).1 == UpgradedByAck
    ensures c.hasExePath && LastClearOk(rounds, |RunAll(c, r, rounds).2|) ==>
              RunAll(c, r, rounds).0.exec.files.prev == None
    decreases |rounds|
  {
    var (r1, exit, _) := Step(c, r, rounds[0]);
    if exit == Running {
      LastRoundClears(c, r1, rounds[1..]);
      assert RunAll(c, r1, rounds[1..]).2 != [];
    }
  }

  // ----- No way back -----

  /** An attempt that puts the executable aside for good. */
  predicate MakesBackup(t: Touch) {
    t.Attempted? && (t.result.Ready? || t.result.NoExecutableLeft?)
  }

  ghost predicate SomeBackupMade(ts: seq<Touch>) {
    exists i :: 0 <= i < |ts| && MakesBackup(ts[i])
  }

  lemma {:induction false} NoBackupAppears(p: Presence, ts: seq<Touch>)
    requires !p.prev && !SomeBackupMade(ts)
    ensures !MovedAll(p, ts).prev
    decreases |ts|
  {
    if ts != [] {
      assert !MakesBackup(ts[0]);
      assert forall i :: 0 <= i < |ts[1..]| ==> ts[1..][i] == ts[i + 1];
      NoBackupAppears(Moved(p, ts[0]), ts[1..]);
    }
  }

  lemma MadeConcat(a: seq<Touch>, b: seq<Touch>)
    ensures SomeBackupMade(a + b) <==> SomeBackupMade(a) || SomeBackupMade(b)
  {
    assert forall i :: 0 <= i < |a| ==> (a + b)[i] == a[i];
    assert forall i :: 0 <= i < |b| ==> (a + b)[|a| + i] == b[i];
    if SomeBackupMade(b) {
      var i :| 0 <= i < |b| && MakesBackup(b[i]);
      assert MakesBackup((a + b)[|a| + i]);
    }
  }

  /** A run that starts without a backup rolls back only after an attempt of its own. */
  lemma {:induction false} RollbackNeedsBackup(c: Config, r: State, rounds: seq<Round>)
    requires r.exec.files.prev == None && RunAll(c, r, rounds).1 == UpgradedByRollback
    ensures SomeBackupMade(RunTouches(c, r, rounds))
    decreases |rounds|
  {
    var (r1, exit, _) := Step(c, r, rounds[0]);
    if exit == Running {
      RoundPresence(c, r, rounds[0]);
      if !SomeBackupMade(RoundTouches(c, r, rounds[0])) {
        NoBackupAppears(PresenceOf(r.exec.files), RoundTouches(c, r, rounds[0]));
        RollbackNeedsBackup(c, r1, rounds[1..]);
      }
      MadeConcat(RoundTouches(c, r, rounds[0]), RunTouches(c, r1, rounds[1..]));
    }
  }

  /** The new version has nothing to go back to: started from the files of an upgrade exit that
      cleared the backup, it rolls back only by undoing an attempt of its own. */
  lemma NewVersionCannotRollBack(before: Life, after: Life)
    requires Outcome(before).1 == UpgradedByAck && before.config.hasExePath
    requires LastClearOk(before.rounds, |Outcome(before).2|) && after.files == FilesLeft(before)
    ensures Outcome(after).1 == UpgradedByRollback ==> SomeBackupMade(Touches(after))
  {
    LastRoundClears(before.config, Initial(before.files, before.now), before.rounds);
    if Outcome(after).1 == UpgradedByRollback {
      RollbackNeedsBackup(after.config, Initial(after.files, after.now), after.rounds);
    }
  }

  // ----- Chains of lives -----

  /** Lives that follow one another however each ended: by an upgrade exit of either kind, by a
      cancelled context, or killed after any poll. */
  predicate Follows(before: Life, after: Life) {
    after.files == FilesLeft(before)
  }

  predicate Chain(lives: seq<Life>) {
    && (forall i :: 0 <= i < |lives| ==> Runs(lives[i]))
    && (forall i :: 0 < i < |lives| ==> Follows(lives[i - 1], lives[i]))
  }

  /** Goes back to the backup it started with, which is an older release. */
  predicate FallsBack(l: Life) {
    && Outcome(l).1 == UpgradedByRollback && KeptThroughout(BeforeRollback(Touches(l)))
    && l.files.prev.Some? && !NotOlder(l.files.prev.value.version, VersionOf(l))
  }

  /** `a` is not older than `b`, and newer if it has to be. */
  predicate Risen(a: string, b: string, strictly: bool) {
    NotOlder(a, b) && (strictly ==> Newer(a, b))
  }

  lemma RisenComposes(a: string, b: string, c: string, p: bool, q: bool)
    ensures Risen(a, a, false) && (Risen(a, b, p) && Risen(b, c, q) ==> Risen(a, c, p || q))
  {
    NewerIsStrictOrder(a, b, c);
  }

  /** One link: what the next life's version has to do with this one's. */
  lemma LinkIff(before: Life, after: Life)
    requires Runs(before) && Runs(after) && Follows(before, after)
    ensures Risen(VersionOf(after), VersionOf(before), Outcome(before).1 == UpgradedByAck) <==> !FallsBack(before)
    ensures NotOlder(VersionOf(after), VersionOf(before)) <==> !FallsBack(before)
  {
    LifeEnds(before);
  }

  function Versions(lives: seq<Life>): (versions: seq<string>)
    ensures |versions| == |lives| && forall k :: 0 <= k < |lives| ==> versions[k] == VersionOf(lives[k])
  {
    if lives == [] then [] else [VersionOf(lives[0])] + Versions(lives[1..])
  }

  /** Which lives ended by a confirmed upgrade. */
  function Confirmations(lives: seq<Life>): (acks: seq<bool>)
    ensures |acks| == |lives| && forall k :: 0 <= k < |lives| ==> acks[k] == (Outcome(lives[k]).1 == UpgradedByAck)
  {
    if lives == [] then [] else [Outcome(lives[0]).1 == UpgradedByAck] + Confirmations(lives[1..])
  }

  lemma {:induction false} Composed<T(!new)>(rel: (T, T, bool) -> bool, xs: seq<T>, marks: seq<bool>, i: nat, j: nat)
    requires i <= j < |xs| <= |marks|
    requires forall a :: rel(a, a, false)
    requires forall a, b, c, p, q :: rel(a, b, p) && rel(b, c, q) ==> rel(a, c, p || q)
    requires forall k :: i <= k < j ==> rel(xs[k + 1], xs[k], marks[k])
    ensures rel(xs[j], xs[i], true in marks[i..j])
    decreases j
  {
    if i < j {
      Composed(rel, xs, marks, i, j - 1);
      assert rel(xs[j - 1 + 1], xs[j - 1], marks[j - 1]);
      assert marks[i..j] == marks[i..j - 1] + [marks[j - 1]];
      assert rel(xs[j], xs[i], marks[j - 1] || true in marks[i..j - 1]);
      assert (marks[j - 1] || true in marks[i..j - 1]) == (true in marks[i..j]);
    }
  }

  predicate NoneFallsBack(lives: seq<Life>, i: nat, j: nat)
    requires j <= |lives|
  {
    forall k :: i <= k < j ==> !FallsBack(lives[k])
  }

  /** Over a stretch of a chain in which no life falls back, the version never falls, and it has
      risen if any exit in between was a confirmed upgrade. */
  lemma {:induction false} VersionsRise(lives: seq<Life>, i: nat, j: nat)
    requires Chain(lives) && i <= j < |lives| && NoneFallsBack(lives, i, j)
    ensures Risen(Versions(lives)[j], Versions(lives)[i], true in Confirmations(lives)[i..j])
  {
    var rel := (a, b, p) => Risen(a, b, p);
    forall k | i <= k < j ensures rel(Versions(lives)[k + 1], Versions(lives)[k], Confirmations(lives)[k]) {
      assert Follows(lives[k + 1 - 1], lives[k + 1]) && !FallsBack(lives[k]);
      LinkIff(lives[k], lives[k + 1]);
    }
    forall a ensures rel(a, a, false) {
      RisenComposes(a, a, a, false, false);
    }
    forall a, b, c, p, q | rel(a, b, p) && rel(b, c, q) ensures rel(a, c, p || q) {
      RisenComposes(a, b, c, p, q);
    }
    Composed(rel, Versions(lives), Confirmations(lives), i, j);
  }

  /** Along any chain of confirmed upgrades the version rises at every exit, whatever failed. */
  lemma {:induction false} ConfirmedUpgradesRise(lives: seq<Life>, i: nat, j: nat)
    requires Chain(lives) && i < j < |lives|
    requires forall k :: i <= k < j ==> Outcome(lives[k]).1 == UpgradedByAck
    ensures Newer(Versions(lives)[j], Versions(lives)[i])
  {
    VersionsRise(lives, i, j);
    FirstConfirms(lives, i, j);
    Strictly(Versions(lives)[j], Versions(lives)[i]);
  }

  lemma {:induction false} FirstConfirms(lives: seq<Life>, i: nat, j: nat)
    requires i < j < |lives| && Outcome(lives[i]).1 == UpgradedByAck
    ensures true in Confirmations(lives)[i..j]
  {
    TrueInside(Confirmations(lives), i, j);
  }

  lemma TrueInside(marks: seq<bool>, i: nat, j: nat)
    requires i < j <= |marks| && marks[i]
    ensures true in marks[i..j]
  {
    assert marks[i..j][0];
  }

  lemma Strictly(a: string, b: string)
    ensures Risen(a, b, true) ==> Newer(a, b)
  {
  }

  ghost predicate NeverFalls(versions: seq<string>) {
    forall i, j :: 0 <= i <= j < |versions| ==> NotOlder(versions[j], versions[i])
  }

  /** Exactly when the version never falls along a chain of lives, however they end: no life but
      the last goes back to an older backup that it started with. */
  lemma {:induction false} VersionsNeverFallIff(lives: seq<Life>)
    requires Chain(lives)
    ensures NeverFalls(Versions(lives)) <==> |lives| == 0 || NoneFallsBack(lives, 0, |lives| - 1)
  {
    if |lives| > 0 && NoneFallsBack(lives, 0, |lives| - 1) {
      forall i, j | 0 <= i <= j < |lives| ensures NotOlder(Versions(lives)[j], Versions(lives)[i]) {
        VersionsRise(lives, i, j);
      }
    }
    if NeverFalls(Versions(lives)) {
      forall k | 0 <= k < |lives| - 1 ensures !FallsBack(lives[k]) {
        assert NotOlder(Versions(lives)[k + 1], Versions(lives)[k]);
        assert Follows(lives[k + 1 - 1], lives[k + 1]);
        LinkIff(lives[k], lives[k + 1]);
      }
    }
  }
}
