/** The executable and its backup over whole runs of the long-poll loop: internal/enroll/runner.go
    with upgrade.go, for every failure that the source can meet. */
module UpgradeRuns {
  import opened Machine
  import opened Upgrade
  import opened CommandExecutor
  import opened PollLoop

  // ----- What a run does to the files -----

  /** An upgrade attempt, with its result and whether removing the old backup works; an answered
      poll that clears the backup; a rollback. */
  datatype Touch = Attempted(result: Prepared, removePrevOk: bool) | BackupCleared | RolledBack

  function CallTouches(s: Setup, e: Exec, call: Call): seq<Touch> {
    var c := call.command;
    if c.id in e.cache.recent || !Prepares(s, c, call.serverTime) then []
    else [Attempted(PrepareResult(s, c, call.answers, e.files), call.answers.faults.removePrevOk)]
  }

  function CallsTouches(s: Setup, e: Exec, calls: seq<Call>): seq<Touch>
    decreases |calls|
  {
    if calls == [] then []
    else CallTouches(s, e, calls[0]) + CallsTouches(s, ExecuteCall(s, e, calls[0]).0, calls[1..])
  }

  function AnswerTouches(c: Config, r: State, a: Reply): seq<Touch>
    requires a.Answer?
  {
    var r1 := Confirmed(c, r, a);
    (if c.hasExePath && a.clearOk then [BackupCleared] else [])
    + if r1.exec.pendingExit && r1.pending == [] then []
      else CallsTouches(c.setup, r1.exec, CallsOf(a.commands, a.serverTime))
  }

  function RoundTouches(c: Config, r: State, x: Round): seq<Touch> {
    if x.reply.Answer? then AnswerTouches(c, r, x.reply)
    else if Step(c, r, x).1 == UpgradedByRollback then [RolledBack]
    else []
  }

  function RunTouches(c: Config, r: State, rounds: seq<Round>): seq<Touch>
    decreases |rounds|
  {
    if rounds == [] then []
    else if Step(c, r, rounds[0]).1 != Running then RoundTouches(c, r, rounds[0])
    else RoundTouches(c, r, rounds[0]) + RunTouches(c, Step(c, r, rounds[0]).0, rounds[1..])
  }

  // ----- Which files there are -----

  datatype Presence = Presence(exe: bool, prev: bool)

  function PresenceOf(f: Files): Presence {
    Presence(f.exe.Some?, f.prev.Some?)
  }

  /** What the reported outcomes alone tell. */
  function Moved(p: Presence, t: Touch): Presence {
    match t
    case BackupCleared => p.(prev := false)
    case RolledBack => Presence(true, false)
    case Attempted(Ready, ok) => Presence(true, p.exe || (p.prev && !ok))
    case Attempted(InstallFailed, _) => Presence(true, false)
    case Attempted(NoExecutableLeft, ok) => Presence(false, p.exe || (p.prev && !ok))
    case Attempted(BackupFailed, ok) => p.(prev := p.prev && !ok)
    case Attempted(_, _) => p
  }

  function MovedAll(p: Presence, ts: seq<Touch>): Presence
    decreases |ts|
  {
    if ts == [] then p else MovedAll(Moved(p, ts[0]), ts[1..])
  }

  lemma {:induction false} MovedConcat(p: Presence, a: seq<Touch>, b: seq<Touch>)
    ensures MovedAll(p, a + b) == MovedAll(MovedAll(p, a), b)
    decreases |a|
  {
    if a == [] {
      assert a + b == b;
    } else {
      assert (a + b)[1..] == a[1..] + b;
      MovedConcat(Moved(p, a[0]), a[1..], b);
    }
  }

  lemma CallPresence(s: Setup, e: Exec, call: Call)
    ensures PresenceOf(ExecuteCall(s, e, call).0.files) == MovedAll(PresenceOf(e.files), CallTouches(s, e, call))
  {
    var c := call.command;
    if c.id !in e.cache.recent && Prepares(s, c, call.serverTime) {
      PrepareLeaves(e.files, c.payload.sha, s.sha, call.answers.faults);
    }
  }

  lemma {:induction false} CallsPresence(s: Setup, e: Exec, calls: seq<Call>)
    ensures PresenceOf(ExecuteAll(s, e, calls).0.files) == MovedAll(PresenceOf(e.files), CallsTouches(s, e, calls))
    decreases |calls|
  {
    if calls != [] {
      var e1 := ExecuteCall(s, e, calls[0]).0;
      CallPresence(s, e, calls[0]);
      CallsPresence(s, e1, calls[1..]);
      MovedConcat(PresenceOf(e.files), CallTouches(s, e, calls[0]), CallsTouches(s, e1, calls[1..]));
    }
  }

  lemma RoundPresence(c: Config, r: State, x: Round)
    ensures PresenceOf(Step(c, r, x).0.exec.files) == MovedAll(PresenceOf(r.exec.files), RoundTouches(c, r, x))
  {
    if x.reply.Answer? {
      var a := x.reply;
      var e1 := Confirmed(c, r, a).exec;
      var cleared := if c.hasExePath && a.clearOk then [BackupCleared] else [];
      var calls := CallsOf(a.commands, a.serverTime);
      assert PresenceOf(e1.files) == MovedAll(PresenceOf(r.exec.files), cleared);
      CallsPresence(c.setup, e1, calls);
      MovedConcat(PresenceOf(r.exec.files), cleared, CallsTouches(c.setup, e1, calls));
      assert cleared + [] == cleared;
    }
  }

  /** Which of the two files there are at the end of any run, under any failures, follows from
      the reported outcomes alone. */
  lemma {:induction false} PresenceIs(c: Config, r: State, rounds: seq<Round>)
    ensures PresenceOf(RunAll(c, r, rounds).0.exec.files)
            == MovedAll(PresenceOf(r.exec.files), RunTouches(c, r, rounds))
    decreases |rounds|
  {
    if rounds != [] {
      var (r1, exit, _) := Step(c, r, rounds[0]);
      RoundPresence(c, r, rounds[0]);
      if exit == Running {
        PresenceIs(c, r1, rounds[1..]);
        MovedConcat(PresenceOf(r.exec.files), RoundTouches(c, r, rounds[0]), RunTouches(c, r1, rounds[1..]));
      }
    }
  }

  // ----- When the executable, or every copy of it, is missing -----

  /** The double failure that the source reports as a node without an executable. */
  predicate Loses(t: Touch) {
    t.Attempted? && t.result.NoExecutableLeft?
  }

  predicate Restores(t: Touch) {
    t.RolledBack? || (t.Attempted? && (t.result.Ready? || t.result.InstallFailed?))
  }

  /** Gets as far as removing the backup, and removes it. */
  predicate Removes(t: Touch) {
    t.BackupCleared? || (t.Attempted? && t.removePrevOk && (t.result.NoExecutableLeft? || t.result.BackupFailed?))
  }

  /** A double failure at `i` that nothing made good. */
  predicate LostAt(ts: seq<Touch>, i: nat) {
    i < |ts| && Loses(ts[i]) && forall k :: i < k < |ts| ==> !Restores(ts[k])
  }

  /** And the backup, by then the only copy, removed at `j`. */
  predicate GoneAt(ts: seq<Touch>, i: nat, j: nat) {
    LostAt(ts, i) && i < j < |ts| && Removes(ts[j])
  }

  ghost predicate ExeLost(ts: seq<Touch>) {
    exists i: nat :: LostAt(ts, i)
  }

  ghost predicate AllGone(ts: seq<Touch>) {
    exists i: nat, j: nat :: GoneAt(ts, i, j)
  }

  lemma LostSnoc(ts: seq<Touch>, t: Touch)
    ensures ExeLost(ts + [t]) <==> Loses(t) || (ExeLost(ts) && !Restores(t))
  {
    var us := ts + [t];
    if Loses(t) {
      assert LostAt(us, |ts|);
    }
    if ExeLost(ts) && !Restores(t) {
      var i: nat :| LostAt(ts, i);
      assert LostAt(us, i);
    }
    if ExeLost(us) && !Loses(t) {
      var i: nat :| LostAt(us, i);
      assert forall k :: i < k < |ts| ==> us[k] == ts[k];
      assert LostAt(ts, i) && us[|ts|] == t;
    }
  }

  lemma GoneSnoc(ts: seq<Touch>, t: Touch)
    ensures AllGone(ts + [t]) <==> !Restores(t) && (AllGone(ts) || (ExeLost(ts) && Removes(t)))
  {
    var us := ts + [t];
    if AllGone(us) {
      var i: nat, j: nat :| GoneAt(us, i, j);
      assert us[|ts|] == t && !Restores(t);
      assert forall k :: i < k < |ts| ==> us[k] == ts[k];
      assert LostAt(ts, i);
      assert j < |ts| ==> GoneAt(ts, i, j);
    }
    if !Restores(t) && AllGone(ts) {
      var i: nat, j: nat :| GoneAt(ts, i, j);
      assert GoneAt(us, i, j);
    }
    if !Restores(t) && ExeLost(ts) && Removes(t) {
      var i: nat :| LostAt(ts, i);
      assert GoneAt(us, i, |ts|);
    }
  }

  lemma {:induction false} MissingMeans(p: Presence, ts: seq<Touch>)
    requires p.exe
    ensures !MovedAll(p, ts).exe <==> ExeLost(ts)
    ensures !MovedAll(p, ts).exe && !MovedAll(p, ts).prev <==> AllGone(ts)
    decreases |ts|
  {
    if ts != [] {
      var front, t := ts[..|ts| - 1], ts[|ts| - 1];
      assert ts == front + [t];
      MissingMeans(p, front);
      MovedConcat(p, front, [t]);
      assert [t][1..] == [];
      LostSnoc(front, t);
      GoneSnoc(front, t);
    }
  }

  /** Over any run that starts with an executable, under any failures: the executable is missing
      at the end exactly when an attempt ended in the double failure and nothing restored one
      since; and no copy is left at all exactly when the backup was removed after that, by an
      answered poll or by another attempt. */
  lemma {:induction false} MissingIff(c: Config, r: State, rounds: seq<Round>)
    requires r.exec.files.exe.Some?
    ensures var end, ts := RunAll(c, r, rounds).0.exec.files, RunTouches(c, r, rounds);
            && (end.exe == None <==> ExeLost(ts))
            && (end.exe == None && end.prev == None <==> AllGone(ts))
  {
    PresenceIs(c, r, rounds);
    MissingMeans(PresenceOf(r.exec.files), RunTouches(c, r, rounds));
  }

  // ----- Whether an upgrade is pending -----

  ghost predicate Upgraded(ts: seq<Touch>) {
    exists i :: 0 <= i < |ts| && ts[i].Attempted? && ts[i].result.Ready?
  }

  lemma UpgradedConcat(a: seq<Touch>, b: seq<Touch>)
    ensures Upgraded(a + b) <==> Upgraded(a) || Upgraded(b)
  {
    assert forall i :: 0 <= i < |a| ==> (a + b)[i] == a[i];
    assert forall i :: 0 <= i < |b| ==> (a + b)[|a| + i] == b[i];
    if Upgraded(b) {
      var i :| 0 <= i < |b| && b[i].Attempted? && b[i].result.Ready?;
      assert (a + b)[|a| + i].result.Ready?;
    }
  }

  lemma CallPending(s: Setup, e: Exec, call: Call)
    ensures ExecuteCall(s, e, call).0.pendingExit <==> e.pendingExit || Upgraded(CallTouches(s, e, call))
  {
    if CallTouches(s, e, call) != [] {
      assert CallTouches(s, e, call)[0].Attempted?;
    }
  }

  lemma {:induction false} CallsPending(s: Setup, e: Exec, calls: seq<Call>)
    ensures ExecuteAll(s, e, calls).0.pendingExit <==> e.pendingExit || Upgraded(CallsTouches(s, e, calls))
    decreases |calls|
  {
    if calls != [] {
      var e1 := ExecuteCall(s, e, calls[0]).0;
      CallPending(s, e, calls[0]);
      CallsPending(s, e1, calls[1..]);
      UpgradedConcat(CallTouches(s, e, calls[0]), CallsTouches(s, e1, calls[1..]));
    }
  }

  lemma RoundPending(c: Config, r: State, x: Round)
    ensures Step(c, r, x).0.exec.pendingExit <==> r.exec.pendingExit || Upgraded(RoundTouches(c, r, x))
  {
    if x.reply.Answer? {
      var a := x.reply;
      var e1 := Confirmed(c, r, a).exec;
      var cleared := if c.hasExePath && a.clearOk then [BackupCleared] else [];
      var calls := CallsOf(a.commands, a.serverTime);
      CallsPending(c.setup, e1, calls);
      UpgradedConcat(cleared, CallsTouches(c.setup, e1, calls));
      assert cleared + [] == cleared;
    }
  }

  /** An upgrade is pending exactly when an attempt of this run replaced the executable. */
  lemma {:induction false} PendingIff(c: Config, r: State, rounds: seq<Round>)
    ensures RunAll(c, r, rounds).0.exec.pendingExit <==> r.exec.pendingExit || Upgraded(RunTouches(c, r, rounds))
    decreases |rounds|
  {
    if rounds != [] {
      var (r1, exit, _) := Step(c, r, rounds[0]);
      RoundPending(c, r, rounds[0]);
      if exit == Running {
        PendingIff(c, r1, rounds[1..]);
        UpgradedConcat(RoundTouches(c, r, rounds[0]), RunTouches(c, r1, rounds[1..]));
      }
    }
  }

  // ----- Every step, not only the polls -----

  function CallSteps(s: Setup, e: Exec, call: Call): seq<Files> {
    var c := call.command;
    if c.id in e.cache.recent || !Prepares(s, c, call.serverTime) then []
    else PrepareTrace(e.files, c.payload.sha, s.sha, call.answers.faults).0
  }

  function CallsSteps(s: Setup, e: Exec, calls: seq<Call>): seq<Files>
    decreases |calls|
  {
    if calls == [] then []
    else CallSteps(s, e, calls[0]) + CallsSteps(s, ExecuteCall(s, e, calls[0]).0, calls[1..])
  }

  /** The states of the files within a poll: after the clearing, and after every call of every
      attempt; and at its end. */
  function RoundSteps(c: Config, r: State, x: Round): seq<Files> {
    InnerSteps(c, r, x) + [Step(c, r, x).0.exec.files]
  }

  function InnerSteps(c: Config, r: State, x: Round): seq<Files> {
    if !x.reply.Answer? then []
    else
      var e1 := Confirmed(c, r, x.reply).exec;
      [e1.files]
      + if Step(c, r, x).1 == UpgradedByAck then []
        else CallsSteps(c.setup, e1, CallsOf(x.reply.commands, x.reply.serverTime))
  }

  function RunSteps(c: Config, r: State, rounds: seq<Round>): seq<Files>
    decreases |rounds|
  {
    if rounds == [] then []
    else if Step(c, r, rounds[0]).1 != Running then RoundSteps(c, r, rounds[0])
    else RoundSteps(c, r, rounds[0]) + RunSteps(c, Step(c, r, rounds[0]).0, rounds[1..])
  }

  predicate HasCopy(f: Files) {
    f.exe.Some? || f.prev.Some?
  }

  predicate CopiesThroughout(steps: seq<Files>) {
    forall i :: 0 <= i < |steps| ==> HasCopy(steps[i])
  }

  /** Removes the backup on its way, whatever comes of it. */
  predicate Strips(t: Touch) {
    t.BackupCleared?
    || (t.Attempted? && t.removePrevOk
        && (t.result.Ready? || t.result.InstallFailed? || t.result.NoExecutableLeft? || t.result.BackupFailed?))
  }

  /** The backup is not removed while the executable is missing. */
  predicate KeepsCopy(p: Presence, ts: seq<Touch>)
    decreases |ts|
  {
    ts == [] || ((p.exe || !Strips(ts[0])) && KeepsCopy(Moved(p, ts[0]), ts[1..]))
  }

  lemma {:induction false} KeepsConcat(p: Presence, a: seq<Touch>, b: seq<Touch>)
    ensures KeepsCopy(p, a + b) <==> KeepsCopy(p, a) && KeepsCopy(MovedAll(p, a), b)
    decreases |a|
  {
    if a == [] {
      assert a + b == b;
    } else {
      assert (a + b)[1..] == a[1..] + b;
      KeepsConcat(Moved(p, a[0]), a[1..], b);
    }
  }

  lemma {:induction false} CopyStays(p: Presence, ts: seq<Touch>)
    requires (p.exe || p.prev) && KeepsCopy(p, ts)
    ensures MovedAll(p, ts).exe || MovedAll(p, ts).prev
    decreases |ts|
  {
    if ts != [] {
      CopyStays(Moved(p, ts[0]), ts[1..]);
    }
  }

  lemma CopiesConcat(a: seq<Files>, b: seq<Files>)
    ensures CopiesThroughout(a + b) <==> CopiesThroughout(a) && CopiesThroughout(b)
  {
    assert forall i :: 0 <= i < |a| ==> (a + b)[i] == a[i];
    assert forall i :: 0 <= i < |b| ==> (a + b)[|a| + i] == b[i];
  }

  /** One attempt passes through a state with no copy exactly when it finds no executable and
      gets as far as removing the backup, even if it succeeds in the end. */
  lemma AttemptCopies(f: Files, want: string, sha: Checksum, x: Faults)
    requires HasCopy(f)
    ensures var (trace, result) := PrepareTrace(f, want, sha, x);
            CopiesThroughout(trace) <==> f.exe.Some? || !Strips(Attempted(result, x.removePrevOk))
  {
    var (trace, result) := PrepareTrace(f, want, sha, x);
    if f.exe.Some? {
      forall k | 0 <= k < |trace| ensures HasCopy(trace[k]) {
        OldNeverLost(f, want, sha, x, k);
      }
    } else if Strips(Attempted(result, x.removePrevOk)) {
      assert trace[1] == RemovedPrev(Downloaded(f, x.download), true);
      assert !HasCopy(trace[1]);
    } else {
      KeptAttempt(f, want, sha, x);
    }
  }

  lemma KeptAttempt(f: Files, want: string, sha: Checksum, x: Faults)
    requires f.prev.Some? && f.exe.None? && !Strips(Attempted(PrepareTrace(f, want, sha, x).1, x.removePrevOk))
    ensures CopiesThroughout(PrepareTrace(f, want, sha, x).0)
  {
  }

  lemma CallCopies(s: Setup, e: Exec, call: Call)
    requires HasCopy(e.files)
    ensures CopiesThroughout(CallSteps(s, e, call)) <==> KeepsCopy(PresenceOf(e.files), CallTouches(s, e, call))
  {
    var c := call.command;
    if c.id !in e.cache.recent && Prepares(s, c, call.serverTime) {
      AttemptCopies(e.files, c.payload.sha, s.sha, call.answers.faults);
      assert CallTouches(s, e, call)[1..] == [];
    }
  }

  lemma {:induction false} CallsCopies(s: Setup, e: Exec, calls: seq<Call>)
    requires HasCopy(e.files)
    ensures CopiesThroughout(CallsSteps(s, e, calls)) <==> KeepsCopy(PresenceOf(e.files), CallsTouches(s, e, calls))
    decreases |calls|
  {
    if calls != [] {
      var e1 := ExecuteCall(s, e, calls[0]).0;
      CallCopies(s, e, calls[0]);
      CallPresence(s, e, calls[0]);
      KeepsConcat(PresenceOf(e.files), CallTouches(s, e, calls[0]), CallsTouches(s, e1, calls[1..]));
      CopiesConcat(CallSteps(s, e, calls[0]), CallsSteps(s, e1, calls[1..]));
      if KeepsCopy(PresenceOf(e.files), CallTouches(s, e, calls[0])) {
        CopyStays(PresenceOf(e.files), CallTouches(s, e, calls[0]));
        CallsCopies(s, e1, calls[1..]);
      }
    }
  }

  /** The clearing and the commands of an answer that does not end the process. */
  lemma AnswerCopies(c: Config, r: State, x: Round)
    requires x.reply.Answer? && Step(c, r, x).1 == Running && HasCopy(r.exec.files)
    ensures var e1 := Confirmed(c, r, x.reply).exec;
            var steps := CallsSteps(c.setup, e1, CallsOf(x.reply.commands, x.reply.serverTime));
            CopiesThroughout([e1.files] + steps) <==> KeepsCopy(PresenceOf(r.exec.files), RoundTouches(c, r, x))
  {
    var a := x.reply;
    var e1 := Confirmed(c, r, a).exec;
    var calls := CallsOf(a.commands, a.serverTime);
    var cleared := if c.hasExePath && a.clearOk then [BackupCleared] else [];
    KeepsConcat(PresenceOf(r.exec.files), cleared, CallsTouches(c.setup, e1, calls));
    CopiesConcat([e1.files], CallsSteps(c.setup, e1, calls));
    assert PresenceOf(e1.files) == MovedAll(PresenceOf(r.exec.files), cleared);
    ClearCopies(c, r, a);
    if HasCopy(e1.files) {
      CallsCopies(c.setup, e1, calls);
    }
  }

  lemma ClearCopies(c: Config, r: State, a: Reply)
    requires a.Answer? && HasCopy(r.exec.files)
    ensures var cleared := if c.hasExePath && a.clearOk then [BackupCleared] else [];
            && (HasCopy(Confirmed(c, r, a).exec.files) <==> KeepsCopy(PresenceOf(r.exec.files), cleared))
            && (CopiesThroughout([Confirmed(c, r, a).exec.files]) <==> HasCopy(Confirmed(c, r, a).exec.files))
  {
    assert [BackupCleared][1..] == [];
    assert [Confirmed(c, r, a).exec.files][0] == Confirmed(c, r, a).exec.files;
  }

  lemma RoundCopies(c: Config, r: State, x: Round)
    requires HasCopy(r.exec.files)
    ensures CopiesThroughout(RoundSteps(c, r, x)) <==> KeepsCopy(PresenceOf(r.exec.files), RoundTouches(c, r, x))
  {
    var end := Step(c, r, x).0.exec.files;
    var steps := InnerSteps(c, r, x);
    CopiesConcat(steps, [end]);
    RoundPresence(c, r, x);
    if KeepsCopy(PresenceOf(r.exec.files), RoundTouches(c, r, x)) {
      CopyStays(PresenceOf(r.exec.files), RoundTouches(c, r, x));
    }
    if x.reply.Answer? && Step(c, r, x).1 == Running {
      AnswerCopies(c, r, x);
    } else if x.reply.Answer? {
      ClearCopies(c, r, x.reply);
      assert RoundTouches(c, r, x) == if c.hasExePath && x.reply.clearOk then [BackupCleared] else [];
    } else {
      assert [RolledBack][1..] == [];
    }
    assert [end][0] == end;
  }

  lemma {:induction false} RunCopies(c: Config, r: State, rounds: seq<Round>)
    requires HasCopy(r.exec.files)
    ensures CopiesThroughout(RunSteps(c, r, rounds)) <==> KeepsCopy(PresenceOf(r.exec.files), RunTouches(c, r, rounds))
    decreases |rounds|
  {
    if rounds != [] {
      var (r1, exit, _) := Step(c, r, rounds[0]);
      RoundCopies(c, r, rounds[0]);
      if exit == Running {
        RoundPresence(c, r, rounds[0]);
        KeepsConcat(PresenceOf(r.exec.files), RoundTouches(c, r, rounds[0]), RunTouches(c, r1, rounds[1..]));
        CopiesConcat(RoundSteps(c, r, rounds[0]), RunSteps(c, r1, rounds[1..]));
        if KeepsCopy(PresenceOf(r.exec.files), RoundTouches(c, r, rounds[0])) {
          CopyStays(PresenceOf(r.exec.files), RoundTouches(c, r, rounds[0]));
          RunCopies(c, r1, rounds[1..]);
        }
      }
    }
  }

  /** Something removes the backup while a double failure is not made good. */
  ghost predicate StripsLast(ts: seq<Touch>) {
    exists j :: 0 <= j < |ts| && Strips(ts[j]) && ExeLost(ts[..j])
  }

  lemma {:induction false} KeepsMeans(p: Presence, ts: seq<Touch>)
    requires p.exe
    ensures KeepsCopy(p, ts) <==> !StripsLast(ts)
    decreases |ts|
  {
    if ts != [] {
      var front, t := ts[..|ts| - 1], ts[|ts| - 1];
      assert ts == front + [t] && [t][1..] == [];
      KeepsMeans(p, front);
      KeepsConcat(p, front, [t]);
      MissingMeans(p, front);
      assert forall j :: 0 <= j < |front| ==> front[j] == ts[j] && front[..j] == ts[..j];
      if StripsLast(front) {
        var j :| 0 <= j < |front| && Strips(front[j]) && ExeLost(front[..j]);
        assert Strips(ts[j]) && ExeLost(ts[..j]);
      }
    }
  }

  /** Exactly when no crash point of a run is without a copy of the agent. `RunSteps` holds the
      files after every call of every attempt, every clearing and every poll; every one of them has
      an executable or a backup, under any failures, unless something removes the backup while the
      executable is missing. Not only an answered poll does that: every new attempt does, also one
      that then succeeds. */
  lemma {:induction false} CopyAtEveryStepIff(c: Config, r: State, rounds: seq<Round>)
    requires r.exec.files.exe.Some?
    ensures CopiesThroughout(RunSteps(c, r, rounds)) <==> !StripsLast(RunTouches(c, r, rounds))
  {
    RunCopies(c, r, rounds);
    KeepsMeans(PresenceOf(r.exec.files), RunTouches(c, r, rounds));
  }
}
