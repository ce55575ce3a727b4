/** The sing-box supervisor: Manager of internal/singbox/process.go, with its monitor and settle
    goroutines, the processes it started, and everything that may interleave. */
module Supervisor {
  import opened Machine

  const MAX_FAILURES := 10
  const RESIDENTIAL_FAILURES := 2
  const MAX_BACKOFF := 30 // seconds

  /** The Manager's fields. `cmd` holds the process of m.cmd; NoProcess is a Cmd whose Start failed. */
  datatype Cmd = Nil | NoProcess | Running(pid: nat)

  datatype Core = Core(running: bool, generation: nat, failures: nat, stopped: bool, cmd: Cmd)

  /** What startLocked finds: the two files, and whether exec succeeds. */
  datatype StartEnv = StartEnv(configExists: bool, binaryExists: bool, execOk: bool)

  datatype StartResult = Started | AlreadyRunning | NoConfig | NoBinary | ExecFailed

  function StartOutcome(c: Core, env: StartEnv): StartResult {
    if c.running then AlreadyRunning
    else if !env.configExists then NoConfig
    else if !env.binaryExists then NoBinary
    else if !env.execOk then ExecFailed
    else Started
  }

  function StartCore(c: Core, env: StartEnv, pid: nat): Core {
    match StartOutcome(c, env)
    case Started => c.(running := true, generation := c.generation + 1, cmd := Running(pid))
    case ExecFailed => c.(cmd := NoProcess)
    case _ => c
  }

  function StopCore(c: Core): Core {
    c.(running := false, generation := c.generation + 1, cmd := if c.cmd.Running? then Nil else c.cmd)
  }

  /** What a monitor decides once its process has exited. */
  datatype Decision = Stale | GiveUp | RetryIn(seconds: nat)

  /** One second shifted by the failures so far, capped. */
  function Backoff(failures: nat): nat
    requires 1 <= failures < MAX_FAILURES
  {
    if Shift(failures - 1) > MAX_BACKOFF then MAX_BACKOFF else Shift(failures - 1)
  }

  /** `disabled` says that residential.json was there and has been renamed; it is asked for
      only from the second failure on. */
  function WakeDecision(c: Core, gen: nat, disabled: bool): Decision {
    if gen != c.generation then Stale
    else
      var failures := if c.failures + 1 >= RESIDENTIAL_FAILURES && disabled then 1 else c.failures + 1;
      if failures >= MAX_FAILURES then GiveUp else RetryIn(Backoff(failures))
  }

  function WakeCore(c: Core, gen: nat, disabled: bool): Core {
    if gen != c.generation then c
    else
      var failures := if c.failures + 1 >= RESIDENTIAL_FAILURES && disabled then 0 else c.failures + 1;
      c.(running := false, failures := failures, stopped := c.stopped || WakeDecision(c, gen, disabled).GiveUp?)
  }

  function SettleCore(c: Core, gen: nat): Core {
    if gen == c.generation && c.running then c.(failures := 0, stopped := false) else c
  }

  // ----- The code -----

  class Manager {
    var running: bool
    var generation: nat
    var consecutiveFailures: nat
    var stopped: bool
    var cmd: Cmd

    ghost function View(): Core
      reads this
    {
      Core(running, generation, consecutiveFailures, stopped, cmd)
    }

    constructor ()
      ensures View() == Core(false, 0, 0, false, Nil)
    {
      running, generation, consecutiveFailures, stopped, cmd := false, 0, 0, false, Nil;
    }

    /** startLocked. On Started the caller's monitor and settle timer carry the new generation. */
    method StartLocked(env: StartEnv, pid: nat) returns (r: StartResult)
      modifies this
      ensures r == StartOutcome(old(View()), env) && View() == StartCore(old(View()), env, pid)
    {
      if running {
        return AlreadyRunning;
      }
      if !env.configExists {
        return NoConfig;
      }
      if !env.binaryExists {
        return NoBinary;
      }
      cmd := NoProcess;
      if !env.execOk {
        return ExecFailed;
      }
      cmd := Running(pid);
      running := true;
      generation := generation + 1;
      r := Started;
    }

    /** Stop. The result is the process that is sent SIGTERM, if any. */
    method Stop() returns (told: Option<nat>)
      modifies this
      ensures View() == StopCore(old(View()))
      ensures !running && generation == old(generation) + 1
      ensures consecutiveFailures == old(consecutiveFailures) && stopped == old(stopped)
      ensures cmd == if old(cmd).Running? then Nil else old(cmd)
      ensures told == match old(cmd) case Running(pid) => Some(pid) case _ => None
    {
      generation := generation + 1;
      running := false;
      match cmd {
        case Running(pid) =>
          cmd := Nil;
          told := Some(pid);
        case _ =>
          told := None;
      }
    }

    /** The first half of monitor, from Wait to the sleep. `disabled` is disableResidential's result. */
    method MonitorWakes(gen: nat, disabled: bool) returns (d: Decision)
      modifies this
      ensures d == WakeDecision(old(View()), gen, disabled) && View() == WakeCore(old(View()), gen, disabled)
    {
      if gen != generation {
        return Stale;
      }
      running := false;
      consecutiveFailures := consecutiveFailures + 1;
      var failures := consecutiveFailures;
      if failures >= RESIDENTIAL_FAILURES && disabled {
        consecutiveFailures := 0;
        failures := 1;
      }
      if failures >= MAX_FAILURES {
        stopped := true;
        return GiveUp;
      }
      var backoff := Shift(failures - 1);
      if backoff > MAX_BACKOFF {
        backoff := MAX_BACKOFF;
      }
      d := RetryIn(backoff);
    }

    /** The second half, after the sleep. None: the monitor was stale. */
    method BackoffEnds(gen: nat, env: StartEnv, pid: nat) returns (r: Option<StartResult>)
      modifies this
      ensures gen != old(generation) ==> r.None? && View() == old(View())
      ensures gen == old(generation) ==>
                r == Some(StartOutcome(old(View()), env)) && View() == StartCore(old(View()), env, pid)
    {
      if gen != generation {
        return None;
      }
      var s := StartLocked(env, pid);
      r := Some(s);
    }

    method Settle(gen: nat)
      modifies this
      ensures View() == SettleCore(old(View()), gen)
    {
      if gen == generation && running {
        consecutiveFailures := 0;
        stopped := false;
      }
    }
  }

  /** Every wait lies in 1..30 seconds and never shrinks as failures add up. */
  lemma BackoffRange(f: nat)
    requires 1 <= f < MAX_FAILURES
    ensures 1 <= Backoff(f) <= MAX_BACKOFF
    ensures f + 1 < MAX_FAILURES ==> Backoff(f) <= Backoff(f + 1)
  {
    ShiftPositive(f - 1);
  }

  /** It doubles from one second, up to thirty. */
  lemma BackoffDoubles(f: nat)
    requires 1 <= f < 9
    ensures Backoff(1) == 1
    ensures Backoff(f + 1) == if 2 * Backoff(f) > 30 then 30 else 2 * Backoff(f)
  {
    assert Shift(f) == 2 * Shift(f - 1);
  }

  /** Seconds before the restart after the first, second, ... crash in a row. */
  const WAITS := [1, 2, 4, 8, 16, 30, 30, 30, 30]

  /** A running manager whose process has crashed `n` times in a row and was restarted each time,
      with no settle in between and nothing to disable. */
  function CrashedTimes(c: Core, n: nat): Core {
    if n == 0 then c
    else
      var before := CrashedTimes(c, n - 1);
      StartCore(WakeCore(before, before.generation, false), StartEnv(true, true, true), n)
  }

  /** The whole schedule: the waits of the first nine crashes in a row, and the tenth gives up. A
      settle in between starts it over. */
  lemma {:induction false} CrashSchedule(c: Core, n: nat)
    requires c.running && c.failures == 0 && n <= 9
    ensures var crashed := CrashedTimes(c, n);
            && crashed.running && crashed.failures == n && crashed.stopped == c.stopped
            && WakeDecision(crashed, crashed.generation, false) == (if n < 9 then RetryIn(WAITS[n]) else GiveUp)
            && (WakeCore(crashed, crashed.generation, false).stopped <==> c.stopped || n == 9)
            && SettleCore(crashed, crashed.generation) == crashed.(failures := 0, stopped := false)
            && WakeDecision(SettleCore(crashed, crashed.generation), crashed.generation, false) == RetryIn(1)
  {
    if n > 0 {
      CrashSchedule(c, n - 1);
    }
    assert Shift(4) == 16 && Shift(5) == 32 && Shift(8) == 256;
    assert Shift(6) == 64 && Shift(7) == 128;
  }

  /** residential.json is disabled by the second crash in a row at the earliest. Then the wait is one
      second and the count starts over; a first crash counts as any other. */
  lemma DisablingStartsOver(c: Core, n: nat)
    requires c.running && c.failures == n < 9
    ensures WakeDecision(c, c.generation, true) == RetryIn(1)
    ensures WakeCore(c, c.generation, true).failures == if n == 0 then 1 else 0
    ensures !WakeCore(c, c.generation, true).running && WakeCore(c, c.generation, true).stopped == c.stopped
  {
  }

  /** When a start works, and that no other start changes anything that supervision looks at. */
  lemma StartIff(c: Core, env: StartEnv, pid: nat)
    ensures StartOutcome(c, env) == Started <==>
            !c.running && env.configExists && env.binaryExists && env.execOk
    ensures StartOutcome(c, env) == AlreadyRunning <==> c.running
    ensures StartOutcome(c, env) == NoConfig <==> !c.running && !env.configExists
    ensures StartOutcome(c, env) == NoBinary <==> !c.running && env.configExists && !env.binaryExists
    ensures var after := StartCore(c, env, pid);
            if StartOutcome(c, env) == Started then
              after == Core(true, c.generation + 1, c.failures, c.stopped, Running(pid))
            else
              after == c.(cmd := after.cmd) && (after.cmd == c.cmd || StartOutcome(c, env) == ExecFailed)
  {
  }

  // ----- Everything that interleaves -----

  /** A process that startLocked started: `told` once a signal has been sent to it. */
  datatype Process = Process(gen: nat, alive: bool, told: bool)

  /** A monitor goroutine: in cmd.Wait on its process, or asleep between a crash and the restart. */
  datatype Monitor = Waiting(pid: nat) | Asleep(pid: nat)

  /** `processes` by pid, the monitor of each process that still has one, and the generations
      that settle timers were started with. `residential` is the presence of residential.json. */
  datatype World = World(
    core: Core, processes: map<nat, Process>, monitors: map<nat, Monitor>, timers: multiset<nat>, residential: bool)

  datatype Event =
    | CallStart(env: StartEnv, pid: nat, reaped: set<nat>)
    | CallStop
    | Exits(pid: nat)
    | Wakes(pid: nat, renameOk: bool)
    | Restarts(pid: nat, env: StartEnv, newPid: nat, reaped: set<nat>)
    | TimerFires(gen: nat)
    | ResidentialWritten
    | ResidentialRemoved

  predicate Enabled(w: World, e: Event) {
    match e
    case CallStart(_, pid, _) => pid !in w.processes
    case CallStop => true
    case Exits(pid) => pid in w.processes && w.processes[pid].alive
    case Wakes(pid, _) =>
      pid in w.monitors && w.monitors[pid].Waiting? && pid in w.processes && !w.processes[pid].alive
    case Restarts(pid, _, newPid, _) =>
      pid in w.monitors && w.monitors[pid].Asleep? && pid in w.processes && newPid !in w.processes
    case TimerFires(gen) => gen in w.timers
    case ResidentialWritten => true
    case ResidentialRemoved => true
  }

  /** reapStrays signals processes it finds by command line, any of them, before the start. */
  function Tell(processes: map<nat, Process>, pids: set<nat>): map<nat, Process> {
    map p | p in processes :: if p in pids then processes[p].(told := true) else processes[p]
  }

  /** A start that succeeds leaves a process, its monitor and a settle timer. */
  function Born(w: World, pid: nat): World {
    var core := w.core.(running := true, generation := w.core.generation + 1, cmd := Running(pid));
    World(core, w.processes[pid := Process(core.generation, true, false)],
          w.monitors[pid := Waiting(pid)], w.timers + multiset{core.generation}, w.residential)
  }

  /** startLocked in the world. Only a start that gets past its checks looks for strays. */
  function Launch(w: World, env: StartEnv, pid: nat, reaped: set<nat>): World {
    match StartOutcome(w.core, env)
    case Started => Born(w.(processes := Tell(w.processes, reaped)), pid)
    case ExecFailed => w.(core := w.core.(cmd := NoProcess), processes := Tell(w.processes, reaped))
    case _ => w
  }

  function GenOf(w: World, pid: nat): nat
    requires pid in w.processes
  {
    w.processes[pid].gen
  }

  function Apply(w: World, e: Event): World
    requires Enabled(w, e)
  {
    match e
    case CallStart(env, pid, reaped) => Launch(w, env, pid, reaped)
    case CallStop =>
      var told := if w.core.cmd.Running? then {w.core.cmd.pid} else {};
      w.(core := StopCore(w.core), processes := Tell(w.processes, told))
    case Exits(pid) => w.(processes := w.processes[pid := w.processes[pid].(alive := false)])
    case Wakes(pid, renameOk) =>
      var gen := GenOf(w, pid);
      var asked := gen == w.core.generation && w.core.failures + 1 >= RESIDENTIAL_FAILURES;
      var disabled := asked && w.residential && renameOk;
      w.(core := WakeCore(w.core, gen, disabled),
      monitors := if WakeDecision(w.core, gen, disabled).RetryIn? then w.monitors[pid := Asleep(pid)]
                  else w.monitors - {pid},
      residential := w.residential && !disabled)
    case Restarts(pid, env, newPid, reaped) =>
      var rest := w.(monitors := w.monitors - {pid});
      if GenOf(w, pid) != w.core.generation then rest else Launch(rest, env, newPid, reaped)
    case TimerFires(gen) => w.(core := SettleCore(w.core, gen), timers := w.timers - multiset{gen})
    case ResidentialWritten => w.(residential := true)
    case ResidentialRemoved => w.(residential := false)
  }

  predicate Initial(w: World) {
    w.core == Core(false, 0, 0, false, Nil) && w.processes == map[] && w.monitors == map[] && w.timers == multiset{}
  }

  predicate CanRun(w: World, run: seq<Event>)
    decreases |run|
  {
    run == [] || (Enabled(w, run[0]) && CanRun(Apply(w, run[0]), run[1..]))
  }

  function After(w: World, run: seq<Event>): World
    requires CanRun(w, run)
    decreases |run|
  {
    if run == [] then w else After(Apply(w, run[0]), run[1..])
  }

  // ----- One process -----

  /** Serving: alive and never told to stop. */
  predicate Serving(w: World, pid: nat) {
    pid in w.processes && w.processes[pid].alive && !w.processes[pid].told
  }

  /** Has a monitor of the current generation. */
  predicate Watches(w: World, pid: nat) {
    pid in w.monitors && pid in w.processes && w.processes[pid].gen == w.core.generation
  }

  /** Generations are handed out once. */
  predicate GensUnique(w: World) {
    && (forall p :: p in w.processes ==> w.processes[p].gen <= w.core.generation)
    && (forall p, q :: p in w.processes && q in w.processes && w.processes[p].gen == w.processes[q].gen ==> p == q)
  }

  /** A monitor watches a process of its own, and sleeps only when that one is dead. */
  predicate MonitorsFit(w: World) {
    forall p :: p in w.monitors ==>
                  p in w.processes && w.monitors[p].pid == p && (w.monitors[p].Asleep? ==> !w.processes[p].alive)
  }

  /** A process that nobody told to stop is the current one of a running manager. */
  predicate OnlyCurrent(w: World) {
    forall p :: p in w.processes && Serving(w, p) ==> w.processes[p].gen == w.core.generation && w.core.running
  }

  /** A running manager's process is the current one, in m.cmd, with its monitor in Wait. */
  predicate HasCurrent(w: World) {
    w.core.running ==>
      && w.core.cmd.Running?
      && w.core.cmd.pid in w.processes && w.processes[w.core.cmd.pid].gen == w.core.generation
      && w.core.cmd.pid in w.monitors && w.monitors[w.core.cmd.pid].Waiting?
  }

  predicate Inv(w: World) {
    GensUnique(w) && MonitorsFit(w) && OnlyCurrent(w) && HasCurrent(w)
  }

  lemma TellKeepsInv(w: World, pids: set<nat>)
    requires Inv(w)
    ensures Inv(w.(processes := Tell(w.processes, pids)))
  {
  }

  /** A start that succeeds, once the strays have been told. */
  lemma BirthKeepsInv(w: World, pid: nat)
    requires Inv(w) && pid !in w.processes && !w.core.running
    ensures Inv(Born(w, pid))
  {
  }

  lemma LaunchKeepsInv(w: World, env: StartEnv, pid: nat, reaped: set<nat>)
    requires Inv(w) && pid !in w.processes
    ensures Inv(Launch(w, env, pid, reaped))
    ensures Launch(w, env, pid, reaped).core == StartCore(w.core, env, pid)
  {
    TellKeepsInv(w, reaped);
    var told := w.(processes := Tell(w.processes, reaped));
    assert pid !in told.processes;
    match StartOutcome(w.core, env) {
      case Started => BirthKeepsInv(told, pid);
      case _ =>
    }
  }

  lemma StopKeepsInv(w: World)
    requires Inv(w)
    ensures Inv(Apply(w, CallStop))
  {
    var w' := Apply(w, CallStop);
    forall p ensures !Serving(w', p) {
      if Serving(w, p) {
        assert p == w.core.cmd.pid;
      }
    }
  }

  lemma WakeKeepsInv(w: World, pid: nat, renameOk: bool)
    requires Inv(w) && Enabled(w, Wakes(pid, renameOk))
    ensures Inv(Apply(w, Wakes(pid, renameOk)))
  {
    var w' := Apply(w, Wakes(pid, renameOk));
    if GenOf(w, pid) == w.core.generation {
      forall p ensures !Serving(w', p) {
      }
    }
  }

  lemma StepKeepsInv(w: World, e: Event)
    requires Inv(w) && Enabled(w, e)
    ensures Inv(Apply(w, e))
  {
    match e {
      case CallStart(env, pid, reaped) => LaunchKeepsInv(w, env, pid, reaped);
      case CallStop => StopKeepsInv(w);
      case Wakes(pid, renameOk) => WakeKeepsInv(w, pid, renameOk);
      case Restarts(pid, env, newPid, reaped) =>
        RestartKeepsInv(w, pid, env, newPid, reaped);
      case Exits(pid) => ExitKeepsInv(w, pid);
      case TimerFires(gen) => TimerKeepsInv(w, gen);
      case _ =>
    }
  }

  lemma ExitKeepsInv(w: World, pid: nat)
    requires Inv(w) && Enabled(w, Exits(pid))
    ensures Inv(Apply(w, Exits(pid)))
  {
  }

  lemma TimerKeepsInv(w: World, gen: nat)
    requires Inv(w) && Enabled(w, TimerFires(gen))
    ensures Inv(Apply(w, TimerFires(gen)))
  {
  }

  lemma RestartKeepsInv(w: World, pid: nat, env: StartEnv, newPid: nat, reaped: set<nat>)
    requires Inv(w) && Enabled(w, Restarts(pid, env, newPid, reaped))
    ensures Inv(Apply(w, Restarts(pid, env, newPid, reaped)))
  {
    var rest := w.(monitors := w.monitors - {pid});
    assert HasCurrent(rest) by {
      assert w.core.running ==> w.core.cmd.pid != pid;
    }
    if GenOf(w, pid) == w.core.generation {
      LaunchKeepsInv(rest, env, newPid, reaped);
    }
  }

  lemma {:induction false} RunKeepsInv(w: World, run: seq<Event>)
    requires Inv(w) && CanRun(w, run)
    ensures Inv(After(w, run))
    decreases |run|
  {
    if run != [] {
      StepKeepsInv(w, run[0]);
      RunKeepsInv(Apply(w, run[0]), run[1..]);
    }
  }

  /** In every interleaving of Start, Stop, crashes, restarts and timers: at most one process is
      alive that nobody told to stop; it is m.cmd's, of the current generation; and the current
      generation has at most one monitor. Reload is a Stop and a Start with anything between. */
  lemma {:induction false} SingleProcess(w: World, run: seq<Event>, p: nat, q: nat)
    requires Initial(w) && CanRun(w, run)
    ensures var e := After(w, run);
            && (Serving(e, p) ==>
                  e.core.running && e.core.cmd == Running(p) && e.processes[p].gen == e.core.generation
                  && p in e.monitors && e.monitors[p].Waiting?)
            && (Serving(e, p) && Serving(e, q) ==> p == q)
            && (Watches(e, p) && Watches(e, q) ==> p == q)
  {
    RunKeepsInv(w, run);
  }

  const ALL_WELL := StartEnv(true, true, true)

  /** A start that works makes its process serve, under a new generation, with a monitor in Wait and a
      settle timer of its own; the processes there already are at most told to stop. */
  lemma StartServes(w: World, pid: nat, reaped: set<nat>)
    requires !w.core.running && pid !in w.processes
    ensures var e := Apply(w, CallStart(ALL_WELL, pid, reaped));
            var gen := w.core.generation + 1;
            && Serving(e, pid) && e.processes[pid].gen == gen
            && e.core == Core(true, gen, w.core.failures, w.core.stopped, Running(pid))
            && e.monitors == w.monitors[pid := Waiting(pid)]
            && e.timers == w.timers + multiset{gen} && Enabled(e, TimerFires(gen))
            && e.residential == w.residential
            && forall p :: p in w.processes ==>
                             p in e.processes
                             && e.processes[p] == w.processes[p].(told := w.processes[p].told || p in reaped)
  {
  }

  /** The serving process can exit, and its monitor can wake. */
  lemma {:induction false} Down(w: World, pid: nat, renameOk: bool) returns (down: World)
    requires Inv(w) && Serving(w, pid)
    ensures CanRun(w, [Exits(pid), Wakes(pid, renameOk)]) && After(w, [Exits(pid), Wakes(pid, renameOk)]) == down
    ensures Enabled(w, Exits(pid)) && Enabled(Apply(w, Exits(pid)), Wakes(pid, renameOk))
    ensures down == Apply(Apply(w, Exits(pid)), Wakes(pid, renameOk))
  {
    var w1 := Apply(w, Exits(pid));
    down := Apply(w1, Wakes(pid, renameOk));
    assert [Exits(pid), Wakes(pid, renameOk)][1..] == [Wakes(pid, renameOk)];
    assert [Wakes(pid, renameOk)][1..] == [];
    assert CanRun(down, []) && After(down, []) == down;
    assert CanRun(w1, [Wakes(pid, renameOk)]) && After(w1, [Wakes(pid, renameOk)]) == down;
  }

  /** Every crash of the serving process can be recovered from, unless it is the tenth in a row: the
      monitor wakes, takes residential.json away if that is due, and a start that works makes a
      new process serve. After the tenth nothing is left that would restart it. */
  lemma {:induction false} CrashRecovers(w: World, pid: nat, newPid: nat, renameOk: bool) returns (down: World)
    requires Inv(w) && Serving(w, pid) && newPid !in w.processes
    ensures CanRun(w, [Exits(pid), Wakes(pid, renameOk)]) && After(w, [Exits(pid), Wakes(pid, renameOk)]) == down
    ensures var disabled := w.residential && renameOk && w.core.failures >= 1;
            var failures := if disabled then 0 else w.core.failures + 1;
            && !Serving(down, pid) && !down.core.running && down.core.failures == failures
            && down.residential == (w.residential && !disabled)
            && (failures >= 10 ==> down.core.stopped && pid !in down.monitors)
            && (failures < 10 ==>
                  && Enabled(down, Restarts(pid, ALL_WELL, newPid, {}))
                  && var up := Apply(down, Restarts(pid, ALL_WELL, newPid, {}));
                     && Serving(up, newPid) && up.residential == down.residential
                     && up.core == Core(true, w.core.generation + 1, failures, w.core.stopped, Running(newPid)))
  {
    down := Down(w, pid, renameOk);
  }

  /** What comes from outside can come at any time: Stop, and residential.json. */
  lemma {:induction false} OutsideEvents(w: World)
    ensures CanRun(w, [CallStop]) && CanRun(w, [ResidentialWritten]) && CanRun(w, [ResidentialRemoved])
    ensures Apply(w, ResidentialWritten).residential && !Apply(w, ResidentialRemoved).residential
  {
    assert [CallStop][1..] == [] && [ResidentialWritten][1..] == [] && [ResidentialRemoved][1..] == [];
    assert CanRun(Apply(w, CallStop), []);
    assert CanRun(Apply(w, ResidentialWritten), []) && CanRun(Apply(w, ResidentialRemoved), []);
  }

  /** A monitor or timer of an earlier generation changes nothing but itself. */
  lemma StaleIsHarmless(w: World, e: Event)
    requires Enabled(w, e)
    ensures e.Wakes? && GenOf(w, e.pid) != w.core.generation ==> Apply(w, e) == w.(monitors := w.monitors - {e.pid})
    ensures e.Restarts? && GenOf(w, e.pid) != w.core.generation ==> Apply(w, e) == w.(monitors := w.monitors - {e.pid})
    ensures e.TimerFires? && e.gen != w.core.generation ==> Apply(w, e) == w.(timers := w.timers - multiset{e.gen})
  {
  }

  /** Which wake-ups take residential.json away: those of the current generation from the second
      failure on, if the file is there and can be renamed. */
  lemma DisabledIff(w: World, pid: nat, renameOk: bool)
    requires Enabled(w, Wakes(pid, renameOk))
    ensures w.residential && !Apply(w, Wakes(pid, renameOk)).residential <==>
            w.residential && renameOk && GenOf(w, pid) == w.core.generation && w.core.failures >= 1
    ensures !w.residential ==> !Apply(w, Wakes(pid, renameOk)).residential
  {
  }

  /** Stop makes everything that exists stale: until the next Start nothing runs again. */
  lemma {:induction false} StopIsFinal(w: World, run: seq<Event>)
    requires Inv(w) && Enabled(w, CallStop) && CanRun(Apply(w, CallStop), run)
    requires forall i :: 0 <= i < |run| ==> !run[i].CallStart?
    ensures !After(Apply(w, CallStop), run).core.running
    ensures forall p :: !Serving(After(Apply(w, CallStop), run), p)
  {
    StepKeepsInv(w, CallStop);
    StoppedStays(Apply(w, CallStop), run);
    RunKeepsInv(Apply(w, CallStop), run);
  }

  /** Stopped: no process carries the current generation. */
  ghost predicate Quiet(w: World) {
    !w.core.running && forall p :: p in w.processes ==> w.processes[p].gen < w.core.generation
  }

  lemma {:induction false} StoppedStays(w: World, run: seq<Event>)
    requires Inv(w) && Quiet(w) && CanRun(w, run)
    requires forall i :: 0 <= i < |run| ==> !run[i].CallStart?
    ensures Quiet(After(w, run))
    decreases |run|
  {
    if run != [] {
      StepKeepsInv(w, run[0]);
      StoppedStays(Apply(w, run[0]), run[1..]);
    }
  }

  // ----- Bounded restarts -----

  /** The lexicographic pair (residential.json present, failures left) as one number. */
  function Rank(w: World): (r: nat)
    ensures 1 <= r <= 2 * MAX_FAILURES
  {
    (if w.residential then MAX_FAILURES else 0)
    + (if w.core.failures + 1 >= MAX_FAILURES then 1 else MAX_FAILURES - w.core.failures)
  }

  /** A crash of the current process, as its monitor sees it. */
  predicate CrashSeen(w: World, e: Event)
    requires Enabled(w, e)
  {
    e.Wakes? && GenOf(w, e.pid) == w.core.generation
  }

  /** No outside help: no Start or Stop, no settle that counts, no new residential.json. */
  predicate Unaided(w: World, e: Event) {
    && !e.CallStart? && !e.CallStop? && !e.ResidentialWritten?
    && (e.TimerFires? ==> e.gen != w.core.generation || !w.core.running)
  }

  /** Supervision is over: no monitor of the current generation is left. */
  ghost predicate Ended(w: World) {
    forall p :: !Watches(w, p)
  }

  /** Each crash lowers the rank, or is the one that gives up and ends supervision. */
  lemma CrashFallsOrEnds(w: World, e: Event)
    requires Inv(w) && Enabled(w, e) && CrashSeen(w, e)
    ensures || Rank(Apply(w, e)) < Rank(w)
            || (Apply(w, e).core.stopped && !Apply(w, e).core.running && Ended(Apply(w, e)))
  {
    forall p ensures Watches(Apply(w, e), p) ==> p == e.pid {
    }
  }

  /** Between crashes the rank does not rise, and supervision that has ended stays so. */
  lemma OthersKeepRank(w: World, e: Event)
    requires Inv(w) && Enabled(w, e) && Unaided(w, e)
    ensures !CrashSeen(w, e) ==> Rank(Apply(w, e)) <= Rank(w)
    ensures Ended(w) ==> Ended(Apply(w, e)) && !CrashSeen(w, e)
  {
    if Ended(w) {
      assert (e.Wakes? || e.Restarts?) ==> !Watches(w, e.pid);
      forall p ensures !Watches(Apply(w, e), p) {
        assert !Watches(w, p);
      }
    }
  }

  predicate UnaidedRun(w: World, run: seq<Event>)
    requires CanRun(w, run)
    decreases |run|
  {
    run == [] || (Unaided(w, run[0]) && UnaidedRun(Apply(w, run[0]), run[1..]))
  }

  function Crashes(w: World, run: seq<Event>): nat
    requires CanRun(w, run)
    decreases |run|
  {
    if run == [] then 0 else (if CrashSeen(w, run[0]) then 1 else 0) + Crashes(Apply(w, run[0]), run[1..])
  }

  lemma {:induction false} EndedMeansNoCrashes(w: World, run: seq<Event>)
    requires Inv(w) && Ended(w) && CanRun(w, run) && UnaidedRun(w, run)
    ensures Crashes(w, run) == 0
    decreases |run|
  {
    if run != [] {
      StepKeepsInv(w, run[0]);
      OthersKeepRank(w, run[0]);
      EndedMeansNoCrashes(Apply(w, run[0]), run[1..]);
    }
  }

  /** However events interleave, without outside help sing-box crashes at most twenty times
      before the manager gives up. */
  lemma {:induction false} BoundedRestarts(w: World, run: seq<Event>)
    requires Inv(w) && CanRun(w, run) && UnaidedRun(w, run)
    ensures Crashes(w, run) <= Rank(w) <= 20
    decreases |run|
  {
    if run != [] {
      var w' := Apply(w, run[0]);
      StepKeepsInv(w, run[0]);
      if CrashSeen(w, run[0]) {
        CrashFallsOrEnds(w, run[0]);
        if Rank(w') < Rank(w) {
          BoundedRestarts(w', run[1..]);
        } else {
          EndedMeansNoCrashes(w', run[1..]);
        }
      } else {
        OthersKeepRank(w, run[0]);
        BoundedRestarts(w', run[1..]);
      }
    }
  }

  /** A restart that fails ends supervision too, but leaves `stopped` as it was, so GaveUp does
      not report it. */
  lemma FailedRestartEndsQuietly(w: World, e: Event)
    requires Inv(w) && Enabled(w, e) && e.Restarts? && GenOf(w, e.pid) == w.core.generation
    requires !StartOutcome(w.core, e.env).Started?
    ensures Ended(Apply(w, e)) && Apply(w, e).core.stopped == w.core.stopped
    ensures !Apply(w, e).core.running
  {
    assert !w.core.running;
    forall p ensures Watches(Apply(w, e), p) ==> p == e.pid {
    }
  }
}
