/** The long-poll loop: internal/enroll/runner.go, with the wait and the backoff of client.go.
    What each poll meets is a script; a script that ends early is a context that is cancelled
    before the next poll. Times are nanoseconds of a monotonic clock. */
module PollLoop {
  import opened Machine
  import opened Upgrade
  import opened CommandExecutor

  const SECOND: nat := 1_000_000_000
  const MAX_WAIT: nat := 25
  const ROLLBACK_THRESHOLD: nat := 3

  type Jitter = x: real | 0.8 <= x <= 1.2 witness 1.0

  datatype Config = Config(setup: Setup, hasExePath: bool)

  datatype Given = Given(command: Command, answers: Answers)

  datatype Reply =
    | Answer(serverTime: int, commands: seq<Given>, acked: seq<Id>, nextWait: int, clearOk: bool)
    | Terminal
    | BootConflict
    | Failure(jitter: Jitter, rollbackOk: bool)
    | Cancelled

  /** `received`: the request reached the server. `took`: the request and the commands. `late`:
      by how much a sleep overruns. */
  datatype Round = Round(reply: Reply, received: bool, took: nat, late: nat)

  datatype State = State(attempt: nat, wait: int, fails: nat, pending: seq<Ack>, exec: Exec, now: nat)

  datatype Exit = Running | Stopped | Revoked | UpgradedByAck | UpgradedByRollback

  /** One poll: when it started, what its request said, and what came of the answer. */
  datatype Entry = Entry(
    at: nat, wait: int, carried: seq<Ack>, acked: set<Id>, candidates: seq<Ack>, produced: seq<Ack>)

  /** What a request carries, apart from the status and the statistics. */
  datatype Request = Request(wait: int, acks: seq<Ack>)

  function RequestsOf(log: seq<Entry>): (requests: seq<Request>)
    ensures |requests| == |log|
    ensures forall k :: 0 <= k < |log| ==> requests[k] == Request(WireWait(log[k].wait), log[k].carried)
  {
    if log == [] then [] else [Request(WireWait(log[0].wait), log[0].carried)] + RequestsOf(log[1..])
  }

  function ClampWait(n: int): int {
    if n <= 0 || n > MAX_WAIT then MAX_WAIT else n
  }

  /** The wait that Poll puts on the wire. */
  function WireWait(wait: int): (w: int)
    ensures wait < 0 ==> w == 0
    ensures 0 <= wait <= 25 ==> w == wait
    ensures wait > 25 ==> w == 25
  {
    if wait < 0 then 0 else if wait > MAX_WAIT then MAX_WAIT else wait
  }

  function Min(a: int, b: int): int {
    if a < b then a else b
  }

  function Jittered(d: nat, jitter: Jitter): int {
    (d as real * jitter).Floor
  }

  function Backoff(attempt: nat, jitter: Jitter): int {
    Min(Jittered(SECOND * Shift(Min(attempt, 6)), jitter), 60 * SECOND)
  }

  function IdSet(ids: seq<Id>): set<Id> {
    set id | id in ids
  }

  function AckIds(acks: seq<Ack>): set<Id> {
    set a | a in acks :: a.id
  }

  /** The acks that are not done, in order. */
  function Without(acks: seq<Ack>, done: set<Id>): seq<Ack> {
    if acks == [] then [] else (if acks[0].id in done then [] else [acks[0]]) + Without(acks[1..], done)
  }

  function CallsOf(commands: seq<Given>, serverTime: int): (calls: seq<Call>)
    ensures |calls| == |commands|
    ensures forall k :: 0 <= k < |calls| ==> calls[k] == Call(commands[k].command, serverTime, commands[k].answers)
  {
    if commands == [] then []
    else [Call(commands[0].command, serverTime, commands[0].answers)] + CallsOf(commands[1..], serverTime)
  }

  function Cleared(c: Config, f: Files, ok: bool): Files {
    if c.hasExePath && f.prev.Some? then RemovedPrev(f, ok) else f
  }

  /** An answer before its commands run: counters reset, backup cleared, acks dropped. */
  function Confirmed(c: Config, r: State, a: Reply): State
    requires a.Answer?
  {
    r.(attempt := 0, fails := if r.fails > 0 || c.hasExePath then 0 else r.fails,
       exec := r.exec.(files := Cleared(c, r.exec.files, a.clearOk)),
       pending := Without(r.pending, IdSet(a.acked)))
  }

  function WokenAt(start: nat, x: Round): nat {
    if x.took < SECOND then start + SECOND + x.late else start + x.took
  }

  function AfterAnswer(c: Config, r: State, x: Round): (State, Exit, Entry)
    requires x.reply.Answer?
  {
    var a := x.reply;
    var r1 := Confirmed(c, r, a);
    var done := IdSet(a.acked);
    if r1.exec.pendingExit && r1.pending == [] then
      (r1, UpgradedByAck, Entry(r.now, r.wait, r.pending, done, [], []))
    else
      var calls := CallsOf(a.commands, a.serverTime);
      var (e, acks) := ExecuteAll(c.setup, r1.exec, calls);
      (r1.(exec := e, pending := r1.pending + acks, now := WokenAt(r.now, x),
           wait := if acks != [] then 0 else ClampWait(a.nextWait)),
       Running, Entry(r.now, r.wait, r.pending, done, Candidates(c.setup, r1.exec, calls), acks))
  }

  predicate ShouldRollback(c: Config, r: State) {
    c.hasExePath && r.fails >= ROLLBACK_THRESHOLD && r.exec.files.prev.Some?
  }

  function AfterFailure(c: Config, r: State, x: Round): (State, Exit)
    requires x.reply.Failure?
  {
    var r1 := r.(attempt := r.attempt + 1, fails := r.fails + 1);
    var rolled := r1.(exec := r1.exec.(files := Restored(r1.exec.files, x.reply.rollbackOk)));
    var slept := r.now + x.took + Slept(Backoff(r1.attempt, x.reply.jitter), x.late);
    if ShouldRollback(c, r1) then
      if x.reply.rollbackOk then (rolled, UpgradedByRollback) else (rolled.(now := slept), Running)
    else (r1.(now := slept), Running)
  }

  /** A sleep of `d` ends `late` after it should; one of no length or less ends at once. */
  function Slept(d: int, late: nat): nat {
    if d <= 0 then 0 else d + late
  }

  function Step(c: Config, r: State, x: Round): (State, Exit, Entry) {
    var silent := Entry(r.now, r.wait, r.pending, {}, [], []);
    match x.reply
    case Answer(_, _, _, _, _) => AfterAnswer(c, r, x)
    case Terminal => (r, Revoked, silent)
    case BootConflict => (r.(now := r.now + x.took + Slept(60 * SECOND, x.late)), Running, silent)
    case Failure(_, _) => var (r1, exit) := AfterFailure(c, r, x); (r1, exit, silent)
    case Cancelled => (r, Stopped, silent)
  }

  function RunAll(c: Config, r: State, rounds: seq<Round>): (State, Exit, seq<Entry>)
    decreases |rounds|
  {
    if rounds == [] then (r, Running, [])
    else
      var (r1, exit, entry) := Step(c, r, rounds[0]);
      if exit != Running then (r1, exit, [entry])
      else
        var (r2, exit2, log) := RunAll(c, r1, rounds[1..]);
        (r2, exit2, [entry] + log)
  }

  function Initial(files: Files, now: nat): State {
    State(0, MAX_WAIT, 0, [], Exec(EMPTY_CACHE, false, files), now)
  }

  // ----- The loop itself -----

  /** pendingAcks: a slice that grows by appending and is compacted in its own backing array. */
  class AckQueue {
    var data: array<Ack>
    var len: nat

    ghost predicate Valid()
      reads this
    {
      len <= data.Length
    }

    ghost function Contents(): seq<Ack>
      requires Valid()
      reads this, data
    {
      data[..len]
    }

    constructor ()
      ensures Valid() && Contents() == [] && fresh(data)
    {
      data := new Ack[0];
      len := 0;
    }

    method Copy() returns (acks: seq<Ack>)
      requires Valid()
      ensures acks == Contents()
    {
      acks := data[..len];
    }

    method Append(a: Ack)
      requires Valid()
      modifies this, data
      ensures Valid() && Contents() == old(Contents()) + [a]
      ensures data == old(data) || fresh(data)
    {
      if len == data.Length {
        var was := data;
        var bigger := new Ack[2 * was.Length + 1](i requires 0 <= i reads was => if i < was.Length then was[i] else a);
        assert bigger[..len] == was[..len];
        data := bigger;
      }
      data[len] := a;
      len := len + 1;
    }

    method DropAcked(acked: seq<Id>)
      requires Valid()
      modifies this`len, data
      ensures Valid() && Contents() == Without(old(Contents()), IdSet(acked))
    {
      if acked == [] || len == 0 {
        WithoutNone(Contents());
        assert acked == [] ==> IdSet(acked) == {};
        return;
      }
      var done := set id | id in acked;
      ghost var was := Contents();
      var kept, n := 0, len;
      for i := 0 to n
        invariant kept <= i && len == n && Valid()
        invariant forall k :: i <= k < n ==> data[k] == was[k]
        invariant data[..kept] == Without(was[..i], done)
      {
        WithoutSnoc(was, i, done);
        if data[i].id !in done {
          data[kept] := data[i];
          kept := kept + 1;
        }
      }
      assert was[..n] == was;
      len := kept;
    }
  }

  class Runner {
    const config: Config
    const executor: Executor
    const queue: AckQueue
    var consecutiveFailures: nat

    constructor (config: Config, executor: Executor, queue: AckQueue)
      ensures this.config == config && this.executor == executor && this.queue == queue
      ensures consecutiveFailures == 0
    {
      this.config, this.executor, this.queue := config, executor, queue;
      consecutiveFailures := 0;
    }

    ghost predicate Valid()
      reads this, queue
    {
      queue.Valid() && executor.setup == config.setup
    }

    /** The state of the loop: the fields of this object and the locals of Run. */
    ghost function View(attempt: nat, wait: int, now: nat): State
      requires Valid()
      reads this, queue, queue.data, executor, executor.disk
    {
      State(attempt, wait, consecutiveFailures, queue.Contents(), executor.View(), now)
    }

    /** pollOnce's request: its own copy of the queue, and the wait that Poll clamps. */
    method PollOnce(wait: int) returns (request: Request)
      requires Valid()
      ensures request == Request(WireWait(wait), queue.Contents())
    {
      var acks := queue.Copy();
      request := Request(if wait < 0 then 0 else if wait > MAX_WAIT then MAX_WAIT else wait, acks);
    }

    /** Resets the failure count and clears the backup, as after every answer. */
    method NoteSuccess(clearOk: bool)
      requires Valid()
      modifies this, executor.disk
      ensures Valid() && queue.Contents() == old(queue.Contents())
      ensures consecutiveFailures == 0
      ensures executor.View() == old(executor.View()).(files := Cleared(config, old(executor.disk.View()), clearOk))
    {
      if consecutiveFailures > 0 || config.hasExePath {
        consecutiveFailures := 0;
        if config.hasExePath && executor.disk.prev.Some? {
          executor.disk.RemovePrev(clearOk);
        }
      }
    }

    method ExecuteCommands(commands: seq<Given>, serverTime: int) returns (newAcks: nat)
      requires Valid()
      modifies queue, queue.data, executor, executor.disk
      ensures Valid() && (queue.data == old(queue.data) || fresh(queue.data))
      ensures var (e, acks) := ExecuteAll(config.setup, old(executor.View()), CallsOf(commands, serverTime));
              executor.View() == e && queue.Contents() == old(queue.Contents()) + acks && newAcks == |acks|
    {
      newAcks := 0;
      ghost var calls := CallsOf(commands, serverTime);
      ghost var states, acks := Unrolled(config.setup, executor.View(), calls);
      for i := 0 to |commands|
        invariant Valid() && (queue.data == old(queue.data) || fresh(queue.data))
        invariant newAcks == i && executor.View() == states[i]
        invariant queue.Contents() == old(queue.Contents()) + acks[..i]
      {
        assert (states[i + 1], acks[i]) == ExecuteCall(config.setup, states[i], calls[i]);
        var ack := executor.ExecuteCommand(commands[i].command, serverTime, commands[i].answers);
        queue.Append(ack);
        newAcks := newAcks + 1;
        assert acks[..i + 1] == acks[..i] + [acks[i]];
      }
      assert acks[..|commands|] == acks;
    }

    method TakeAnswer(a: Reply, ghost wait: int, ghost attempt: nat, ghost now: nat, ghost x: Round)
      returns (exit: Exit, newWait: int)
      requires Valid() && x.reply == a && a.Answer?
      modifies this, queue, queue.data, executor, executor.disk
      ensures Valid() && (queue.data == old(queue.data) || fresh(queue.data))
      ensures var (r, end, _) := AfterAnswer(config, old(View(attempt, wait, now)), x);
              && exit == end && exit in {Running, UpgradedByAck}
              && (exit == Running ==> View(0, newWait, WokenAt(now, x)) == r)
              && (exit == UpgradedByAck ==> View(0, wait, now) == r)
    {
      NoteSuccess(a.clearOk);
      queue.DropAcked(a.acked);
      newWait := 0;
      if executor.pendingExit && queue.len == 0 {
        return UpgradedByAck, 0;
      }
      var newAcks := ExecuteCommands(a.commands, a.serverTime);
      if newAcks == 0 {
        newWait := ClampWait(a.nextWait);
      }
      exit := Running;
    }

    method TakeFailure(f: Reply, ghost wait: int, ghost attempt: nat, ghost now: nat, ghost x: Round)
      returns (exit: Exit)
      requires Valid() && x.reply == f && f.Failure?
      modifies this, executor.disk
      ensures Valid() && queue.Contents() == old(queue.Contents())
      ensures var (r, end) := AfterFailure(config, old(View(attempt, wait, now)), x);
              && exit == end && View(attempt + 1, wait, r.now) == r
              && (exit == Running ==> r.now == now + x.took + Slept(Backoff(attempt + 1, f.jitter), x.late))
              && (exit != Running ==> exit == UpgradedByRollback && r.now == now)
    {
      consecutiveFailures := consecutiveFailures + 1;
      exit := Running;
      if config.hasExePath && consecutiveFailures >= ROLLBACK_THRESHOLD && executor.disk.prev.Some? {
        var ok := executor.disk.Rollback(f.rollbackOk);
        if ok {
          exit := UpgradedByRollback;
        }
      }
    }

    /** One turn of the loop, and the value of its locals after it. */
    method Turn(x: Round, attempt: nat, wait: int, now: nat)
      returns (exit: Exit, nextAttempt: nat, nextWait: int, nextNow: nat)
      requires Valid()
      modifies this, queue, queue.data, executor, executor.disk
      ensures Valid() && (queue.data == old(queue.data) || fresh(queue.data))
      ensures var (r, end, _) := Step(config, old(View(attempt, wait, now)), x);
              exit == end && View(nextAttempt, nextWait, nextNow) == r
    {
      exit, nextAttempt, nextWait, nextNow := Running, attempt, wait, now;
      match x.reply {
        case Answer(_, _, _, _, _) =>
          exit, nextWait := TakeAnswer(x.reply, wait, attempt, now, x);
          nextAttempt := 0;
          if exit == Running {
            nextNow := WokenAt(now, x);
          } else {
            nextWait := wait;
          }
        case Terminal => exit := Revoked;
        case BootConflict => nextNow := now + x.took + Slept(60 * SECOND, x.late);
        case Failure(jitter, _) =>
          exit := TakeFailure(x.reply, wait, attempt, now, x);
          nextAttempt := attempt + 1;
          if exit == Running {
            nextNow := now + x.took + Slept(Backoff(nextAttempt, jitter), x.late);
          }
        case Cancelled => exit := Stopped;
      }
    }

    /** The loop does what RunAll says, poll by poll, and sends what its log says. */
    method Run(rounds: seq<Round>, start: nat)
      returns (exit: Exit, sent: seq<Request>, ghost end: State, ghost log: seq<Entry>)
      requires Valid()
      modifies this, queue, queue.data, executor, executor.disk
      ensures Valid()
      ensures (end, exit, log) == RunAll(config, old(View(0, MAX_WAIT, start)), rounds)
      ensures end == View(end.attempt, end.wait, end.now) && sent == RequestsOf(log)
    {
      var attempt: nat, wait: int, now: nat := 0, MAX_WAIT, start;
      ghost var whole := RunAll(config, View(0, MAX_WAIT, start), rounds);
      sent, log, end := [], [], View(attempt, wait, now);
      assert rounds[0..] == rounds && [] + whole.2 == whole.2;
      for i := 0 to |rounds|
        invariant Valid() && (queue.data == old(queue.data) || fresh(queue.data))
        invariant end == View(attempt, wait, now) && sent == RequestsOf(log)
        invariant Joined(log, RunAll(config, end, rounds[i..])) == whole
      {
        var request := PollOnce(wait);
        sent := sent + [request];
        RunAdvances(config, end, rounds, i, log);
        log := log + [Step(config, end, rounds[i]).2];
        exit, attempt, wait, now := Turn(rounds[i], attempt, wait, now);
        end := View(attempt, wait, now);
        if exit != Running {
          return;
        }
      }
      exit := Running;
      assert rounds[|rounds|..] == [] && log + [] == log;
    }
  }

  lemma {:induction false} RequestsSnoc(log: seq<Entry>, entry: Entry)
    ensures RequestsOf(log + [entry]) == RequestsOf(log) + [Request(WireWait(entry.wait), entry.carried)]
  {
  }

  /** One turn of the loop, seen from a log that already holds the polls before it. */
  lemma {:induction false} RunAdvances(c: Config, r: State, rounds: seq<Round>, i: nat, log: seq<Entry>)
    requires i < |rounds|
    ensures var (r1, exit, entry) := Step(c, r, rounds[i]);
            && Joined(log, RunAll(c, r, rounds[i..]))
               == (if exit != Running then (r1, exit, log + [entry])
                   else Joined(log + [entry], RunAll(c, r1, rounds[i + 1..])))
            && RequestsOf(log + [entry]) == RequestsOf(log) + [Request(WireWait(r.wait), r.pending)]
  {
    var (r1, _, entry) := Step(c, r, rounds[i]);
    RunNext(c, r, rounds, i);
    JoinedCons(log, entry, RunAll(c, r1, rounds[i + 1..]));
    RequestsSnoc(log, entry);
  }

  function Joined(log: seq<Entry>, run: (State, Exit, seq<Entry>)): (State, Exit, seq<Entry>) {
    (run.0, run.1, log + run.2)
  }

  lemma JoinedCons(log: seq<Entry>, e: Entry, run: (State, Exit, seq<Entry>))
    ensures Joined(log, Joined([e], run)) == Joined(log + [e], run)
  {
    assert log + ([e] + run.2) == log + [e] + run.2;
  }

  lemma {:induction false} WithoutSnoc(acks: seq<Ack>, i: nat, done: set<Id>)
    requires i < |acks|
    ensures Without(acks[..i + 1], done) == Without(acks[..i], done) + if acks[i].id in done then [] else [acks[i]]
  {
    WithoutConcat(acks[..i], [acks[i]], done);
    assert acks[..i + 1] == acks[..i] + [acks[i]];
  }

  lemma {:induction false} WithoutConcat(a: seq<Ack>, b: seq<Ack>, done: set<Id>)
    ensures Without(a + b, done) == Without(a, done) + Without(b, done)
  {
    if a == [] {
      assert a + b == b;
    } else {
      assert (a + b)[1..] == a[1..] + b;
      WithoutConcat(a[1..], b, done);
    }
  }

  function ExecuteCall(s: Setup, e: Exec, call: Call): (Exec, Ack) {
    Execute(s, e, call.command, call.serverTime, call.answers)
  }

  /** The states that a list of calls goes through. */
  lemma {:induction false} Unrolled(s: Setup, e: Exec, calls: seq<Call>) returns (states: seq<Exec>, acks: seq<Ack>)
    ensures |states| == |calls| + 1 && states[0] == e && |acks| == |calls|
    ensures ExecuteAll(s, e, calls) == (states[|calls|], acks)
    ensures forall i :: 0 <= i < |calls| ==> (states[i + 1], acks[i]) == ExecuteCall(s, states[i], calls[i])
    decreases |calls|
  {
    if calls == [] {
      states, acks := [e], [];
    } else {
      var (e1, ack) := ExecuteCall(s, e, calls[0]);
      var states1, acks1 := Unrolled(s, e1, calls[1..]);
      states, acks := [e] + states1, [ack] + acks1;
    }
  }

  lemma {:induction false} RunNext(c: Config, r: State, rounds: seq<Round>, i: nat)
    requires i < |rounds|
    ensures var (r1, exit, entry) := Step(c, r, rounds[i]);
            RunAll(c, r, rounds[i..])
            == if exit != Running then (r1, exit, [entry]) else Joined([entry], RunAll(c, r1, rounds[i + 1..]))
  {
    assert rounds[i..][0] == rounds[i] && rounds[i..][1..] == rounds[i + 1..];
  }

  lemma {:induction false} WithoutNone(acks: seq<Ack>)
    ensures Without(acks, {}) == acks
  {
    if acks != [] {
      WithoutNone(acks[1..]);
      assert [acks[0]] + acks[1..] == acks;
    }
  }
}
