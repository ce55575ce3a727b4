/** What every run of the long-poll loop keeps: its pace, its counters, and its queue of acks. */
module PollLaws {
  import opened Machine
  import opened Upgrade
  import opened CommandExecutor
  import opened PollLoop

  // ----- Runs, poll by poll -----

  lemma {:induction false} RunSnoc(c: Config, r: State, front: seq<Round>, x: Round)
    requires RunAll(c, r, front).1 == Running
    ensures var (r1, _, log) := RunAll(c, r, front);
            var (r2, exit, entry) := Step(c, r1, x);
            RunAll(c, r, front + [x]) == (r2, exit, log + [entry])
    decreases |front|
  {
    if front == [] {
      var entry := Step(c, r, x).2;
      assert front + [x] == [x] && [x][1..] == [];
      assert [entry] + [] == [entry] == [] + [entry];
    } else {
      assert (front + [x])[1..] == front[1..] + [x];
      var (r1, _, entry) := Step(c, r, front[0]);
      RunSnoc(c, r1, front[1..], x);
      var (rest, last) := (RunAll(c, r1, front[1..]), Step(c, RunAll(c, r1, front[1..]).0, x).2);
      assert [entry] + (rest.2 + [last]) == [entry] + rest.2 + [last];
    }
  }

  lemma {:induction false} RunPrefix(c: Config, r: State, rounds: seq<Round>, k: nat)
    requires k < |RunAll(c, r, rounds).2|
    ensures k < |rounds|
    ensures var (r1, exit, log) := RunAll(c, r, rounds[..k]);
            exit == Running && log == RunAll(c, r, rounds).2[..k]
            && RunAll(c, r, rounds).2[k] == Step(c, r1, rounds[k]).2
    decreases k
  {
    var (r1, exit, entry) := Step(c, r, rounds[0]);
    if k > 0 {
      RunPrefix(c, r1, rounds[1..], k - 1);
      assert rounds[..k][1..] == rounds[1..][..k - 1];
    }
  }

  // ----- Pace -----

  /** The nominal backoffs, in seconds. */
  const NOMINAL := [1, 2, 4, 8, 16, 32, 64]

  /** The nominal backoff doubles up to 64 seconds, the jitter moves it by at most a fifth, and the
      cap of 60 seconds comes after the jitter. */
  lemma BackoffRange(attempt: nat, jitter: Jitter)
    ensures var nominal := 1_000_000_000 * NOMINAL[if attempt < 6 then attempt else 6];
            var jittered := (nominal as real * jitter).Floor;
            && Backoff(attempt, jitter) == (if jittered > 60_000_000_000 then 60_000_000_000 else jittered)
            && 8 * nominal <= 10 * jittered <= 12 * nominal
    ensures attempt >= 1 ==> Backoff(attempt, jitter) >= 1_000_000_000
  {
    var base, jittered := BackoffParts(attempt, jitter);
    PowersOfTwo(if attempt < 6 then attempt else 6);
  }

  lemma {:induction false} PowersOfTwo(k: nat)
    requires k <= 6
    ensures Shift(k) == NOMINAL[k]
  {
    assert Shift(0) == 1;
    assert Shift(1) == 2;
    assert Shift(2) == 4;
    assert Shift(3) == 8;
    assert Shift(4) == 16;
    assert Shift(5) == 32;
    assert Shift(6) == 64;
  }

  lemma BackoffParts(attempt: nat, jitter: Jitter) returns (base: nat, jittered: int)
    ensures base == SECOND * Shift(Min(attempt, 6)) && Backoff(attempt, jitter) == Min(jittered, 60 * SECOND)
    ensures 8 * base <= 10 * jittered <= 12 * base && (attempt >= 1 ==> base >= 2 * SECOND)
  {
    base := SECOND * Shift(Min(attempt, 6));
    jittered := Jittered(base, jitter);
    ShiftPositive(Min(attempt, 6));
    if attempt >= 1 {
      ShiftPositive(Min(attempt, 6) - 1);
    }
    JitterBounds(100_000_000 * Shift(Min(attempt, 6)), jitter);
  }

  lemma JitterBounds(tenth: nat, jitter: Jitter)
    ensures 8 * tenth <= Jittered(10 * tenth, jitter) <= 12 * tenth
  {
    var base := (10 * tenth) as real;
    Scaled(base, jitter);
    assert base == 10.0 * tenth as real;
    assert 8.0 * tenth as real <= base * jitter <= 12.0 * tenth as real;
  }

  lemma Scaled(x: real, jitter: Jitter)
    requires x >= 0.0
    ensures 0.8 * x <= x * jitter <= 1.2 * x
  {
    NonNegativeProduct(x, jitter - 0.8);
    NonNegativeProduct(x, 1.2 - jitter);
    assert x * (jitter - 0.8) == x * jitter - x * 0.8;
    assert x * (1.2 - jitter) == x * 1.2 - x * jitter;
  }

  lemma NonNegativeProduct(a: real, b: real)
    requires a >= 0.0 && b >= 0.0
    ensures a * b >= 0.0
  {
  }

  lemma StepTakesASecond(c: Config, r: State, x: Round)
    requires Step(c, r, x).1 == Running
    ensures Step(c, r, x).0.now >= r.now + SECOND
  {
    match x.reply {
      case Failure(jitter, _) => BackoffRange(r.attempt + 1, jitter);
      case _ =>
    }
  }

  predicate SecondsApart(log: seq<Entry>) {
    forall k :: 0 < k < |log| ==> log[k].at >= log[k - 1].at + SECOND
  }

  lemma {:induction false} NeighboursApart(c: Config, r: State, rounds: seq<Round>)
    ensures SecondsApart(RunAll(c, r, rounds).2)
    ensures RunAll(c, r, rounds).2 != [] ==> RunAll(c, r, rounds).2[0].at == r.now
    decreases |rounds|
  {
    if rounds != [] {
      var (r1, exit, entry) := Step(c, r, rounds[0]);
      StepPending(c, r, rounds[0]);
      if exit == Running {
        StepTakesASecond(c, r, rounds[0]);
        NeighboursApart(c, r1, rounds[1..]);
        ApartCons(entry, RunAll(c, r1, rounds[1..]).2);
      }
    }
  }

  lemma ApartCons(entry: Entry, log: seq<Entry>)
    requires SecondsApart(log) && (log != [] ==> log[0].at >= entry.at + SECOND)
    ensures SecondsApart([entry] + log)
  {
  }

  lemma {:induction false} ApartMeans(log: seq<Entry>, i: nat, j: nat)
    requires SecondsApart(log) && i <= j < |log|
    ensures log[j].at >= log[i].at + (j - i) * SECOND
    decreases j
  {
    if i < j {
      ApartMeans(log, i, j - 1);
    }
  }

  /** Whatever the server answers, polls start at least a second apart. */
  lemma {:induction false} PollsApart(c: Config, r: State, rounds: seq<Round>, i: nat, j: nat)
    requires i <= j < |RunAll(c, r, rounds).2|
    ensures RunAll(c, r, rounds).2[j].at >= RunAll(c, r, rounds).2[i].at + (j - i) * SECOND
  {
    NeighboursApart(c, r, rounds);
    ApartMeans(RunAll(c, r, rounds).2, i, j);
  }

  function Range(lo: int, n: nat): (range: set<int>)
    ensures |range| == n && forall k :: k in range <==> lo <= k < lo + n
  {
    if n == 0 then {} else Range(lo, n - 1) + {lo + n - 1}
  }

  lemma SubsetSize(a: set<int>, b: set<int>)
    requires a <= b
    ensures |a| <= |b|
  {
    assert b == a + (b - a);
  }

  /** At most T + 1 polls start within any T seconds. */
  lemma {:induction false} PollRate(c: Config, r: State, rounds: seq<Round>, t: int, seconds: nat)
    ensures var log := RunAll(c, r, rounds).2;
            |set k | 0 <= k < |log| && t <= log[k].at <= t + seconds * SECOND| <= seconds + 1
  {
    hide RunAll;
    var log := RunAll(c, r, rounds).2;
    var inside := set k | 0 <= k < |log| && t <= log[k].at <= t + seconds * SECOND;
    var first := 0;
    while first < |log| && log[first].at < t
      invariant first <= |log| && forall k :: 0 <= k < first ==> log[k].at < t
    {
      first := first + 1;
    }
    var range := Range(first, seconds + 1);
    forall k | k in inside ensures k in range {
      PollsApart(c, r, rounds, first, k);
    }
    SubsetSize(inside, range);
  }

  // ----- Counters -----

  function LastAnswer(rounds: seq<Round>): (a: Option<Reply>)
    ensures a.Some? ==> a.value.Answer?
  {
    if rounds == [] then None
    else
      var last := rounds[|rounds| - 1].reply;
      if last.Answer? then Some(last) else LastAnswer(rounds[..|rounds| - 1])
  }

  /** Failed polls since the last answer; boot conflicts in between do not count. */
  function FailuresSinceAnswer(rounds: seq<Round>): nat {
    if rounds == [] then 0
    else
      var last := rounds[|rounds| - 1].reply;
      if last.Answer? then 0
      else FailuresSinceAnswer(rounds[..|rounds| - 1]) + if last.Failure? then 1 else 0
  }

  function NextWait(rounds: seq<Round>): int {
    match LastAnswer(rounds)
    case None => MAX_WAIT
    case Some(a) => if a.commands != [] then 0 else ClampWait(a.nextWait)
  }

  lemma {:induction false} CountersAre(c: Config, files: Files, now: nat, rounds: seq<Round>)
    requires RunAll(c, Initial(files, now), rounds).1 == Running
    ensures var r := RunAll(c, Initial(files, now), rounds).0;
            && r.attempt == r.fails == FailuresSinceAnswer(rounds)
            && r.wait == NextWait(rounds)
    decreases |rounds|
  {
    if rounds != [] {
      var front, x := rounds[..|rounds| - 1], rounds[|rounds| - 1];
      assert rounds == front + [x];
      FrontRuns(c, Initial(files, now), front, x);
      CountersAre(c, files, now, front);
      RunSnoc(c, Initial(files, now), front, x);
      StepCounters(c, RunAll(c, Initial(files, now), front).0, x);
    }
  }

  lemma StepCounters(c: Config, r: State, x: Round)
    requires Step(c, r, x).1 == Running
    ensures var r1 := Step(c, r, x).0;
            match x.reply
            case Answer(_, commands, _, nextWait, _) =>
              r1.attempt == r1.fails == 0 && r1.wait == if commands != [] then 0 else ClampWait(nextWait)
            case Failure(_, _) => r1.attempt == r.attempt + 1 && r1.fails == r.fails + 1 && r1.wait == r.wait
            case _ => r1.attempt == r.attempt && r1.fails == r.fails && r1.wait == r.wait
  {
  }

  lemma {:induction false} FrontRuns(c: Config, r: State, front: seq<Round>, x: Round)
    requires RunAll(c, r, front + [x]).1 == Running
    ensures RunAll(c, r, front).1 == Running
    decreases |front|
  {
    if front != [] {
      assert (front + [x])[1..] == front[1..] + [x];
      FrontRuns(c, Step(c, r, front[0]).0, front[1..], x);
    }
  }

  lemma {:induction false} WaitFollows(c: Config, files: Files, now: nat, rounds: seq<Round>, k: nat)
    requires k < |RunAll(c, Initial(files, now), rounds).2|
    ensures k < |rounds| && RunAll(c, Initial(files, now), rounds).2[k].wait == NextWait(rounds[..k])
  {
    var start := Initial(files, now);
    RunPrefix(c, start, rounds, k);
    CountersAre(c, files, now, rounds[..k]);
    StepPending(c, RunAll(c, start, rounds[..k]).0, rounds[k]);
  }

  /** The wait of every request, whatever failed since the last answer: 25 before any answer, 0
      after an answer with commands, and else what that answer asked for if it lies in 1..25, and
      25 if it does not. */
  lemma {:induction false} WaitOfEveryPoll(c: Config, files: Files, now: nat, rounds: seq<Round>, k: nat)
    requires k < |RunAll(c, Initial(files, now), rounds).2|
    ensures k < |rounds|
    ensures var log := RunAll(c, Initial(files, now), rounds).2;
            RequestsOf(log)[k].wait == log[k].wait
            == match LastAnswer(rounds[..k])
               case None => 25
               case Some(a) =>
                 if a.commands != [] then 0
                 else if 1 <= a.nextWait <= 25 then a.nextWait
                 else 25
  {
    hide RunAll;
    WaitFollows(c, files, now, rounds, k);
  }

  /** The time from the start of one poll to the start of the next, to the nanosecond: at least a
      second after an answer, a minute after a boot conflict, and after a failure the backoff for
      the number of failures since the last answer. */
  lemma {:induction false} GapOfEveryPoll(c: Config, files: Files, now: nat, rounds: seq<Round>, k: nat)
    requires k + 1 < |RunAll(c, Initial(files, now), rounds).2|
    ensures k + 1 < |rounds|
    ensures var log := RunAll(c, Initial(files, now), rounds).2;
            var gap := log[k + 1].at - log[k].at;
            var x := rounds[k];
            match x.reply
            case Answer(_, _, _, _, _) => gap == if x.took >= 1_000_000_000 then x.took else 1_000_000_000 + x.late
            case BootConflict => gap == x.took + 60_000_000_000 + x.late
            case Failure(jitter, _) =>
              gap == x.took + Backoff(FailuresSinceAnswer(rounds[..k + 1]), jitter) + x.late
            case _ => false
  {
    hide RunAll, Step, Backoff;
    var r := TwoPolls(c, files, now, rounds, k);
    assert rounds[..k + 1] == rounds[..k] + [rounds[k]] && (rounds[..k] + [rounds[k]])[..k] == rounds[..k];
    StepGap(c, r, rounds[k]);
  }

  /** The state before a poll that another one follows. */
  lemma {:induction false} TwoPolls(c: Config, files: Files, now: nat, rounds: seq<Round>, k: nat) returns (r: State)
    requires k + 1 < |RunAll(c, Initial(files, now), rounds).2|
    ensures k + 1 < |rounds|
    ensures var log := RunAll(c, Initial(files, now), rounds).2;
            var (r1, exit, _) := Step(c, r, rounds[k]);
            exit == Running && log[k].at == r.now && log[k + 1].at == r1.now
    ensures r.attempt == FailuresSinceAnswer(rounds[..k])
  {
    hide RunAll, Step;
    var start := Initial(files, now);
    r := StateBefore(c, start, rounds, k);
    var r1 := StateBefore(c, start, rounds, k + 1);
    assert rounds[..k + 1] == rounds[..k] + [rounds[k]];
    RunSnoc(c, start, rounds[..k], rounds[k]);
    CountersAre(c, files, now, rounds[..k]);
  }

  lemma {:induction false} StateBefore(c: Config, start: State, rounds: seq<Round>, k: nat) returns (r: State)
    requires k < |RunAll(c, start, rounds).2|
    ensures k < |rounds|
    ensures RunAll(c, start, rounds[..k]).0 == r && RunAll(c, start, rounds[..k]).1 == Running
    ensures RunAll(c, start, rounds).2[k].at == r.now
  {
    RunPrefix(c, start, rounds, k);
    r := RunAll(c, start, rounds[..k]).0;
    StepPending(c, r, rounds[k]);
  }

  lemma StepGap(c: Config, r: State, x: Round)
    requires Step(c, r, x).1 == Running
    ensures var gap := Step(c, r, x).0.now - r.now;
            match x.reply
            case Answer(_, _, _, _, _) => gap == if x.took >= 1_000_000_000 then x.took else 1_000_000_000 + x.late
            case BootConflict => gap == x.took + 60_000_000_000 + x.late
            case Failure(jitter, _) => gap == x.took + Backoff(r.attempt + 1, jitter) + x.late
            case _ => false
  {
    match x.reply {
      case Failure(jitter, _) => BackoffRange(r.attempt + 1, jitter);
      case _ =>
    }
  }

  /** When the agent swaps its binary back: at a failed poll that makes at least three since the
      last answer, with a backup in place. Boot conflicts neither count nor reset the count. */
  lemma {:induction false} RollbackIff(c: Config, files: Files, now: nat, front: seq<Round>, x: Round)
    requires RunAll(c, Initial(files, now), front).1 == Running
    ensures var before := RunAll(c, Initial(files, now), front).0;
            var (after, exit, _) := RunAll(c, Initial(files, now), front + [x]);
            && (exit == UpgradedByRollback
                <==> x.reply.Failure? && x.reply.rollbackOk && c.hasExePath
                     && FailuresSinceAnswer(front + [x]) >= 3 && before.exec.files.prev.Some?)
            && (exit == UpgradedByRollback ==>
                  after.exec.files == before.exec.files.(exe := before.exec.files.prev, prev := None))
            && (exit == Revoked <==> x.reply.Terminal?)
  {
    RunSnoc(c, Initial(files, now), front, x);
    CountersAre(c, files, now, front);
    assert (front + [x])[..|front|] == front;
  }

  // ----- The queue of acks -----

  function AckedIn(log: seq<Entry>): set<Id> {
    if log == [] then {} else log[0].acked + AckedIn(log[1..])
  }

  /** The acks that no later answer confirmed, in the order of their commands. */
  function Outstanding(log: seq<Entry>): seq<Ack> {
    if log == [] then [] else Without(log[0].produced, AckedIn(log[1..])) + Outstanding(log[1..])
  }

  lemma StepPending(c: Config, r: State, x: Round)
    ensures var (r1, _, entry) := Step(c, r, x);
            && entry.carried == r.pending && entry.at == r.now && entry.wait == r.wait
            && r1.pending == Without(r.pending, entry.acked) + entry.produced
  {
    WithoutNone(r.pending);
  }

  lemma {:induction false} WithoutTwice(acks: seq<Ack>, a: set<Id>, b: set<Id>)
    ensures Without(Without(acks, a), b) == Without(acks, a + b)
  {
    if acks != [] {
      WithoutTwice(acks[1..], a, b);
      var rest := Without(acks[1..], a);
      assert ([acks[0]] + rest)[1..] == rest;
      assert [] + rest == rest;
    }
  }

  /** The queue at any moment: the acks it began with and all that were made since, in order,
      less those with an id that a later answer listed. */
  lemma {:induction false} PendingIs(c: Config, r: State, rounds: seq<Round>)
    ensures var (r1, _, log) := RunAll(c, r, rounds);
            r1.pending == Without(r.pending, AckedIn(log)) + Outstanding(log)
    decreases |rounds|
  {
    if rounds == [] {
      WithoutNone(r.pending);
    } else {
      var (r1, exit, entry) := Step(c, r, rounds[0]);
      StepPending(c, r, rounds[0]);
      if exit != Running {
        QueueLast(r.pending, entry);
      } else {
        PendingIs(c, r1, rounds[1..]);
        QueueCons(r.pending, entry, RunAll(c, r1, rounds[1..]).2);
      }
    }
  }

  lemma {:induction false} QueueLast(pending: seq<Ack>, entry: Entry)
    ensures Without(pending, entry.acked) + entry.produced
            == Without(pending, AckedIn([entry])) + Outstanding([entry])
  {
    WithoutNone(entry.produced);
    assert [entry][1..] == [] && entry.acked + {} == entry.acked;
    assert Outstanding([entry]) == entry.produced + [] == entry.produced;
  }

  lemma {:induction false} QueueCons(pending: seq<Ack>, entry: Entry, log: seq<Entry>)
    ensures Without(Without(pending, entry.acked) + entry.produced, AckedIn(log)) + Outstanding(log)
            == Without(pending, AckedIn([entry] + log)) + Outstanding([entry] + log)
  {
    assert ([entry] + log)[1..] == log;
    WithoutConcat(Without(pending, entry.acked), entry.produced, AckedIn(log));
    WithoutTwice(pending, entry.acked, AckedIn(log));
    assert Without(pending, entry.acked + AckedIn(log)) + Without(entry.produced, AckedIn(log)) + Outstanding(log)
        == Without(pending, entry.acked + AckedIn(log)) + (Without(entry.produced, AckedIn(log)) + Outstanding(log));
  }

  /** What every request carries: all acks so far that no earlier answer confirmed. */
  lemma {:induction false} RequestCarries(c: Config, files: Files, now: nat, rounds: seq<Round>, k: nat)
    requires k < |RunAll(c, Initial(files, now), rounds).2|
    ensures var log := RunAll(c, Initial(files, now), rounds).2;
            log[k].carried == Outstanding(log[..k])
  {
    var log := RunAll(c, Initial(files, now), rounds).2;
    RunPrefix(c, Initial(files, now), rounds, k);
    PendingIs(c, Initial(files, now), rounds[..k]);
    StepPending(c, RunAll(c, Initial(files, now), rounds[..k]).0, rounds[k]);
    assert [] + Outstanding(log[..k]) == Outstanding(log[..k]);
  }

  /** An ack that was made in poll i and is missing from the request of poll k was listed by an
      answer in between, to a request that carried it. */
  lemma {:induction false} DroppedOnlyWhenConfirmed(log: seq<Entry>, i: nat, a: Ack, k: nat)
    requires i < k <= |log| && a in log[i].produced && a !in Outstanding(log[..k])
    requires forall j :: 0 <= j < |log| ==> log[j].carried == Outstanding(log[..j])
    ensures exists j :: i < j < k && a in log[j].carried && a.id in log[j].acked
    decreases k
  {
    OutstandingSnoc(log[..k - 1], log[k - 1]);
    assert log[..k] == log[..k - 1] + [log[k - 1]];
    if k - 1 > i {
      if a !in Outstanding(log[..k - 1]) {
        DroppedOnlyWhenConfirmed(log, i, a, k - 1);
      } else {
        WithoutHas(Outstanding(log[..k - 1]), log[k - 1].acked, a);
        assert a in log[k - 1].carried && a.id in log[k - 1].acked;
      }
    }
  }

  /** Reliable acks: once made, an ack is in every request until one that carried it was answered
      with its id. */
  lemma {:induction false} AckLeavesOnlyConfirmed(c: Config, files: Files, now: nat, rounds: seq<Round>,
                                                  i: nat, k: nat, a: Ack)
    requires var log := RunAll(c, Initial(files, now), rounds).2;
             i < k < |log| && a in log[i].produced && a !in log[k].carried
    ensures var log := RunAll(c, Initial(files, now), rounds).2;
            exists j :: i < j < k && a in log[j].carried && a.id in log[j].acked
  {
    var log := RunAll(c, Initial(files, now), rounds).2;
    forall j | 0 <= j < |log| ensures log[j].carried == Outstanding(log[..j]) {
      RequestCarries(c, files, now, rounds, j);
    }
    DroppedOnlyWhenConfirmed(log, i, a, k);
  }

  lemma {:induction false} OutstandingSnoc(log: seq<Entry>, entry: Entry)
    ensures Outstanding(log + [entry]) == Without(Outstanding(log), entry.acked) + entry.produced
    decreases |log|
  {
    if log == [] {
      QueueLast([], entry);
      assert [] + [entry] == [entry];
      assert Without([], entry.acked) + entry.produced == entry.produced;
      assert Without([], AckedIn([entry])) + Outstanding([entry]) == Outstanding([entry]);
    } else {
      var rest := log[1..];
      assert (log + [entry])[1..] == rest + [entry];
      OutstandingSnoc(rest, entry);
      AckedSnoc(rest, entry);
      WithoutTwice(log[0].produced, AckedIn(rest), entry.acked);
      WithoutConcat(Without(log[0].produced, AckedIn(rest)), Outstanding(rest), entry.acked);
    }
  }

  lemma {:induction false} AckedSnoc(log: seq<Entry>, entry: Entry)
    ensures AckedIn(log + [entry]) == AckedIn(log) + entry.acked
    decreases |log|
  {
    if log == [] {
      assert [] + [entry] == [entry] && [entry][1..] == [];
    } else {
      assert (log + [entry])[1..] == log[1..] + [entry];
      AckedSnoc(log[1..], entry);
    }
  }

  lemma {:induction false} WithoutHas(acks: seq<Ack>, done: set<Id>, a: Ack)
    ensures a in Without(acks, done) <==> a in acks && a.id !in done
  {
    if acks != [] {
      WithoutHas(acks[1..], done, a);
      assert a in acks <==> a == acks[0] || a in acks[1..];
    }
  }

  // ----- The cache over a whole run -----

  function AllCandidates(log: seq<Entry>): seq<Ack> {
    if log == [] then [] else log[0].candidates + AllCandidates(log[1..])
  }

  function AllProduced(log: seq<Entry>): seq<Ack> {
    if log == [] then [] else log[0].produced + AllProduced(log[1..])
  }

  lemma {:induction false} LookupConcat(cache: Cache, a: seq<Ack>, b: seq<Ack>)
    ensures var (c1, acks1) := LookupAll(cache, a);
            var (c2, acks2) := LookupAll(c1, b);
            LookupAll(cache, a + b) == (c2, acks1 + acks2) && Fresh(cache, a + b) == Fresh(cache, a) + Fresh(c1, b)
    decreases |a|
  {
    if a == [] {
      assert a + b == b && [] + LookupAll(cache, b).1 == LookupAll(cache, b).1;
    } else {
      assert (a + b)[1..] == a[1..] + b;
      var (c0, ack) := Lookup(cache, a[0]);
      LookupConcat(c0, a[1..], b);
      var (c1, acks1) := LookupAll(c0, a[1..]);
      assert [ack] + (acks1 + LookupAll(c1, b).1) == [ack] + acks1 + LookupAll(c1, b).1;
    }
  }

  lemma StepCache(c: Config, r: State, x: Round)
    ensures var (r1, _, entry) := Step(c, r, x);
            LookupAll(r.exec.cache, entry.candidates) == (r1.exec.cache, entry.produced)
  {
    if x.reply.Answer? {
      var a := x.reply;
      CallsAreLookups(c.setup, Confirmed(c, r, a).exec, CallsOf(a.commands, a.serverTime));
    }
  }

  /** Over any number of polls the cache works as one sequence of lookups, failures or not. */
  lemma {:induction false} RunIsLookups(c: Config, r: State, rounds: seq<Round>)
    ensures var (r1, _, log) := RunAll(c, r, rounds);
            LookupAll(r.exec.cache, AllCandidates(log)) == (r1.exec.cache, AllProduced(log))
    decreases |rounds|
  {
    if rounds != [] {
      var (r1, exit, entry) := Step(c, r, rounds[0]);
      StepCache(c, r, rounds[0]);
      var log := RunAll(c, r, rounds).2;
      if exit == Running {
        RunIsLookups(c, r1, rounds[1..]);
        LookupConcat(r.exec.cache, entry.candidates, AllCandidates(RunAll(c, r1, rounds[1..]).2));
        assert log[1..] == RunAll(c, r1, rounds[1..]).2;
      } else {
        assert log[1..] == [] && entry.candidates + [] == entry.candidates && entry.produced + [] == entry.produced;
      }
    }
  }

  /** The ids that a process really performs, in order. */
  function PerformedIn(log: seq<Entry>): seq<Id> {
    Fresh(EMPTY_CACHE, AllCandidates(log))
  }

  /** However the server redelivers, over the life of the process an id is performed again only
      after 200 others. */
  lemma {:induction false} PerformedFarApart(c: Config, files: Files, now: nat, rounds: seq<Round>)
    ensures var (r, _, log) := RunAll(c, Initial(files, now), rounds);
            && CacheOk(r.exec.cache) && Spaced(PerformedIn(log))
            && r.exec.cache.order == LastIds(PerformedIn(log), MAX_RECENT)
  {
    var log := RunAll(c, Initial(files, now), rounds).2;
    RunIsLookups(c, Initial(files, now), rounds);
    RunFollows(EMPTY_CACHE, [], AllCandidates(log));
    assert [] + PerformedIn(log) == PerformedIn(log);
  }

  lemma {:induction false} CandidateIds(s: Setup, e: Exec, calls: seq<Call>)
    requires CacheOk(e.cache)
    ensures forall k :: 0 <= k < |calls| ==> ExecuteAll(s, e, calls).1[k].id == calls[k].command.id
  {
    CallsAreLookups(s, e, calls);
    LookupIds(e.cache, Candidates(s, e, calls));
  }

  lemma {:induction false} LookupIds(cache: Cache, candidates: seq<Ack>)
    requires CacheOk(cache)
    ensures forall k :: 0 <= k < |candidates| ==> LookupAll(cache, candidates).1[k].id == candidates[k].id
    decreases |candidates|
  {
    if candidates != [] {
      if candidates[0].id !in cache.recent {
        RememberNew(cache, candidates[0]);
      }
      LookupIds(Lookup(cache, candidates[0]).0, candidates[1..]);
    }
  }

  /** Every command of an answer yields one ack under its own id, in order, unless the answer
      itself ends the process; and those acks go to the end of the queue. */
  lemma {:induction false} OneAckPerCommand(c: Config, files: Files, now: nat, front: seq<Round>, x: Round)
    requires RunAll(c, Initial(files, now), front).1 == Running && x.reply.Answer?
    ensures var (r, exit, log) := RunAll(c, Initial(files, now), front + [x]);
            var acks := log[|log| - 1].produced;
            exit == UpgradedByAck
            || (exit == Running && |acks| == |x.reply.commands| <= |r.pending|
                && r.pending[|r.pending| - |acks|..] == acks
                && forall k :: 0 <= k < |acks| ==> acks[k].id == x.reply.commands[k].command.id)
  {
    RunSnoc(c, Initial(files, now), front, x);
    PerformedFarApart(c, files, now, front);
    var a := x.reply;
    var r := RunAll(c, Initial(files, now), front).0;
    CandidateIds(c.setup, Confirmed(c, r, a).exec, CallsOf(a.commands, a.serverTime));
  }

  lemma {:induction false} ExecutedInTurn(s: Setup, e: Exec, calls: seq<Call>, k: nat)
    requires k < |calls|
    ensures ExecuteAll(s, e, calls).1[k] == ExecuteCall(s, ExecuteAll(s, e, calls[..k]).0, calls[k]).1
    decreases k
  {
    var e1 := ExecuteCall(s, e, calls[0]).0;
    if k > 0 {
      ExecutedInTurn(s, e1, calls[1..], k - 1);
      assert calls[..k][0] == calls[0] && calls[..k][1..] == calls[1..][..k - 1];
    }
  }

  lemma {:induction false} CallsPrefix(commands: seq<Given>, serverTime: int, k: nat)
    requires k < |commands|
    ensures CallsOf(commands, serverTime)[..k] == CallsOf(commands[..k], serverTime)
  {
  }

  /** Each of those acks is what Execute gives for its own command, at the server's time, after the
      commands before it; so CommandExecutor.AckSays tells what it says. */
  lemma {:induction false} AckOfCommand(c: Config, files: Files, now: nat, front: seq<Round>, x: Round, k: nat)
    requires RunAll(c, Initial(files, now), front).1 == Running && x.reply.Answer?
    requires RunAll(c, Initial(files, now), front + [x]).1 == Running && k < |x.reply.commands|
    ensures var r := RunAll(c, Initial(files, now), front).0;
            var log := RunAll(c, Initial(files, now), front + [x]).2;
            var acks := log[|log| - 1].produced;
            var (g, t) := (x.reply.commands[k], x.reply.serverTime);
            var e := ExecuteAll(c.setup, Confirmed(c, r, x.reply).exec, CallsOf(x.reply.commands[..k], t)).0;
            k < |acks| && acks[k] == Execute(c.setup, e, g.command, t, g.answers).1
  {
    RunSnoc(c, Initial(files, now), front, x);
    var r := RunAll(c, Initial(files, now), front).0;
    var calls := CallsOf(x.reply.commands, x.reply.serverTime);
    ExecutedInTurn(c.setup, Confirmed(c, r, x.reply).exec, calls, k);
    CallsPrefix(x.reply.commands, x.reply.serverTime, k);
  }

  /** A replay gives the first ack again, through any number of polls that perform fewer than
      200 other commands. */
  lemma {:induction false} ReplayAcrossPolls(c: Config, r: State, rounds: seq<Round>, id: Id)
    requires CacheOk(r.exec.cache) && id in r.exec.cache.recent
    ensures var log := RunAll(c, r, rounds).2;
            Age(r.exec.cache.order, id) + |Fresh(r.exec.cache, AllCandidates(log))| < MAX_RECENT ==>
              forall a :: a in AllProduced(log) && a.id == id ==> a == r.exec.cache.recent[id]
  {
    var log := RunAll(c, r, rounds).2;
    RunIsLookups(c, r, rounds);
    LookupIds(r.exec.cache, AllCandidates(log));
    if Age(r.exec.cache.order, id) + |Fresh(r.exec.cache, AllCandidates(log))| < MAX_RECENT {
      StaysCached(r.exec.cache, AllCandidates(log), id);
    }
  }
}
