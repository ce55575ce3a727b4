/** The long-poll loop against an honest server: internal/enroll/runner.go with executor.go. */
module Protocol {
  import opened Machine
  import opened Upgrade
  import opened CommandExecutor
  import opened PollLoop
  import opened PollLaws

  // ----- The honest server: it knows the ids of the acks it received -----

  function Received(got: set<Id>, r: State, x: Round): set<Id> {
    if x.received then got + AckIds(r.pending) else got
  }

  function IdsOf(acks: seq<Ack>): (ids: seq<Id>)
    ensures |ids| == |acks| && forall k :: 0 <= k < |ids| ==> ids[k] == acks[k].id
  {
    if acks == [] then [] else [acks[0].id] + IdsOf(acks[1..])
  }

  /** It answers only what it received, confirms only acks it has, and delivers, once each, only
      commands it has no ack for. Any request or answer may be lost. */
  ghost predicate HonestRound(got: set<Id>, r: State, x: Round) {
    x.reply.Answer? ==>
      var now := Received(got, r, x);
      var commands := x.reply.commands;
      && x.received
      && IdSet(x.reply.acked) <= now
      && (forall k :: 0 <= k < |commands| ==> commands[k].command.id !in now)
      && (forall i, j :: 0 <= i < j < |commands| ==> commands[i].command.id != commands[j].command.id)
  }

  ghost predicate HonestRun(c: Config, got: set<Id>, r: State, rounds: seq<Round>)
    decreases |rounds|
  {
    rounds == []
    || (HonestRound(got, r, rounds[0])
        && (Step(c, r, rounds[0]).1 == Running ==>
              HonestRun(c, Received(got, r, rounds[0]), Step(c, r, rounds[0]).0, rounds[1..])))
  }

  function GotAfter(c: Config, got: set<Id>, r: State, rounds: seq<Round>): set<Id>
    decreases |rounds|
  {
    if rounds == [] then got
    else if Step(c, r, rounds[0]).1 != Running then Received(got, r, rounds[0])
    else GotAfter(c, Received(got, r, rounds[0]), Step(c, r, rounds[0]).0, rounds[1..])
  }

  lemma {:induction false} IdIn(acks: seq<Ack>, id: Id)
    ensures id in AckIds(acks) <==> id in IdsOf(acks)
  {
  }

  lemma StepAccounts(c: Config, got: set<Id>, r: State, x: Round)
    requires HonestRound(got, r, x)
    ensures var (r1, _, entry) := Step(c, r, x);
            && got + AckIds(r.pending) + AckIds(entry.produced) <= Received(got, r, x) + AckIds(r1.pending)
            && Received(got, r, x) + AckIds(r1.pending) <= got + AckIds(r.pending) + AckIds(entry.produced)
  {
    var (r1, _, entry) := Step(c, r, x);
    StepPending(c, r, x);
    var kept := Without(r.pending, entry.acked);
    forall a | a in r.pending ensures a in kept || a.id in entry.acked {
      WithoutHas(r.pending, entry.acked, a);
    }
    forall a | a in kept ensures a in r.pending {
      WithoutHas(r.pending, entry.acked, a);
    }
    assert forall a :: a in r1.pending <==> a in kept || a in entry.produced;
  }

  /** No ack is lost and none is invented: what the server had, what was queued and what the run
      made is, at every moment, exactly what the server has and what is still queued. */
  lemma {:induction false} AcksAreConserved(c: Config, got: set<Id>, r: State, rounds: seq<Round>)
    requires HonestRun(c, got, r, rounds)
    ensures var (r1, _, log) := RunAll(c, r, rounds);
            GotAfter(c, got, r, rounds) + AckIds(r1.pending) == got + AckIds(r.pending) + AckIds(AllProduced(log))
    decreases |rounds|
  {
    if rounds != [] {
      var (r1, exit, entry) := Step(c, r, rounds[0]);
      StepAccounts(c, got, r, rounds[0]);
      var log := RunAll(c, r, rounds).2;
      if exit == Running {
        AcksAreConserved(c, Received(got, r, rounds[0]), r1, rounds[1..]);
        assert log[1..] == RunAll(c, r1, rounds[1..]).2;
        AckIdsConcat(entry.produced, AllProduced(log[1..]));
      } else {
        assert log[1..] == [] && entry.produced + [] == entry.produced;
      }
    }
  }

  lemma AckIdsConcat(a: seq<Ack>, b: seq<Ack>)
    ensures AckIds(a + b) == AckIds(a) + AckIds(b)
  {
    assert forall x :: x in a + b <==> x in a || x in b;
  }

  /** The process leaves for an upgrade only when the server has every ack it ever made. */
  lemma {:induction false} ExitOnlyWhenAllAcked(c: Config, got: set<Id>, files: Files, now: nat, rounds: seq<Round>)
    requires HonestRun(c, got, Initial(files, now), rounds)
    requires RunAll(c, Initial(files, now), rounds).1 == UpgradedByAck
    ensures AckIds(AllProduced(RunAll(c, Initial(files, now), rounds).2))
            <= GotAfter(c, got, Initial(files, now), rounds)
  {
    AcksAreConserved(c, got, Initial(files, now), rounds);
    ExitEmpties(c, Initial(files, now), rounds);
  }

  lemma {:induction false} ExitEmpties(c: Config, r: State, rounds: seq<Round>)
    requires RunAll(c, r, rounds).1 == UpgradedByAck
    ensures RunAll(c, r, rounds).0.pending == [] && RunAll(c, r, rounds).0.exec.pendingExit
    decreases |rounds|
  {
    var (r1, exit, _) := Step(c, r, rounds[0]);
    if exit == Running {
      ExitEmpties(c, r1, rounds[1..]);
    }
  }

  /** And it does leave: with an upgrade pending, the first answer that confirms what its request
      carried ends the process. */
  lemma FullConfirmationExits(c: Config, r: State, x: Round)
    requires r.exec.pendingExit && x.reply.Answer?
    ensures Step(c, r, x).1 == UpgradedByAck <==> AckIds(r.pending) <= IdSet(x.reply.acked)
  {
    var done := IdSet(x.reply.acked);
    var left := Without(r.pending, done);
    forall a ensures a in left <==> a in r.pending && a.id !in done {
      WithoutHas(r.pending, done, a);
    }
    if left != [] {
      assert left[0].id in AckIds(r.pending);
    }
  }

  // ----- Exactly once -----

  lemma {:induction false} AllFresh(cache: Cache, candidates: seq<Ack>)
    requires CacheOk(cache) && NoDups(IdsOf(candidates))
    requires forall a :: a in candidates ==> a.id !in cache.recent
    ensures Fresh(cache, candidates) == IdsOf(candidates)
    ensures LookupAll(cache, candidates).1 == candidates
    ensures CacheOk(LookupAll(cache, candidates).0)
    ensures LookupAll(cache, candidates).0.recent.Keys <= cache.recent.Keys + AckIds(candidates)
    decreases |candidates|
  {
    if candidates != [] {
      var first, rest := candidates[0], candidates[1..];
      NewKeys(cache, first);
      FirstIsNew(candidates);
      AllFresh(Remember(cache, first), rest);
      assert [first] + rest == candidates;
    }
  }

  lemma NewKeys(cache: Cache, ack: Ack)
    requires CacheOk(cache) && ack.id !in cache.recent
    ensures CacheOk(Remember(cache, ack)) && Remember(cache, ack).recent.Keys <= cache.recent.Keys + {ack.id}
  {
    RememberNew(cache, ack);
    var after := Remember(cache, ack);
    assert forall id :: id in after.recent ==> id in after.order;
  }

  lemma {:induction false} FirstIsNew(acks: seq<Ack>)
    requires acks != [] && NoDups(IdsOf(acks))
    ensures NoDups(IdsOf(acks[1..])) && (forall a :: a in acks[1..] ==> a.id != acks[0].id)
    ensures AckIds(acks) == {acks[0].id} + AckIds(acks[1..])
  {
    var ids, rest := IdsOf(acks), acks[1..];
    assert ids[1..] == IdsOf(rest);
    forall a | a in rest ensures a.id != ids[0] {
      IdIn(rest, a.id);
    }
    AckIdsConcat([acks[0]], rest);
    assert [acks[0]] + rest == acks;
  }

  /** What the agent may be told about again: ids the server has, and ids still to be sent. */
  function Known(got: set<Id>, r: State): set<Id> {
    got + AckIds(r.pending)
  }

  lemma StepOnce(c: Config, got: set<Id>, r: State, x: Round)
    requires HonestRound(got, r, x) && CacheOk(r.exec.cache) && r.exec.cache.recent.Keys <= Known(got, r)
    ensures var (r1, _, entry) := Step(c, r, x);
            && Fresh(r.exec.cache, entry.candidates) == IdsOf(entry.candidates) && NoDups(IdsOf(entry.candidates))
            && entry.produced == entry.candidates
            && AckIds(entry.candidates) !! Known(got, r)
            && CacheOk(r1.exec.cache) && r1.exec.cache.recent.Keys <= Known(got, r) + AckIds(entry.candidates)
  {
    var entry := Step(c, r, x).2;
    StepCache(c, r, x);
    CandidatesFollowCommands(c, r, x);
    AllFresh(r.exec.cache, entry.candidates);
  }

  lemma CandidatesFollowCommands(c: Config, r: State, x: Round)
    ensures var candidates := Step(c, r, x).2.candidates;
            candidates == []
            || (x.reply.Answer? && |candidates| == |x.reply.commands|
                && forall k :: 0 <= k < |candidates| ==> candidates[k].id == x.reply.commands[k].command.id)
  {
    if x.reply.Answer? {
      var a := x.reply;
      CallsAreLookups(c.setup, Confirmed(c, r, a).exec, CallsOf(a.commands, a.serverTime));
    }
  }

  lemma {:induction false} RunOnce(c: Config, got: set<Id>, r: State, rounds: seq<Round>)
    requires HonestRun(c, got, r, rounds) && CacheOk(r.exec.cache) && r.exec.cache.recent.Keys <= Known(got, r)
    ensures var all := AllCandidates(RunAll(c, r, rounds).2);
            && Fresh(r.exec.cache, all) == IdsOf(all) && NoDups(IdsOf(all)) && AckIds(all) !! Known(got, r)
            && AllProduced(RunAll(c, r, rounds).2) == all
    decreases |rounds|
  {
    if rounds != [] {
      var (r1, exit, entry) := Step(c, r, rounds[0]);
      var log := RunAll(c, r, rounds).2;
      StepOnce(c, got, r, rounds[0]);
      if exit == Running {
        var got1 := Received(got, r, rounds[0]);
        StepAccounts(c, got, r, rounds[0]);
        RunOnce(c, got1, r1, rounds[1..]);
        assert log[1..] == RunAll(c, r1, rounds[1..]).2;
        var rest := AllCandidates(log[1..]);
        StepCache(c, r, rounds[0]);
        LookupConcat(r.exec.cache, entry.candidates, rest);
        AckIdsConcat(entry.candidates, rest);
        JoinNoDups(entry.candidates, rest);
      } else {
        assert log[1..] == [] && entry.candidates + [] == entry.candidates && entry.produced + [] == entry.produced;
      }
    }
  }

  lemma {:induction false} IdsConcat(a: seq<Ack>, b: seq<Ack>)
    ensures IdsOf(a + b) == IdsOf(a) + IdsOf(b)
  {
    if a == [] {
      assert a + b == b;
    } else {
      assert (a + b)[1..] == a[1..] + b;
      IdsConcat(a[1..], b);
    }
  }

  lemma NoDupsConcat(a: seq<Id>, b: seq<Id>)
    requires NoDups(a) && NoDups(b) && forall id :: id in a ==> id !in b
    ensures NoDups(a + b)
  {
    assert forall i :: 0 <= i < |a| ==> a[i] in a;
    assert forall i :: 0 <= i < |b| ==> b[i] in b;
  }

  lemma {:induction false} JoinNoDups(a: seq<Ack>, b: seq<Ack>)
    requires NoDups(IdsOf(a)) && NoDups(IdsOf(b)) && AckIds(a) !! AckIds(b)
    ensures IdsOf(a + b) == IdsOf(a) + IdsOf(b) && NoDups(IdsOf(a + b))
  {
    IdsConcat(a, b);
    forall id | id in IdsOf(a) ensures id !in IdsOf(b) {
      IdIn(a, id);
      IdIn(b, id);
    }
    NoDupsConcat(IdsOf(a), IdsOf(b));
  }

  // ----- What arrives -----

  /** The ids of the commands that a poll brings. */
  function Brought(x: Round): (ids: seq<Id>)
    ensures x.reply.Answer? ==>
              |ids| == |x.reply.commands| && forall k :: 0 <= k < |ids| ==> ids[k] == x.reply.commands[k].command.id
    ensures !x.reply.Answer? ==> ids == []
  {
    if x.reply.Answer? then CommandIds(x.reply.commands) else []
  }

  function CommandIds(commands: seq<Given>): (ids: seq<Id>)
    ensures |ids| == |commands| && forall k :: 0 <= k < |ids| ==> ids[k] == commands[k].command.id
  {
    if commands == [] then [] else [commands[0].command.id] + CommandIds(commands[1..])
  }

  /** The ids of all commands that a list of polls brings, in order. */
  function Delivered(rounds: seq<Round>): seq<Id> {
    if rounds == [] then [] else Brought(rounds[0]) + Delivered(rounds[1..])
  }

  /** How many of a run's polls have their commands executed: all that were made, but for an
      answer that ends the process. */
  function Handled(c: Config, r: State, rounds: seq<Round>): nat {
    var (_, exit, log) := RunAll(c, r, rounds);
    if exit == UpgradedByAck && log != [] then |log| - 1 else |log|
  }

  lemma StepHandles(c: Config, r: State, x: Round)
    ensures var (_, exit, entry) := Step(c, r, x);
            IdsOf(entry.candidates) == if exit == UpgradedByAck then [] else Brought(x)
  {
    if x.reply.Answer? {
      var a := x.reply;
      CallsAreLookups(c.setup, Confirmed(c, r, a).exec, CallsOf(a.commands, a.serverTime));
    }
  }

  lemma DeliveredFront(rounds: seq<Round>, n: nat)
    requires 0 < n <= |rounds|
    ensures Delivered(rounds[..n]) == Brought(rounds[0]) + Delivered(rounds[1..][..n - 1])
  {
    assert rounds[..n][1..] == rounds[1..][..n - 1];
  }

  lemma {:induction false} LogNotEmpty(c: Config, r: State, rounds: seq<Round>)
    ensures RunAll(c, r, rounds).2 == [] ==> RunAll(c, r, rounds).1 == Running
  {
  }

  lemma {:induction false} RunCons(c: Config, r: State, rounds: seq<Round>)
    requires rounds != []
    ensures var (r1, exit, entry) := Step(c, r, rounds[0]);
            if exit == Running then
              && RunAll(c, r, rounds).2 == [entry] + RunAll(c, r1, rounds[1..]).2
              && Handled(c, r, rounds) == 1 + Handled(c, r1, rounds[1..])
            else
              && RunAll(c, r, rounds).2 == [entry]
              && Handled(c, r, rounds) == if exit == UpgradedByAck then 0 else 1
  {
    var (r1, exit, entry) := Step(c, r, rounds[0]);
    if exit == Running {
      LogNotEmpty(c, r1, rounds[1..]);
    }
  }

  lemma {:induction false} CandidatesCons(entry: Entry, log: seq<Entry>)
    ensures IdsOf(AllCandidates([entry] + log)) == IdsOf(entry.candidates) + IdsOf(AllCandidates(log))
  {
    assert ([entry] + log)[1..] == log;
    IdsConcat(entry.candidates, AllCandidates(log));
  }

  lemma {:induction false} CandidatesAreDelivered(c: Config, r: State, rounds: seq<Round>)
    ensures Handled(c, r, rounds) <= |rounds|
    ensures IdsOf(AllCandidates(RunAll(c, r, rounds).2)) == Delivered(rounds[..Handled(c, r, rounds)])
    decreases |rounds|
  {
    if rounds != [] {
      var (r1, exit, entry) := Step(c, r, rounds[0]);
      RunCons(c, r, rounds);
      StepHandles(c, r, rounds[0]);
      if exit == Running {
        CandidatesAreDelivered(c, r1, rounds[1..]);
        CandidatesCons(entry, RunAll(c, r1, rounds[1..]).2);
        DeliveredFront(rounds, Handled(c, r, rounds));
      } else {
        CandidatesCons(entry, []);
        assert [entry] + [] == [entry];
        if exit != UpgradedByAck {
          DeliveredFront(rounds, 1);
          assert rounds[1..][..0] == [];
        }
      }
    }
  }

  /** Exactly once: against an honest server, with any losses on the way, a process performs
      the commands that reach it, all of them and each once, in the order of arrival, and none
      that the server already had an ack for. The one exception is the answer that ends the
      process: its commands are neither performed nor acknowledged. */
  lemma {:induction false} ExactlyOnce(c: Config, got: set<Id>, files: Files, now: nat, rounds: seq<Round>)
    requires HonestRun(c, got, Initial(files, now), rounds)
    ensures Handled(c, Initial(files, now), rounds) <= |rounds|
    ensures var (_, exit, log) := RunAll(c, Initial(files, now), rounds);
            var arrived := Delivered(rounds[..Handled(c, Initial(files, now), rounds)]);
            && PerformedIn(log) == arrived == IdsOf(AllProduced(log)) && NoDups(arrived)
            && (forall id :: id in arrived ==> id !in got)
            && Handled(c, Initial(files, now), rounds) == if exit == UpgradedByAck then |log| - 1 else |log|
  {
    LogNotEmpty(c, Initial(files, now), rounds);
    var log := RunAll(c, Initial(files, now), rounds).2;
    RunOnce(c, got, Initial(files, now), rounds);
    CandidatesAreDelivered(c, Initial(files, now), rounds);
    forall id | id in PerformedIn(log) ensures id !in got {
      IdIn(AllCandidates(log), id);
    }
  }

  // ----- When the server has an ack -----

  /** Some request of the run, from the `from`-th on, arrived. */
  ghost predicate SomeArrives(rounds: seq<Round>, from: nat, polls: nat)
    requires polls <= |rounds|
  {
    exists j :: from <= j < polls && rounds[j].received
  }

  lemma {:induction false} GotGrows(c: Config, got: set<Id>, r: State, rounds: seq<Round>)
    ensures got <= GotAfter(c, got, r, rounds)
    decreases |rounds|
  {
    if rounds != [] && Step(c, r, rounds[0]).1 == Running {
      GotGrows(c, Received(got, r, rounds[0]), Step(c, r, rounds[0]).0, rounds[1..]);
    }
  }

  lemma {:induction false} LogFits(c: Config, r: State, rounds: seq<Round>)
    ensures |RunAll(c, r, rounds).2| <= |rounds|
    decreases |rounds|
  {
    if rounds != [] && Step(c, r, rounds[0]).1 == Running {
      LogFits(c, Step(c, r, rounds[0]).0, rounds[1..]);
    }
  }

  lemma ArrivesCons(rounds: seq<Round>, from: nat, polls: nat)
    requires 0 < polls <= |rounds|
    ensures SomeArrives(rounds, 0, polls) <==> rounds[0].received || SomeArrives(rounds[1..], 0, polls - 1)
    ensures SomeArrives(rounds, from + 1, polls) <==> SomeArrives(rounds[1..], from, polls - 1)
  {
    assert forall j :: 1 <= j < |rounds| ==> rounds[j] == rounds[1..][j - 1];
    if SomeArrives(rounds[1..], from, polls - 1) {
      var j :| from <= j < polls - 1 && rounds[1..][j].received;
      assert rounds[j + 1].received;
    }
    if SomeArrives(rounds[1..], 0, polls - 1) {
      var j :| 0 <= j < polls - 1 && rounds[1..][j].received;
      assert rounds[j + 1].received;
    }
  }

  /** An ack in the queue, which the server does not have, reaches it with the first request
      that arrives. */
  lemma {:induction false} QueuedReachesIff(c: Config, got: set<Id>, r: State, rounds: seq<Round>, a: Ack)
    requires HonestRun(c, got, r, rounds) && a in r.pending && a.id !in got
    ensures |RunAll(c, r, rounds).2| <= |rounds|
    ensures a.id in GotAfter(c, got, r, rounds) <==> SomeArrives(rounds, 0, |RunAll(c, r, rounds).2|)
    decreases |rounds|
  {
    LogFits(c, r, rounds);
    if rounds != [] {
      var x := rounds[0];
      var (r1, exit, _) := Step(c, r, x);
      RunCons(c, r, rounds);
      ArrivesCons(rounds, 0, |RunAll(c, r, rounds).2|);
      if x.received {
        assert a.id in AckIds(r.pending);
        if exit == Running {
          GotGrows(c, Received(got, r, x), r1, rounds[1..]);
        }
      } else if exit == Running {
        assert r1.pending == r.pending;
        QueuedReachesIff(c, got, r1, rounds[1..], a);
      }
    }
  }

  lemma MadeNow(c: Config, got: set<Id>, r: State, x: Round, a: Ack)
    requires HonestRound(got, r, x) && CacheOk(r.exec.cache) && r.exec.cache.recent.Keys <= Known(got, r)
    requires a in Step(c, r, x).2.produced
    ensures a.id !in Received(got, r, x) && a in Step(c, r, x).0.pending
  {
    StepOnce(c, got, r, x);
    StepPending(c, r, x);
    assert a.id in AckIds(Step(c, r, x).2.candidates);
  }

  lemma NextKnown(c: Config, got: set<Id>, r: State, x: Round)
    requires HonestRound(got, r, x) && CacheOk(r.exec.cache) && r.exec.cache.recent.Keys <= Known(got, r)
    ensures var r1 := Step(c, r, x).0;
            CacheOk(r1.exec.cache) && r1.exec.cache.recent.Keys <= Known(Received(got, r, x), r1)
  {
    StepOnce(c, got, r, x);
    StepAccounts(c, got, r, x);
  }

  /** When an honest server has an ack that the run made in its i-th poll: exactly when some
      later request arrived, whatever became of its answer, and however the run ended. */
  lemma {:induction false} AckReachesIff(c: Config, got: set<Id>, r: State, rounds: seq<Round>, i: nat, a: Ack)
    requires HonestRun(c, got, r, rounds) && CacheOk(r.exec.cache) && r.exec.cache.recent.Keys <= Known(got, r)
    requires i < |RunAll(c, r, rounds).2| && a in RunAll(c, r, rounds).2[i].produced
    ensures |RunAll(c, r, rounds).2| <= |rounds|
    ensures a.id in GotAfter(c, got, r, rounds) <==> SomeArrives(rounds, i + 1, |RunAll(c, r, rounds).2|)
    decreases |rounds|
  {
    hide Step;
    var (r1, exit, _) := Step(c, r, rounds[0]);
    var got1 := Received(got, r, rounds[0]);
    LogFits(c, r, rounds);
    RunCons(c, r, rounds);
    if i == 0 {
      MadeNow(c, got, r, rounds[0], a);
    }
    if exit == Running {
      ArrivesCons(rounds, i, |RunAll(c, r, rounds).2|);
      if i == 0 {
        QueuedReachesIff(c, got1, r1, rounds[1..], a);
      } else {
        NextKnown(c, got, r, rounds[0]);
        AckReachesIff(c, got1, r1, rounds[1..], i - 1, a);
      }
    }
  }
}
