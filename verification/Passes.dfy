/** What the interleavings of Quota charge and write: a pass of the tick or of a regeneration run
    on its own, and any interleaving of both with everything else. */
module Passes {
  import opened Machine
  import opened Counters
  import opened Ledger
  import opened LocalStore
  import opened Accounting
  import opened Generator
  import opened Quota
  import Links
  import StoreRuns

  // ----- One pass on its own -----

  /** `order` names every user that `deltas` has, once. */
  ghost predicate Visits(order: seq<Uuid>, deltas: Table) {
    && (forall i, j :: 0 <= i < j < |order| ==> order[i] != order[j])
    && (forall u :: u in order <==> u in deltas)
  }

  function TickAdds(order: seq<Uuid>): seq<Action> {
    if order == [] then [TickEnd] else [TickAdd(order[0])] + TickAdds(order[1..])
  }

  function TickRun(r: Snapshot, order: seq<Uuid>): seq<Action> {
    [TickCollect(r), TickDeltas] + TickAdds(order)
  }

  /** An AddTraffic for each user still to do, one after the other. */
  ghost predicate Finishes(s: State, e: State, todo: Table, crossed: bool) {
    && e.users == AccountAll(s.users, todo)
    && e == s.(users := e.users, tick := Idle, queued := e.queued)
    && e.queued == s.queued + if crossed || exists u :: CrossedBy(s.users, todo, u) then 1 else 0
  }

  lemma VisitsNext(order: seq<Uuid>, todo: Table)
    requires order != []
    ensures Visits(order, todo) <==> order[0] in todo && Visits(order[1..], todo - {order[0]})
  {
    var rest, left := order[1..], todo - {order[0]};
    if Visits(order, todo) {
      forall u ensures u in rest <==> u in left {
        assert u in rest ==> exists i :: 1 <= i < |order| && order[i] == u;
        assert u in order <==> u == order[0] || u in rest;
      }
      assert order[0] in order;
    }
    if order[0] in todo && Visits(rest, left) {
      assert forall i :: 1 <= i < |order| ==> order[i] == rest[i - 1];
      assert forall i :: 1 <= i < |order| ==> order[i] in left;
      assert forall u :: u in order <==> u == order[0] || u in rest;
    }
  }

  /** Crediting one user first makes no difference to the others. */
  lemma CreditFirst(users: LocalStore.Users, todo: Table, u: Uuid)
    requires u in todo
    ensures AccountAll(AddOne(users, todo, u), todo - {u}) == AccountAll(users, todo)
    ensures CrossesNow(users, todo, u) <==> CrossedBy(users, todo, u)
    ensures forall v :: CrossedBy(AddOne(users, todo, u), todo - {u}, v) <==> v != u && CrossedBy(users, todo, v)
  {
  }

  lemma {:induction false} TickFinishes(env: Env, s: State, order: seq<Uuid>)
    requires s.tick.Adding?
    ensures CanRun(env, s, TickAdds(order)) <==> Visits(order, s.tick.todo)
    ensures CanRun(env, s, TickAdds(order)) ==>
              Finishes(s, After(env, s, TickAdds(order)), s.tick.todo, s.tick.crossed)
    decreases |order|
  {
    var todo := s.tick.todo;
    var run := TickAdds(order);
    if order == [] {
      assert run == [TickEnd] && run[1..] == [];
      if todo == map[] {
        var e := Apply(env, s, TickEnd);
        assert CanRun(env, e, []) && After(env, e, []) == e;
        assert AccountAll(s.users, todo) == s.users;
      } else {
        var u :| u in todo;
        assert u !in order;
      }
    } else {
      var u := order[0];
      assert run[0] == TickAdd(u) && run[1..] == TickAdds(order[1..]);
      VisitsNext(order, todo);
      if u in todo {
        CreditFirst(s.users, todo, u);
        TickFinishes(env, Apply(env, s, TickAdd(u)), order[1..]);
      }
    }
  }

  /** A tick on its own credits every stored user with exactly the delta of its reading, in any
      order of the deltas and in none but those, remembers the reading, and queues one
      regeneration exactly when a delta took some user over the limit. */
  lemma {:induction false} TickPass(env: Env, s: State, r: Snapshot, order: seq<Uuid>)
    requires s.tick.Idle?
    ensures var deltas := DeltasOf(s.last, r);
            && (CanRun(env, s, TickRun(r, order)) <==> Visits(order, deltas))
            && (Visits(order, deltas) ==>
                  After(env, s, TickRun(r, order))
                  == s.(users := AccountAll(s.users, deltas), last := Remembered(s.last, r),
                  queued := s.queued + if exists u :: CrossedBy(s.users, deltas, u) then 1 else 0))
  {
    var run := TickRun(r, order);
    var s1 := Apply(env, s, TickCollect(r));
    var s2 := Apply(env, s1, TickDeltas);
    assert run[1..] == [TickDeltas] + TickAdds(order);
    assert run[1..][1..] == TickAdds(order);
    assert CanRun(env, s, run) <==> CanRun(env, s1, run[1..]);
    assert CanRun(env, s1, run[1..]) <==> CanRun(env, s2, TickAdds(order));
    TickFinishes(env, s2, order);
  }

  function RegenAdds(order: seq<Uuid>): seq<Action> {
    if order == [] then [RegenAccounted] else [RegenAdd(order[0])] + RegenAdds(order[1..])
  }

  function RegenPassRun(r: Snapshot, order: seq<Uuid>): seq<Action> {
    [RegenCollect(r), RegenDeltas] + RegenAdds(order)
  }

  lemma {:induction false} RegenFinishes(env: Env, s: State, order: seq<Uuid>)
    requires s.regen.Before? && s.regen.pass.Adding?
    ensures CanRun(env, s, RegenAdds(order)) <==> Visits(order, s.regen.pass.todo)
    ensures CanRun(env, s, RegenAdds(order)) ==>
              After(env, s, RegenAdds(order))
              == s.(users := AccountAll(s.users, s.regen.pass.todo), regen := Before(Idle, true))
    decreases |order|
  {
    var todo := s.regen.pass.todo;
    var run := RegenAdds(order);
    if order == [] {
      assert run == [RegenAccounted] && run[1..] == [];
      if todo == map[] {
        var e := Apply(env, s, RegenAccounted);
        assert CanRun(env, e, []) && After(env, e, []) == e;
        assert AccountAll(s.users, todo) == s.users;
      } else {
        var u :| u in todo;
        assert u !in order;
      }
    } else {
      var u := order[0];
      assert run[0] == RegenAdd(u) && run[1..] == RegenAdds(order[1..]);
      VisitsNext(order, todo);
      if u in todo {
        CreditFirst(s.users, todo, u);
        RegenFinishes(env, Apply(env, s, RegenAdd(u)), order[1..]);
      }
    }
  }

  /** The pass of a regeneration charges the same, and queues nothing. */
  lemma {:induction false} RegenPass(env: Env, s: State, r: Snapshot, order: seq<Uuid>)
    requires s.regen == Before(Idle, false)
    ensures var deltas := DeltasOf(s.last, r);
            && (CanRun(env, s, RegenPassRun(r, order)) <==> Visits(order, deltas))
            && (Visits(order, deltas) ==>
                  After(env, s, RegenPassRun(r, order))
                  == s.(users := AccountAll(s.users, deltas), last := Remembered(s.last, r),
                  regen := Before(Idle, true)))
  {
    var run := RegenPassRun(r, order);
    var s1 := Apply(env, s, RegenCollect(r));
    var s2 := Apply(env, s1, RegenDeltas);
    assert run[1..] == [RegenDeltas] + RegenAdds(order);
    assert run[1..][1..] == RegenAdds(order);
    assert CanRun(env, s, run) <==> CanRun(env, s1, run[1..]);
    assert CanRun(env, s1, run[1..]) <==> CanRun(env, s2, RegenAdds(order));
    RegenFinishes(env, s2, order);
  }

  // ----- Any interleaving: which calls the store sees -----

  /** The calls that a run makes to the store. AddTraffic ignores the outcome of its save. */
  ghost function CallsOf(env: Env, s: State, run: seq<Action>): seq<StoreRuns.StoreCall>
    requires CanRun(env, s, run)
    decreases |run|
  {
    if run == [] then [] else CallOf(s, run[0]) + CallsOf(env, Apply(env, s, run[0]), run[1..])
  }

  ghost function CallOf(s: State, a: Action): (calls: seq<StoreRuns.StoreCall>)
    requires Enabled(s, a)
    ensures |calls| <= 1
  {
    match a
    case UserChange(op, saveOk, now) => [StoreRuns.Changes(op, saveOk, now)]
    case TickAdd(u) => [StoreRuns.Credits(u, s.tick.todo[u].upload, s.tick.todo[u].download, true)]
    case RegenAdd(u) => [StoreRuns.Credits(u, s.regen.pass.todo[u].upload, s.regen.pass.todo[u].download, true)]
    case _ => []
  }

  // ----- Any interleaving: what is charged -----

  /** What a run does to the books: a pass counts where it hands its reading to the meter. */
  ghost function Happenings(env: Env, s: State, run: seq<Action>): seq<Happening>
    requires CanRun(env, s, run)
    decreases |run|
  {
    if run == [] then [] else Happens(s, run[0]) + Happenings(env, Apply(env, s, run[0]), run[1..])
  }

  ghost function Happens(s: State, a: Action): seq<Happening>
    requires Enabled(s, a)
  {
    match a
    case TickDeltas => [Pass(s.tick.reading)]
    case RegenDeltas => [Pass(s.regen.pass.reading)]
    case RegenReload(_) => [Restarted]
    case Crash => [Restarted]
    case RegenReset => [MeterReset]
    case _ => []
  }

  /** Charged by the meter and not yet credited. */
  function Waiting(p: PassState, k: Uuid): UserStats {
    if p.Adding? && k in p.todo then p.todo[k] else UserStats(0, 0)
  }

  function RegenWaiting(g: Regen, k: Uuid): UserStats {
    if g.Before? then Waiting(g.pass, k) else UserStats(0, 0)
  }

  /** A user's usage with what the two passes still hold for that user. */
  function Owed(s: State, k: Uuid): int
    requires k in s.users
  {
    var t, g := Waiting(s.tick, k), RegenWaiting(s.regen, k);
    s.users[k].trafficUsed + t.upload + t.download + g.upload + g.download
  }

  predicate NonNegativeStats(d: UserStats) {
    d.upload >= 0 && d.download >= 0
  }

  /** Nothing negative is stored, remembered or waiting for this user. */
  predicate Sound(s: State, k: Uuid) {
    && k in s.users && s.users[k].trafficUsed >= 0
    && NonNegativeStats(Last(s.last, k))
    && NonNegativeStats(Waiting(s.tick, k)) && NonNegativeStats(RegenWaiting(s.regen, k))
  }

  /** No operation of the run deletes the user, makes the record anew or zeroes the usage. */
  ghost predicate Undisturbed(env: Env, s: State, run: seq<Action>, k: Uuid)
    requires CanRun(env, s, run)
    decreases |run|
  {
    run == [] || (Keeps(s, run[0], k) && Undisturbed(env, Apply(env, s, run[0]), run[1..], k))
  }

  ghost predicate Keeps(s: State, a: Action, k: Uuid) {
    a.UserChange? ==>
      && !StoreRuns.Zeroes(StoreRuns.Changes(a.op, a.saveOk, a.now), k)
      && k in ApplyOp(s.users, a.op, a.saveOk, a.now).users
  }

  /** What the meter charges a user over a run of passes, in both directions. */
  function ChargedTo(h: seq<Happening>, last: Table, k: Uuid): (n: int)
    requires NonNegative(h, k) && NonNegativeStats(Last(last, k))
  {
    ProjectInRange(h, k, true);
    ProjectInRange(h, k, false);
    Charged(Project(h, k, true), Last(last, k).upload) + Charged(Project(h, k, false), Last(last, k).download)
  }

  /** One delta of a reading, both directions together. */
  function DeltaSum(last: Table, r: Snapshot, k: Uuid): int {
    if Seen(r, k) then DeltaOf(last, k, r[k].value).upload + DeltaOf(last, k, r[k].value).download else 0
  }

  lemma RestNonNegative(h: seq<Happening>, k: Uuid)
    requires h != [] && NonNegative(h, k)
    ensures NonNegative(h[1..], k)
  {
    assert forall i :: 0 <= i < |h[1..]| ==> h[1..][i] == h[i + 1];
  }

  lemma {:induction false} PassCharges(last: Table, r: Snapshot, rest: seq<Happening>, k: Uuid)
    requires NonNegative([Pass(r)] + rest, k) && NonNegative(rest, k) && NonNegativeStats(Last(last, k))
    ensures NonNegativeStats(Last(Remembered(last, r), k))
    ensures Seen(r, k) ==> NonNegativeStats(r[k].value) && NonNegativeStats(DeltaOf(last, k, r[k].value))
    ensures ChargedTo([Pass(r)] + rest, last, k) == DeltaSum(last, r, k) + ChargedTo(rest, Remembered(last, r), k)
    ensures ChargedTo(rest, Remembered(last, r), k) >= 0
  {
    var h := [Pass(r)] + rest;
    assert h[1..] == rest;
    PassFront(h, k, r);
    ProjectInRange(h, k, true);
    ProjectInRange(h, k, false);
    ProjectInRange(rest, k, true);
    ProjectInRange(rest, k, false);
    PassProjects(last, r, h, k, true);
    PassProjects(last, r, h, k, false);
    if Seen(r, k) {
      DeltaNonNegative(r[k].value.upload, Last(last, k).upload);
      DeltaNonNegative(r[k].value.download, Last(last, k).download);
    }
  }

  lemma {:induction false} RestartCharges(last: Table, rest: seq<Happening>, k: Uuid)
    requires NonNegative([Restarted] + rest, k) && NonNegative(rest, k) && NonNegativeStats(Last(last, k))
    ensures ChargedTo([Restarted] + rest, last, k) == ChargedTo(rest, last, k)
  {
    var h := [Restarted] + rest;
    assert h[1..] == rest;
    assert Project(h, k, true)[1..] == Project(rest, k, true);
    assert Project(h, k, false)[1..] == Project(rest, k, false);
  }

  lemma {:induction false} ResetCharges(last: Table, rest: seq<Happening>, k: Uuid)
    requires NonNegative([MeterReset] + rest, k) && NonNegative(rest, k) && NonNegativeStats(Last(last, k))
    ensures ChargedTo([MeterReset] + rest, last, k) == ChargedTo(rest, map[], k)
  {
    var h := [MeterReset] + rest;
    assert h[1..] == rest;
    assert Project(h, k, true)[1..] == Project(rest, k, true);
    assert Project(h, k, false)[1..] == Project(rest, k, false);
  }

  /** The delta a pass holds for a user right after Deltas is what the meter charged. */
  lemma DeltasWaiting(last: Table, r: Snapshot, k: Uuid)
    requires Seen(r, k) ==> NonNegativeStats(DeltaOf(last, k, r[k].value))
    ensures var w := Waiting(Adding(DeltasOf(last, r), false), k);
            NonNegativeStats(w) && w.upload + w.download == DeltaSum(last, r, k)
  {
  }

  /** One AddTraffic moves a user's delta from the pass to the usage, and nothing of the others. */
  lemma AddMoves(users: LocalStore.Users, todo: Table, crossed: bool, crossed': bool, u: Uuid, k: Uuid)
    requires u in todo && k in users && users[k].trafficUsed >= 0
    requires var w := Waiting(Adding(todo, crossed), k);
             NonNegativeStats(w) && users[k].trafficUsed + w.upload + w.download < TWO_63
    ensures var w, w' := Waiting(Adding(todo, crossed), k), Waiting(Adding(todo - {u}, crossed'), k);
            var users' := AddOne(users, todo, u);
            && k in users' && users'[k].trafficUsed >= 0 && NonNegativeStats(w')
            && users'[k].trafficUsed + w'.upload + w'.download == users[k].trafficUsed + w.upload + w.download
  {
  }

  lemma ChangeKeeps(s: State, op: UserOp, saveOk: bool, now: int, k: Uuid)
    requires WellKeyed(s.users) && k in s.users && Keeps(s, UserChange(op, saveOk, now), k)
    ensures var users' := ApplyOp(s.users, op, saveOk, now).users;
            k in users' && users'[k].trafficUsed == s.users[k].trafficUsed
  {
    var c := StoreRuns.Changes(op, saveOk, now);
    StoreRuns.CallUsage(s.users, c, k, s.users[k].trafficUsed);
  }

  lemma DeltasOwe(env: Env, s: State, a: Action, rest: seq<Happening>, k: Uuid)
    requires a.TickDeltas? || a.RegenDeltas?
    requires WellKeyed(s.users) && Enabled(s, a) && Sound(s, k) && Keeps(s, a, k)
    requires NonNegative(Happens(s, a) + rest, k) && NonNegative(rest, k)
    requires Owed(s, k) + ChargedTo(Happens(s, a) + rest, s.last, k) < TWO_63
    requires ChargedTo(Happens(s, a) + rest, s.last, k) >= 0
    ensures var s' := Apply(env, s, a);
            && Sound(s', k)
            && Owed(s', k) + ChargedTo(rest, s'.last, k) == Owed(s, k) + ChargedTo(Happens(s, a) + rest, s.last, k)
  {
    hide ChargedTo, DeltasOf, AddOne, ApplyOp, ConfigFor, ToUsers, CrossesNow, NonNegative;
    var r := if a.TickDeltas? then s.tick.reading else s.regen.pass.reading;
    PassCharges(s.last, r, rest, k);
    DeltasWaiting(s.last, r, k);
  }

  lemma AddsOwe(env: Env, s: State, a: Action, rest: seq<Happening>, k: Uuid)
    requires a.TickAdd? || a.RegenAdd?
    requires WellKeyed(s.users) && Enabled(s, a) && Sound(s, k) && Keeps(s, a, k)
    requires NonNegative(Happens(s, a) + rest, k) && NonNegative(rest, k)
    requires Owed(s, k) + ChargedTo(Happens(s, a) + rest, s.last, k) < TWO_63
    requires ChargedTo(Happens(s, a) + rest, s.last, k) >= 0
    ensures var s' := Apply(env, s, a);
            && Sound(s', k)
            && Owed(s', k) + ChargedTo(rest, s'.last, k) == Owed(s, k) + ChargedTo(Happens(s, a) + rest, s.last, k)
  {
    hide ChargedTo, DeltasOf, AddOne, ApplyOp, ConfigFor, ToUsers, CrossesNow, NonNegative;
    assert [] + rest == rest;
    if a.TickAdd? {
      AddMoves(s.users, s.tick.todo, s.tick.crossed, Apply(env, s, a).tick.crossed, a.uuid, k);
    } else {
      AddMoves(s.users, s.regen.pass.todo, s.regen.pass.crossed, false, a.uuid, k);
    }
  }

  /** Every action moves what is owed by exactly what it makes the meter charge. */
  lemma StepOwes(env: Env, s: State, a: Action, rest: seq<Happening>, k: Uuid)
    requires WellKeyed(s.users) && Enabled(s, a) && Sound(s, k) && Keeps(s, a, k)
    requires NonNegative(Happens(s, a) + rest, k) && NonNegative(rest, k)
    requires Owed(s, k) + ChargedTo(Happens(s, a) + rest, s.last, k) < TWO_63
    requires ChargedTo(Happens(s, a) + rest, s.last, k) >= 0
    ensures var s' := Apply(env, s, a);
            && Sound(s', k)
            && Owed(s', k) + ChargedTo(rest, s'.last, k) == Owed(s, k) + ChargedTo(Happens(s, a) + rest, s.last, k)
  {
    hide ChargedTo, DeltasOf, AddOne, ApplyOp, ConfigFor, ToUsers, CrossesNow, NonNegative;
    match a {
      case UserChange(op, saveOk, now) =>
        ChangeKeeps(s, op, saveOk, now, k);
        assert [] + rest == rest;
      case TickDeltas => DeltasOwe(env, s, a, rest, k);
      case RegenDeltas => DeltasOwe(env, s, a, rest, k);
      case TickAdd(_) => AddsOwe(env, s, a, rest, k);
      case RegenAdd(_) => AddsOwe(env, s, a, rest, k);
      case RegenReload(_) => RestartCharges(s.last, rest, k);
      case Crash => RestartCharges(s.last, rest, k);
      case RegenReset => ResetCharges(s.last, rest, k);
      case _ => assert [] + rest == rest;
    }
  }

  lemma ChargedToNonNegative(h: seq<Happening>, last: Table, k: Uuid)
    requires NonNegative(h, k) && NonNegativeStats(Last(last, k))
    ensures ChargedTo(h, last, k) >= 0
  {
    ProjectInRange(h, k, true);
    ProjectInRange(h, k, false);
    ChargedNonNegative(Project(h, k, true), Last(last, k).upload);
    ChargedNonNegative(Project(h, k, false), Last(last, k).download);
  }

  lemma NonNegativeRest(first: seq<Happening>, rest: seq<Happening>, k: Uuid)
    requires NonNegative(first + rest, k)
    ensures NonNegative(rest, k)
  {
    assert forall i :: 0 <= i < |rest| ==> rest[i] == (first + rest)[|first| + i];
  }

  /** In every interleaving of ticks, regenerations, reloads, crashes and changes to any user, the
      usage of a user whose record is kept, with what the two passes still hold, grows by
      exactly what the meter's readings charge. No delta is dropped, credited twice or to
      another user, whatever happens between Deltas and AddTraffic. */
  lemma {:induction false} InterleavingsConserve(env: Env, s: State, run: seq<Action>, k: Uuid)
    requires WellKeyed(s.users) && Sound(s, k)
    requires CanRun(env, s, run) && Undisturbed(env, s, run, k) && NonNegative(Happenings(env, s, run), k)
    requires Owed(s, k) + ChargedTo(Happenings(env, s, run), s.last, k) < TWO_63
    ensures var e := After(env, s, run);
            Sound(e, k) && Owed(e, k) == Owed(s, k) + ChargedTo(Happenings(env, s, run), s.last, k)
    decreases |run|
  {
    ChargedToNonNegative(Happenings(env, s, run), s.last, k);
    if run != [] {
      var s' := Apply(env, s, run[0]);
      var rest := Happenings(env, s', run[1..]);
      NonNegativeRest(Happens(s, run[0]), rest, k);
      StepOwes(env, s, run[0], rest, k);
      StepWellKeyed(env, s, run[0]);
      InterleavingsConserve(env, s', run[1..], k);
    }
  }

  /** Neither pass holds a delta. */
  predicate Settled(s: State) {
    !s.tick.Adding? && (s.regen.Before? ==> !s.regen.pass.Adding?)
  }

  /** So an interleaved run leaves a user with the usage that its readings leave one after the
      other: from a settled moment to a settled moment, when a delta is credited makes no
      difference. */
  lemma {:induction false} InterleavingIsSerial(env: Env, s: State, run: seq<Action>, k: Uuid)
    requires WellKeyed(s.users) && Sound(s, k) && Settled(s)
    requires CanRun(env, s, run) && Undisturbed(env, s, run, k) && NonNegative(Happenings(env, s, run), k)
    requires s.users[k].trafficUsed + ChargedTo(Happenings(env, s, run), s.last, k) < TWO_63
    requires Settled(After(env, s, run))
    ensures k in After(env, s, run).users && k in RunBooks(s.users, s.last, Happenings(env, s, run))
    ensures After(env, s, run).users[k].trafficUsed
            == RunBooks(s.users, s.last, Happenings(env, s, run))[k].trafficUsed
  {
    var h := Happenings(env, s, run);
    InterleavingsConserve(env, s, run, k);
    ProjectInRange(h, k, true);
    ProjectInRange(h, k, false);
    BooksFollowLedger(s.users, s.last, h, k);
  }

  /** The whole account of an agent that starts with an empty meter: usage at a settled moment is
      the usage at the start, plus the true total of both directions, less what restarts
      that nobody reset for lost, plus what a pass between a restart and its Reset doubled. */
  lemma {:induction false} AgentAccount(env: Env, s: State, run: seq<Action>, k: Uuid)
    requires WellKeyed(s.users) && Sound(s, k) && Settled(s) && s.last == map[]
    requires CanRun(env, s, run) && Undisturbed(env, s, run, k) && NonNegative(Happenings(env, s, run), k)
    requires forall up :: Monotone(Project(Happenings(env, s, run), k, up), 0)
    requires s.users[k].trafficUsed + ChargedTo(Happenings(env, s, run), map[], k) < TWO_63
    requires Settled(After(env, s, run))
    ensures k in After(env, s, run).users
    ensures var h := Happenings(env, s, run);
            var ups, downs := Project(h, k, true), Project(h, k, false);
            After(env, s, run).users[k].trafficUsed + Lost(ups, 0, false, false) + Lost(downs, 0, false, false)
            == s.users[k].trafficUsed + Total(ups) + Total(downs)
               + Doubled(ups, 0, false, false) + Doubled(downs, 0, false, false)
  {
    var h := Happenings(env, s, run);
    InterleavingsConserve(env, s, run, k);
    ChargedExactly(Project(h, k, true));
    ChargedExactly(Project(h, k, false));
  }

  // ----- Any interleaving: the store -----

  lemma {:induction false} AfterAllUsers(b: StoreRuns.Books, b': StoreRuns.Books, calls: seq<StoreRuns.StoreCall>)
    requires b.users == b'.users
    ensures StoreRuns.AfterAll(b, calls).users == StoreRuns.AfterAll(b', calls).users
    decreases |calls|
  {
    if calls != [] {
      AfterAllUsers(StoreRuns.After(b, calls[0]), StoreRuns.After(b', calls[0]), calls[1..]);
    }
  }

  lemma StepCalls(env: Env, s: State, a: Action)
    requires Enabled(s, a)
    ensures Apply(env, s, a).users
            == if CallOf(s, a) == [] then s.users else StoreRuns.UsersAfter(s.users, CallOf(s, a)[0])
  {
  }

  /** The users of any run are what its calls to the store leave, one call after another, so all
      that StoreRuns says of a sequence of calls holds of every interleaving. */
  lemma {:induction false} StoreFollows(env: Env, s: State, run: seq<Action>)
    requires CanRun(env, s, run)
    ensures After(env, s, run).users
            == StoreRuns.AfterAll(StoreRuns.Books(s.users, s.users), CallsOf(env, s, run)).users
    decreases |run|
  {
    hide Apply, Enabled;
    if run != [] {
      var s' := Apply(env, s, run[0]);
      var b, b' := StoreRuns.Books(s.users, s.users), StoreRuns.Books(s'.users, s'.users);
      var rest := CallsOf(env, s', run[1..]);
      StoreFollows(env, s', run[1..]);
      StepCalls(env, s, run[0]);
      CallsInTurn(b, b', CallOf(s, run[0]), rest);
    }
  }

  lemma {:induction false} CallsInTurn(b: StoreRuns.Books, b': StoreRuns.Books, first: seq<StoreRuns.StoreCall>,
                                       rest: seq<StoreRuns.StoreCall>)
    requires |first| <= 1
    requires b'.users == if first == [] then b.users else StoreRuns.UsersAfter(b.users, first[0])
    ensures StoreRuns.AfterAll(b, first + rest).users == StoreRuns.AfterAll(b', rest).users
  {
    if first == [] {
      assert first + rest == rest;
      AfterAllUsers(b, b', rest);
    } else {
      assert (first + rest)[1..] == rest;
      AfterAllUsers(StoreRuns.After(b, first[0]), b', rest);
    }
  }

  // ----- A whole regeneration -----

  /** Without a reading, or with its pass. */
  function Accounts(pass: Option<(Snapshot, seq<Uuid>)>): seq<Action> {
    if pass.Some? then RegenPassRun(pass.value.0, pass.value.1) else [RegenAccounted]
  }

  /** regenerateConfig without interference, from the lock to the end. */
  function RegenRun(pass: Option<(Snapshot, seq<Uuid>)>, list: seq<LocalUser>, writeOk: bool, startOk: bool,
                    now: int): seq<Action> {
    [RegenEnter] + Accounts(pass) + [RegenList(list), RegenWrite(writeOk, now)]
    + if writeOk then [RegenReload(startOk), RegenReset] else []
  }

  lemma {:induction false} RunsInTurn(env: Env, s: State, a: seq<Action>, b: seq<Action>)
    ensures CanRun(env, s, a + b) <==> CanRun(env, s, a) && CanRun(env, After(env, s, a), b)
    ensures CanRun(env, s, a + b) ==> After(env, s, a + b) == After(env, After(env, s, a), b)
    decreases |a|
  {
    if a == [] {
      assert a + b == b;
    } else {
      assert (a + b)[1..] == a[1..] + b;
      if Enabled(s, a[0]) {
        RunsInTurn(env, Apply(env, s, a[0]), a[1..], b);
      }
    }
  }

  lemma {:induction false} OneAction(env: Env, s: State, a: Action)
    ensures CanRun(env, s, [a]) <==> Enabled(s, a)
    ensures Enabled(s, a) ==> After(env, s, [a]) == Apply(env, s, a)
  {
    assert [a][1..] == [];
    if Enabled(s, a) {
      assert CanRun(env, Apply(env, s, a), []) && After(env, Apply(env, s, a), []) == Apply(env, s, a);
    }
  }

  lemma {:induction false} TwoActions(env: Env, s: State, a: Action, b: Action)
    ensures CanRun(env, s, [a, b]) <==> Enabled(s, a) && Enabled(Apply(env, s, a), b)
    ensures CanRun(env, s, [a, b]) ==> After(env, s, [a, b]) == Apply(env, Apply(env, s, a), b)
  {
    assert [a, b] == [a] + [b];
    RunsInTurn(env, s, [a], [b]);
    OneAction(env, s, a);
    if Enabled(s, a) {
      OneAction(env, Apply(env, s, a), b);
    }
  }

  function UsersThen(s: State, pass: Option<(Snapshot, seq<Uuid>)>): LocalStore.Users {
    if pass.Some? then AccountAll(s.users, DeltasOf(s.last, pass.value.0)) else s.users
  }

  function LastThen(s: State, pass: Option<(Snapshot, seq<Uuid>)>): Table {
    if pass.Some? then Remembered(s.last, pass.value.0) else s.last
  }

  lemma {:induction false} AccountsFirst(env: Env, s: State, pass: Option<(Snapshot, seq<Uuid>)>)
    requires s.regen.Free? && s.queued > 0
    ensures CanRun(env, s, [RegenEnter] + Accounts(pass))
            <==> (pass.Some? ==> Visits(pass.value.1, DeltasOf(s.last, pass.value.0)))
    ensures CanRun(env, s, [RegenEnter] + Accounts(pass)) ==>
              After(env, s, [RegenEnter] + Accounts(pass))
              == s.(users := UsersThen(s, pass), last := LastThen(s, pass), queued := s.queued - 1,
              regen := Before(Idle, true))
  {
    var s1 := Apply(env, s, RegenEnter);
    RunsInTurn(env, s, [RegenEnter], Accounts(pass));
    OneAction(env, s, RegenEnter);
    if pass.Some? {
      RegenPass(env, s1, pass.value.0, pass.value.1);
    } else {
      OneAction(env, s1, RegenAccounted);
    }
  }

  lemma {:induction false} ListAndWrite(env: Env, s: State, list: seq<LocalUser>, writeOk: bool, now: int)
    requires s.regen == Before(Idle, true)
    ensures var run := [RegenList(list), RegenWrite(writeOk, now)];
            && (CanRun(env, s, run) <==> ListsAll(list, s.users))
            && (CanRun(env, s, run) ==>
                  After(env, s, run)
                  == if writeOk
                  then s.(written := ConfigFor(env.settings, ToUsers(list), env.sni, now, env.hashes), regen := Written)
                  else s.(regen := Free))
  {
    TwoActions(env, s, RegenList(list), RegenWrite(writeOk, now));
  }

  lemma {:induction false} ReloadAndReset(env: Env, s: State, startOk: bool)
    requires s.regen.Written?
    ensures var run := [RegenReload(startOk), RegenReset];
            && CanRun(env, s, run)
            && After(env, s, run)
               == s.(loaded := if startOk then Some(s.written) else None, last := map[], regen := Free)
  {
    TwoActions(env, s, RegenReload(startOk), RegenReset);
  }

  /** What the settled state is when regenerateConfig has run on its own. A write that fails leaves
      the file, the process and the meter's readings as the pass left them. */
  function Regenerated(env: Env, s: State, pass: Option<(Snapshot, seq<Uuid>)>, list: seq<LocalUser>, writeOk: bool,
                       startOk: bool, now: int): State
    requires s.queued > 0
  {
    var config := ConfigFor(env.settings, ToUsers(list), env.sni, now, env.hashes);
    var accounted := s.(users := UsersThen(s, pass), last := LastThen(s, pass), queued := s.queued - 1);
    if writeOk
    then accounted.(written := config, loaded := if startOk then Some(config) else None, last := map[])
    else accounted
  }

  /** A regeneration on its own takes one from the queue, credits the reading before it lists the
      users, writes the configuration of exactly those users, restarts sing-box on it, and only
      then empties the meter. */
  lemma {:induction false} WholeRegeneration(env: Env, s: State, pass: Option<(Snapshot, seq<Uuid>)>,
                                             list: seq<LocalUser>, writeOk: bool, startOk: bool, now: int)
    requires s.regen.Free? && s.queued > 0
    ensures var run := RegenRun(pass, list, writeOk, startOk, now);
            && (CanRun(env, s, run)
                <==> (pass.Some? ==> Visits(pass.value.1, DeltasOf(s.last, pass.value.0)))
                     && ListsAll(list, UsersThen(s, pass)))
            && (CanRun(env, s, run) ==> After(env, s, run) == Regenerated(env, s, pass, list, writeOk, startOk, now))
  {
    var first, second := [RegenEnter] + Accounts(pass), [RegenList(list), RegenWrite(writeOk, now)];
    var third := if writeOk then [RegenReload(startOk), RegenReset] else [];
    AccountsFirst(env, s, pass);
    RunsInTurn(env, s, first + second, third);
    RunsInTurn(env, s, first, second);
    if CanRun(env, s, first) {
      var s1 := After(env, s, first);
      ListAndWrite(env, s1, list, writeOk, now);
      if CanRun(env, s1, second) && writeOk {
        ReloadAndReset(env, After(env, s1, second), startOk);
      }
    }
  }

  // ----- The queue, the file and the process over any run -----

  /** How many regenerations an action asks for. */
  ghost function Asked(s: State, a: Action): nat
    requires Enabled(s, a)
  {
    match a
    case UserChange(op, saveOk, now) => if ApplyOp(s.users, op, saveOk, now).fired then 1 else 0
    case ReloadCommand => 1
    case TickEnd => if TickCrossed(s) then 1 else 0
    case _ => 0
  }

  ghost function AllAsked(env: Env, s: State, run: seq<Action>): nat
    requires CanRun(env, s, run)
    decreases |run|
  {
    if run == [] then 0 else Asked(s, run[0]) + AllAsked(env, Apply(env, s, run[0]), run[1..])
  }

  function Entered(run: seq<Action>): nat {
    if run == [] then 0 else (if run[0].RegenEnter? then 1 else 0) + Entered(run[1..])
  }

  /** Every request for a regeneration brings one of its own: those still queued and those that have
      begun are those queued at the start, one for each callback, one for each reload command and
      one for each tick that saw a crossing. */
  lemma {:induction false} RegenerationsBalance(env: Env, s: State, run: seq<Action>)
    requires CanRun(env, s, run)
    ensures After(env, s, run).queued + Entered(run) == s.queued + AllAsked(env, s, run)
    decreases |run|
  {
    if run != [] {
      QueueStep(env, s, run[0]);
      RegenerationsBalance(env, Apply(env, s, run[0]), run[1..]);
    }
  }

  lemma QueueStep(env: Env, s: State, a: Action)
    requires Enabled(s, a)
    ensures Apply(env, s, a).queued + (if a.RegenEnter? then 1 else 0) == s.queued + Asked(s, a)
  {
  }

  /** Writes the file. */
  predicate Writes(a: Action) {
    a.RegenWrite? && a.ok
  }

  /** Starts or ends the process. */
  predicate Moves(a: Action) {
    a.RegenReload? || a.Crash? || a.Respawn?
  }

  lemma {:induction false} FileStays(env: Env, s: State, run: seq<Action>)
    requires CanRun(env, s, run) && forall i :: 0 <= i < |run| ==> !Writes(run[i])
    ensures After(env, s, run).written == s.written
    decreases |run|
  {
    if run != [] {
      assert !Writes(run[0]);
      assert Apply(env, s, run[0]).written == s.written;
      FileStays(env, Apply(env, s, run[0]), run[1..]);
    }
  }

  lemma {:induction false} ProcessStays(env: Env, s: State, run: seq<Action>)
    requires CanRun(env, s, run) && forall i :: 0 <= i < |run| ==> !Moves(run[i])
    ensures After(env, s, run).loaded == s.loaded
    decreases |run|
  {
    if run != [] {
      assert !Moves(run[0]);
      assert Apply(env, s, run[0]).loaded == s.loaded;
      ProcessStays(env, Apply(env, s, run[0]), run[1..]);
    }
  }

  /** A regeneration holds the lock: nothing but its own write ends the snapshot. */
  lemma {:induction false} SnapshotStays(env: Env, s: State, run: seq<Action>)
    requires s.regen.Listed? && CanRun(env, s, run) && forall i :: 0 <= i < |run| ==> !run[i].RegenWrite?
    ensures After(env, s, run).regen == s.regen
    decreases |run|
  {
    if run != [] {
      assert !run[0].RegenWrite?;
      assert Apply(env, s, run[0]).regen == s.regen;
      SnapshotStays(env, Apply(env, s, run[0]), run[1..]);
    }
  }

  /** The file is always the configuration of one whole listing: that of the regeneration whose write
      was the last to work, however much happened between its listing, its write and now. */
  lemma {:induction false} FileIsOneListing(env: Env, s: State, list: seq<LocalUser>, wait: seq<Action>, now: int,
                                            later: seq<Action>)
    requires CanRun(env, s, [RegenList(list)] + wait + [RegenWrite(true, now)] + later)
    requires forall i :: 0 <= i < |wait| ==> !wait[i].RegenWrite?
    requires forall i :: 0 <= i < |later| ==> !Writes(later[i])
    ensures ListsAll(list, s.users)
    ensures After(env, s, [RegenList(list)] + wait + [RegenWrite(true, now)] + later).written
            == ConfigFor(env.settings, ToUsers(list), env.sni, now, env.hashes)
  {
    var first, write := [RegenList(list)], [RegenWrite(true, now)];
    RunsInTurn(env, s, first + wait + write, later);
    RunsInTurn(env, s, first + wait, write);
    RunsInTurn(env, s, first, wait);
    OneAction(env, s, RegenList(list));
    var listed := After(env, s, first);
    SnapshotStays(env, listed, wait);
    OneAction(env, After(env, listed, wait), RegenWrite(true, now));
    FileStays(env, After(env, After(env, listed, wait), write), later);
  }

  /** Gets into a configuration made at `now`. */
  predicate ToServe(u: LocalUser, now: int) {
    && u.enabled && !(u.trafficLimit > 0 && u.trafficUsed >= u.trafficLimit)
    && !(u.expireAt.Some? && now > u.expireAt.value)
  }

  /** What a stored user logs in with. */
  function LoginOf(p: Protocol, u: LocalUser, h: Hashes): Credential {
    match p
    case SHADOWSOCKS => Shadowsocks(u.ssPassword)
    case VMESS => Vmess(u.uuid)
    case TROJAN => Trojan(h.secret("otun-trojan", u.uuid))
    case HYSTERIA2 => Hysteria2(h.secret("otun-hy2", u.uuid))
    case TUIC => Tuic(h.tuicId(u.uuid), h.secret("otun-tuic-pw", u.uuid))
    case _ => Vless(u.uuid, "xtls-rprx-vision")
  }

  lemma ListedUser(users: LocalStore.Users, list: seq<LocalUser>, u: User)
    requires ListsAll(list, users) && WellKeyed(users)
    ensures u in ToUsers(list) ==> u.uuid in users && u == ToUser(users[u.uuid])
    ensures u.uuid in users && u == ToUser(users[u.uuid]) ==> u in ToUsers(list)
  {
    if u.uuid in users && u == ToUser(users[u.uuid]) {
      assert u.uuid in users.Keys;
      var l :| l in list && l.uuid == u.uuid;
      var i :| 0 <= i < |list| && list[i] == l;
      assert ToUsers(list)[i] == u;
    }
  }

  lemma {:induction false} MeteredIff(users: LocalStore.Users, list: seq<LocalUser>, now: int, k: Uuid)
    requires ListsAll(list, users) && WellKeyed(users)
    ensures k in ActiveIds(ToUsers(list), now) <==> k in users && ToServe(users[k], now)
  {
    ActiveIdsExact(ToUsers(list), now, k);
    if k in users {
      var u := ToUser(users[k]);
      ListedUser(users, list, u);
      var i :| 0 <= i < |ToUsers(list)| && ToUsers(list)[i] == u;
      assert u.Active(now) <==> ToServe(users[k], now);
    }
    forall i | 0 <= i < |ToUsers(list)| && ToUsers(list)[i].uuid == k
      ensures k in users && ToUsers(list)[i] == ToUser(users[k])
    {
      ListedUser(users, list, ToUsers(list)[i]);
    }
  }

  lemma OneUser(l: LocalUser, p: Protocol, now: int, h: Hashes)
    requires Known(p)
    ensures ToUser(l).Active(now) <==> ToServe(l, now)
    ensures CredentialFor(p, ToUser(l), h) == LoginOf(p, l, h)
    ensures ToUser(l).uuid == l.uuid && ToUser(l).protocols == l.protocols
  {
  }

  lemma {:induction false} EnteredIff(users: LocalStore.Users, list: seq<LocalUser>, p: Protocol, now: int, h: Hashes,
                                      k: Uuid, c: Credential)
    requires ListsAll(list, users) && WellKeyed(users) && Known(p)
    ensures Entry(k, c) in EntriesFor(ToUsers(list), p, now, h)
            <==> k in users && ToServe(users[k], now) && p in users[k].protocols && c == LoginOf(p, users[k], h)
  {
    hide ToServe, LoginOf, CredentialFor, EntriesFor, ToUser, ListsAll;
    var us := ToUsers(list);
    EntriesExact(us, p, now, h, Entry(k, c));
    if k in users {
      OneUser(users[k], p, now, h);
      ListedUser(users, list, ToUser(users[k]));
    }
    if Entry(k, c) in EntriesFor(us, p, now, h) {
      var u :| u in us && u.Active(now) && p in u.protocols && Entry(k, c) == Entry(u.uuid, CredentialFor(p, u, h));
      ListedUser(users, list, u);
    }
  }

  /** The configuration of a listing, in terms of the stored users: who is metered, and who may log in
      where and with what. */
  lemma {:induction false} ListingMeans(env: Env, users: LocalStore.Users, list: seq<LocalUser>, now: int, k: Uuid,
                                        inbound: Inbound, c: Credential)
    requires ListsAll(list, users) && WellKeyed(users)
    requires inbound in ConfigFor(env.settings, ToUsers(list), env.sni, now, env.hashes).inbounds
    ensures k in ConfigFor(env.settings, ToUsers(list), env.sni, now, env.hashes).stats
            <==> k in users && ToServe(users[k], now)
    ensures Entry(k, c) in inbound.users
            <==> k in users && ToServe(users[k], now) && inbound.protocol in users[k].protocols
                 && c == LoginOf(inbound.protocol, users[k], env.hashes)
  {
    var lists := EntryLists(ToUsers(list), now, env.hashes);
    MeteredIff(users, list, now, k);
    Links.InboundOf(env.settings, lists, env.sni, env.hashes, inbound);
    EnteredIff(users, list, inbound.protocol, now, env.hashes, k, c);
  }

  /** The running process has the file as it was at its last start, and none runs after a crash or a
      restart that failed, until the next. */
  lemma {:induction false} ProcessHasFile(env: Env, s: State, a: Action, later: seq<Action>)
    requires CanRun(env, s, [a] + later) && Moves(a) && forall i :: 0 <= i < |later| ==> !Moves(later[i])
    ensures After(env, s, [a] + later).loaded
            == if a.Respawn? || a == RegenReload(true) then Some(s.written) else None
  {
    RunsInTurn(env, s, [a], later);
    OneAction(env, s, a);
    ProcessStays(env, Apply(env, s, a), later);
  }

  /** A process can crash exactly while it runs and come back exactly while it does not, and a reload
      command is always taken. */
  lemma {:induction false} OutsideEvents(env: Env, s: State)
    ensures CanRun(env, s, [Crash]) <==> s.loaded.Some?
    ensures CanRun(env, s, [Respawn]) <==> s.loaded.None?
    ensures CanRun(env, s, [ReloadCommand])
  {
    OneAction(env, s, Crash);
    OneAction(env, s, Respawn);
    OneAction(env, s, ReloadCommand);
  }
}
