/** The other half of quota enforcement: users who are to be served again get back into the
    configuration. Over the same interleavings of cmd/agent/main.go as Quota. */
module Restoration {
  import opened Machine
  import Counters
  import opened LocalStore
  import opened Generator
  import opened Quota

  predicate ExpiredAt(u: LocalUser, t: int) {
    u.expireAt.Some? && t > u.expireAt.value
  }

  /** To be served at the instant `t`. */
  predicate Due(users: LocalStore.Users, k: Uuid, t: int) {
    Wanted(users, k) && !ExpiredAt(users[k], t)
  }

  // ----- Who becomes due without a regeneration being queued -----

  predicate Queues(s: State, a: Action) {
    a.UserChange? && ApplyOp(s.users, a.op, a.saveOk, a.now).fired
  }

  ghost predicate QuietlyDue(env: Env, s: State, a: Action, k: Uuid, t: int)
    requires Enabled(s, a)
  {
    !Due(s.users, k, t) && Due(Apply(env, s, a).users, k, t) && !Queues(s, a)
  }

  /** Stopped for quota alone. */
  predicate OnlyOverQuota(users: LocalStore.Users, k: Uuid, t: int) {
    k in users && users[k].enabled && users[k].OverQuota() && !ExpiredAt(users[k], t)
  }

  /** A credit that takes the usage past 64 bits. */
  predicate Overflows(users: LocalStore.Users, todo: Counters.Table, u: Uuid, k: Uuid)
    requires u in todo
  {
    var sum := Wrap(todo[u].upload + todo[u].download);
    u == k && k in users && sum > 0 && users[k].trafficUsed + sum >= TWO_63
  }

  lemma CreditIff(users: LocalStore.Users, todo: Counters.Table, u: Uuid, k: Uuid, t: int)
    requires u in todo
    ensures !Due(users, k, t) && Due(AddOne(users, todo, u), k, t)
            <==> OnlyOverQuota(users, k, t) && Overflows(users, todo, u, k)
  {
  }

  lemma ChangeIff(users: LocalStore.Users, op: UserOp, now: int, k: Uuid, t: int)
    requires WellKeyed(users)
    ensures var e := ApplyOp(users, op, true, now);
            !Due(users, k, t) && Due(e.users, k, t) && !e.fired
            <==> op == ResetTraffic(k) && OnlyOverQuota(users, k, t)
  {
    OpIsLocal(users, op, true, now, k);
  }

  /** Exactly how that happens when nothing fails: ResetTraffic, which never starts the callback,
      on a user who was stopped for quota, or a credit to such a user that overflows 64 bits. */
  lemma QuietlyDueIff(env: Env, s: State, a: Action, k: Uuid, t: int)
    requires WellKeyed(s.users) && Enabled(s, a) && !Fails(s, a)
    ensures QuietlyDue(env, s, a, k, t) <==>
            && OnlyOverQuota(s.users, k, t)
            && ((a.UserChange? && a.op == ResetTraffic(k))
                || (a.TickAdd? && Overflows(s.users, s.tick.todo, a.uuid, k))
                || (a.RegenAdd? && Overflows(s.users, s.regen.pass.todo, a.uuid, k)))
  {
    match a {
      case UserChange(op, saveOk, now) =>
        if saveOk {
          ChangeIff(s.users, op, now, k, t);
        } else {
          FailedSaveChangesNothing(s.users, op, now);
        }
      case TickAdd(u) => CreditIff(s.users, s.tick.todo, u, k, t);
      case RegenAdd(u) => CreditIff(s.users, s.regen.pass.todo, u, k, t);
      case _ =>
    }
  }

  /** An operation whose save would fail, but that does not fail, never gets to its save. */
  lemma FailedSaveChangesNothing(users: LocalStore.Users, op: UserOp, now: int)
    requires !ApplyOp(users, op, false, now).outcome.SaveFailed?
    ensures ApplyOp(users, op, false, now).users == users && (op.ResetTraffic? ==> op.target !in users)
  {
  }

  // ----- The invariant -----

  /** A configuration made from this snapshot by the instant `t` serves `k`. */
  predicate Serving(users: seq<User>, k: Uuid, t: int) {
    exists i :: 0 <= i < |users| && users[i].uuid == k && users[i].Active(t)
  }

  predicate Restoring(s: State, k: Uuid, t: int) {
    s.regen.Listed? && Serving(s.regen.users, k, t)
  }

  /** For a user who is to be served: missing from the file, from the pending snapshot or from the
      running sing-box means that what brings the user back is already under way. */
  predicate Owed(s: State, k: Uuid, t: int) {
    && (k !in s.written.stats ==> Coming(s) || Restoring(s, k, t))
    && (s.regen.Listed? && !Serving(s.regen.users, k, t) ==> Coming(s))
    && (s.loaded.Some? && k !in s.loaded.value.stats ==>
          Coming(s) || Restoring(s, k, t) || (s.regen.Written? && k in s.written.stats))
  }

  lemma SnapshotServes(users: LocalStore.Users, list: seq<LocalUser>, k: Uuid, t: int)
    requires ListsAll(list, users) && Due(users, k, t)
    ensures Serving(ToUsers(list), k, t)
  {
    assert k in set l | l in list :: l.uuid;
    var l :| l in list && l.uuid == k;
    var i :| 0 <= i < |list| && list[i] == l;
    assert ToUsers(list)[i].uuid == k && ToUsers(list)[i].Active(t);
  }

  lemma WrittenServes(env: Env, users: seq<User>, now: int, k: Uuid, t: int)
    requires Serving(users, k, t) && now <= t
    ensures k in ConfigFor(env.settings, users, env.sni, now, env.hashes).stats
  {
    ActiveIdsExact(users, now, k);
    var i :| 0 <= i < |users| && users[i].uuid == k && users[i].Active(t);
    assert users[i].Active(now);
  }

  lemma StepOwes(env: Env, s: State, a: Action, k: Uuid, t: int)
    requires WellKeyed(s.users) && Enabled(s, a) && !Fails(s, a) && (a.RegenWrite? ==> a.now <= t)
    requires !QuietlyDue(env, s, a, k, t) && (Due(s.users, k, t) ==> Owed(s, k, t))
    ensures Due(Apply(env, s, a).users, k, t) ==> Owed(Apply(env, s, a), k, t)
  {
    var s' := Apply(env, s, a);
    if Due(s'.users, k, t) && !Due(s.users, k, t) {
      assert s'.queued > 0;
    } else if Due(s'.users, k, t) {
      DueStepOwes(env, s, a, k, t);
    }
  }

  lemma DueStepOwes(env: Env, s: State, a: Action, k: Uuid, t: int)
    requires Enabled(s, a) && !Fails(s, a) && (a.RegenWrite? ==> a.now <= t)
    requires Due(s.users, k, t) && Owed(s, k, t)
    ensures Owed(Apply(env, s, a), k, t)
  {
    match a {
      case RegenList(list) => SnapshotServes(s.users, list, k, t);
      case RegenWrite(_, now) =>
        if Serving(s.regen.users, k, t) {
          WrittenServes(env, s.regen.users, now, k, t);
        }
      case _ =>
    }
  }

  /** Nothing fails, every write is over by `t`, and nobody makes `k` due without a callback. */
  ghost predicate Regular(env: Env, s: State, run: seq<Action>, k: Uuid, t: int)
    requires CanRun(env, s, run)
    decreases |run|
  {
    run == []
    || (&& !Fails(s, run[0]) && (run[0].RegenWrite? ==> run[0].now <= t) && !QuietlyDue(env, s, run[0], k, t)
        && Regular(env, Apply(env, s, run[0]), run[1..], k, t))
  }

  lemma {:induction false} RunOwes(env: Env, s: State, run: seq<Action>, k: Uuid, t: int)
    requires WellKeyed(s.users) && CanRun(env, s, run) && Regular(env, s, run, k, t)
    requires Due(s.users, k, t) ==> Owed(s, k, t)
    ensures Due(After(env, s, run).users, k, t) ==> Owed(After(env, s, run), k, t)
    decreases |run|
  {
    if run != [] {
      StepOwes(env, s, run[0], k, t);
      StepWellKeyed(env, s, run[0]);
      RunOwes(env, Apply(env, s, run[0]), run[1..], k, t);
    }
  }

  /** No return is ever lost. In every interleaving, with anything before a moment when a
      regeneration was on its way, and from then on no failure and none of the two exceptions for
      this user: a user who is to be served and is missing from the file, or from the running
      sing-box, is about to be brought back. */
  lemma {:induction false} NoLostReturn(env: Env, s: State, before: seq<Action>, run: seq<Action>, k: Uuid, t: int)
    requires Initial(s) && CanRun(env, s, before) && Coming(After(env, s, before))
    requires CanRun(env, After(env, s, before), run) && Regular(env, After(env, s, before), run, k, t)
    requires Due(After(env, After(env, s, before), run).users, k, t)
    ensures Owed(After(env, After(env, s, before), run), k, t)
  {
    RunWellKeyed(env, s, before);
    RunOwes(env, After(env, s, before), run, k, t);
  }

  /** So whenever nothing is under way, who is to be served is in the file and in the running sing-box. */
  lemma {:induction false} QuietMeansServed(env: Env, s: State, before: seq<Action>, run: seq<Action>, k: Uuid, t: int)
    requires Initial(s) && CanRun(env, s, before) && Coming(After(env, s, before))
    requires CanRun(env, After(env, s, before), run) && Regular(env, After(env, s, before), run, k, t)
    requires var e := After(env, After(env, s, before), run);
             Due(e.users, k, t) && AtRest(e) && !e.regen.Written?
    ensures var e := After(env, After(env, s, before), run);
            k in e.written.stats && (e.loaded.Some? ==> k in e.loaded.value.stats)
  {
    NoLostReturn(env, s, before, run, k, t);
  }

  // ----- An exception, from the start -----

  /** The whole first regeneration of an agent that starts with an over-quota user in an old file. */
  lemma DropsStale(env: Env) returns (run: seq<Action>, e: State)
    ensures CanRun(env, Stale(), run) && NoFailures(env, Stale(), run) && After(env, Stale(), run) == e
    ensures e.users == Stale().users && e.tick == Idle && e.queued == 0 && e.regen == Free && [1] !in e.written.stats
  {
    run := StaleListed(env);
    e := Stale().(queued := 0, regen := Listed(ToUsers([Over()])));
    WrittenLeavesOut(env, ToUsers([Over()]), 0, [1]);
    run, e := Extend(env, Stale(), run, e, RegenWrite(true, 0));
    run, e := Extend(env, Stale(), run, e, RegenReload(true));
    run, e := Extend(env, Stale(), run, e, RegenReset);
  }

  /** A reset is forgotten: the first regeneration drops an over-quota user, the usage is then set
      to zero without any failure, and the agent is at rest with the user shut out. */
  lemma ResetIsForgotten(env: Env, t: int)
    ensures exists s, run :: && Initial(s) && CanRun(env, s, run) && NoFailures(env, s, run)
                             && AtRest(After(env, s, run)) && Due(After(env, s, run).users, [1], t)
                             && [1] !in After(env, s, run).written.stats
  {
    var run, e := DropsStale(env);
    ResetOver(env, t);
    run, e := Extend(env, Stale(), run, e, UserChange(ResetTraffic([1]), true, 0));
    assert Initial(Stale());
  }

  lemma ResetOver(env: Env, t: int)
    ensures Due(ApplyOp(Stale().users, ResetTraffic([1]), true, 0).users, [1], t)
    ensures !ApplyOp(Stale().users, ResetTraffic([1]), true, 0).fired
  {
  }
}
