/** The local user store over any sequence of calls: internal/local/store.go. */
module StoreRuns {
  import opened Machine
  import opened LocalStore

  datatype StoreCall =
    | Changes(op: UserOp, saveOk: bool, now: int)
    | Credits(uuid: Uuid, upload: Int64, download: Int64, saveOk: bool)

  /** What is in memory and what is in the file. */
  datatype Books = Books(users: Users, disk: Users)

  function UsersAfter(users: Users, c: StoreCall): Users {
    match c
    case Changes(op, saveOk, now) => ApplyOp(users, op, saveOk, now).users
    case Credits(uuid, upload, download, _) => Credit(users, uuid, upload, download)
  }

  /** The call reaches a save, and it works. */
  predicate Saves(users: Users, c: StoreCall) {
    match c
    case Changes(op, saveOk, now) => ApplyOp(users, op, saveOk, now).saved
    case Credits(uuid, upload, download, saveOk) => uuid in users && Wrap(upload + download) > 0 && saveOk
  }

  function After(b: Books, c: StoreCall): Books {
    var users := UsersAfter(b.users, c);
    Books(users, if Saves(b.users, c) then users else b.disk)
  }

  /** The store does what `After` says, for every call. */
  method Perform(store: Store, c: StoreCall)
    requires store.Valid()
    modifies store
    ensures store.Valid()
    ensures Books(store.users, store.disk) == After(Books(old(store.users), old(store.disk)), c)
  {
    match c {
      case Changes(op, saveOk, now) => Change(store, op, saveOk, now);
      case Credits(uuid, upload, download, saveOk) =>
        var crossed := store.AddTraffic(uuid, upload, download, saveOk);
    }
  }

  method Change(store: Store, op: UserOp, saveOk: bool, now: int)
    requires store.Valid()
    modifies store
    ensures store.Valid()
    ensures var e := ApplyOp(old(store.users), op, saveOk, now);
            store.users == e.users && store.disk == if e.saved then e.users else old(store.disk)
  {
    var outcome;
    match op {
      case Create(uuid, password, name, protocols, limit, days) =>
        outcome := store.CreateUser(uuid, password, name, protocols, limit, days, saveOk, now);
      case Upsert(user) => outcome := store.UpsertUser(user, saveOk, now);
      case Update(target, request) => outcome := store.UpdateUser(target, request, saveOk, now);
      case Delete(target) => outcome := store.DeleteUser(target, saveOk, now);
      case ResetTraffic(target) => outcome := store.ResetUserTraffic(target, saveOk, now);
      case Clear => outcome := store.ClearUsers(saveOk, now);
    }
  }

  function AfterAll(b: Books, calls: seq<StoreCall>): Books
    decreases |calls|
  {
    if calls == [] then b else AfterAll(After(b, calls[0]), calls[1..])
  }

  // ----- The file -----

  /** The number of calls up to the last one that saved, 0 if none did. */
  function LastSave(b: Books, calls: seq<StoreCall>): (n: nat)
    ensures n <= |calls|
    decreases |calls|
  {
    if calls == [] then 0
    else
      var n := LastSave(After(b, calls[0]), calls[1..]);
      if n > 0 then n + 1 else if Saves(b.users, calls[0]) then 1 else 0
  }

  /** The file is always a whole earlier state of the memory: that of the last save that worked.
      So one save makes good every failed one before it, credits and changes alike, and a
      restart loses exactly the calls after it. */
  lemma {:induction false} FileIsLastSave(b: Books, calls: seq<StoreCall>)
    ensures var n := LastSave(b, calls);
            AfterAll(b, calls).disk == if n == 0 then b.disk else AfterAll(b, calls[..n]).users
    decreases |calls|
  {
    if calls != [] {
      var b1 := After(b, calls[0]);
      var n := LastSave(b, calls);
      FileIsLastSave(b1, calls[1..]);
      if n > 0 {
        assert calls[..n][1..] == calls[1..][..n - 1] && calls[..n][0] == calls[0];
        assert AfterAll(b, calls[..n]) == AfterAll(b1, calls[1..][..n - 1]);
        assert n == 1 ==> calls[1..][..0] == [];
      }
    }
  }

  // ----- Usage -----

  /** A user's usage is set to zero. */
  predicate Zeroes(c: StoreCall, k: Uuid) {
    && c.Changes?
    && match c.op
       case Create(uuid, password, _, _, _, _) => uuid == k && password.Some?
       case ResetTraffic(target) => target == k
       case _ => false
  }

  function CreditOf(c: StoreCall, k: Uuid): int {
    if c.Credits? && c.uuid == k && Wrap(c.upload + c.download) > 0 then Wrap(c.upload + c.download) else 0
  }

  /** What was credited to a user since the record was made or reset, on top of `sofar`. */
  function Booked(users: Users, calls: seq<StoreCall>, k: Uuid, sofar: int): int
    decreases |calls|
  {
    if calls == [] then sofar
    else
      var users' := UsersAfter(users, calls[0]);
      var anew := k !in users || k !in users' || Zeroes(calls[0], k);
      Booked(users', calls[1..], k, if anew then 0 else sofar + CreditOf(calls[0], k))
  }

  lemma WrapAgain(a: int, b: int)
    ensures Wrap(Wrap(a) + b) == Wrap(a + b)
  {
    assert (Wrap(a) + b) % TWO_64 == (a + b) % TWO_64;
  }

  lemma CallUsage(users: Users, c: StoreCall, k: Uuid, sofar: int)
    requires WellKeyed(users) && k in UsersAfter(users, c)
    requires k in users ==> users[k].trafficUsed == Wrap(sofar)
    ensures UsersAfter(users, c)[k].trafficUsed
            == if k !in users || Zeroes(c, k) then 0 else Wrap(sofar + CreditOf(c, k))
  {
    WrapAgain(sofar, CreditOf(c, k));
    match c {
      case Changes(op, saveOk, now) => OpIsLocal(users, op, saveOk, now, k);
      case _ =>
    }
  }

  lemma CallWellKeyed(users: Users, c: StoreCall)
    requires WellKeyed(users)
    ensures WellKeyed(UsersAfter(users, c))
  {
    if c.Changes? {
      OpIsLocal(users, c.op, c.saveOk, c.now, []);
    }
  }

  /** Usage is exactly what was credited since the record was made or last reset, in 64 bits:
      updates, upserts, other users and failed saves in between never change it. */
  lemma {:induction false} UsageIs(b: Books, calls: seq<StoreCall>, k: Uuid, sofar: int)
    requires WellKeyed(b.users) && (k in b.users ==> b.users[k].trafficUsed == Wrap(sofar))
    ensures k in AfterAll(b, calls).users ==>
              AfterAll(b, calls).users[k].trafficUsed == Wrap(Booked(b.users, calls, k, sofar))
    decreases |calls|
  {
    if calls != [] {
      var users' := UsersAfter(b.users, calls[0]);
      var anew := k !in b.users || k !in users' || Zeroes(calls[0], k);
      CallWellKeyed(b.users, calls[0]);
      if k in users' {
        CallUsage(b.users, calls[0], k, sofar);
      }
      UsageIs(After(b, calls[0]), calls[1..], k, if anew then 0 else sofar + CreditOf(calls[0], k));
    }
  }
}
