/** Local users and their traffic: internal/local/store.go. Instants are seconds, and a save
    that fails is a parameter of the operation. */
module LocalStore {
  import opened Machine

  datatype LocalUser = LocalUser(
    uuid: Uuid, name: string, protocols: seq<Protocol>, ssPassword: string, enabled: bool,
    trafficLimit: Int64, trafficUsed: Int64, expireAt: Option<int>)
  {
    predicate OverQuota() {
      trafficLimit > 0 && trafficUsed >= trafficLimit
    }
  }

  type Users = map<Uuid, LocalUser>

  const DEFAULT_PROTOCOLS := [VLESS, SHADOWSOCKS]

  datatype UpdateRequest = UpdateRequest(
    name: Option<string>, enabled: Option<bool>, trafficLimit: Option<Int64>, expireDays: Option<int>,
    protocols: seq<Protocol>, expireAt: Option<int>, clearExpire: bool)

  /** The operations that come from outside; those that fail have no other effect unless said below. */
  datatype UserOp =
    | Create(uuid: Uuid, password: Option<string>, name: string, protocols: seq<Protocol>, limit: Int64, days: int)
    | Upsert(user: LocalUser)
    | Update(target: Uuid, request: UpdateRequest)
    | Delete(target: Uuid)
    | ResetTraffic(target: Uuid)
    | Clear

  datatype Outcome =
    | Changed | Created | NotFound | UuidRequired | Conflict | PasswordFailed | SaveFailed

  /** What an operation leaves: the users in memory, whether the file now holds them, and
      whether the change callback was started. */
  datatype Effect = Effect(users: Users, saved: bool, fired: bool, outcome: Outcome)

  function Expiry(now: int, days: int): Option<int> {
    if days > 0 then Some(now + 86400 * days) else None
  }

  function OrDefault(protocols: seq<Protocol>): seq<Protocol> {
    if protocols == [] then DEFAULT_PROTOCOLS else protocols
  }

  /** UpsertUser on a known uuid with the same password. */
  function Merged(old_: LocalUser, u: LocalUser): LocalUser {
    old_.(name := u.name, protocols := if u.protocols == [] then old_.protocols else u.protocols,
    enabled := u.enabled, trafficLimit := u.trafficLimit, expireAt := u.expireAt)
  }

  function Updated(u: LocalUser, r: UpdateRequest, now: int): LocalUser {
    u.(name := if r.name.Some? then r.name.value else u.name,
    enabled := if r.enabled.Some? then r.enabled.value else u.enabled,
    trafficLimit := if r.trafficLimit.Some? then r.trafficLimit.value else u.trafficLimit,
    expireAt := if r.clearExpire then None
    else if r.expireAt.Some? then r.expireAt
    else if r.expireDays.Some? then Expiry(now, r.expireDays.value)
    else u.expireAt,
    protocols := if r.protocols != [] then r.protocols else u.protocols)
  }

  /** Save, then start the callback; a failed save does neither. */
  function Commit(users: Users, ok: bool, onFailure: Users, outcome: Outcome): Effect {
    if ok then Effect(users, true, true, outcome) else Effect(onFailure, false, false, SaveFailed)
  }

  function ApplyOp(users: Users, op: UserOp, saveOk: bool, now: int): Effect {
    match op
    case Create(uuid, password, name, protocols, limit, days) =>
      if password.None? then Effect(users, false, false, PasswordFailed)
      else
        var user := LocalUser(uuid, name, OrDefault(protocols), password.value, true, limit, 0, Expiry(now, days));
        Commit(users[uuid := user], saveOk, users - {uuid}, Created)
    case Upsert(u) =>
      if u.uuid == [] then Effect(users, false, false, UuidRequired)
      else if u.uuid in users then
        if users[u.uuid].ssPassword != u.ssPassword then Effect(users, false, false, Conflict)
        else
          var users' := users[u.uuid := Merged(users[u.uuid], u)];
          Commit(users', saveOk, users', Changed)
      else
        var user := u.(protocols := OrDefault(u.protocols), trafficUsed := 0);
        Commit(users[u.uuid := user], saveOk, users - {u.uuid}, Created)
    case Update(target, r) =>
      if target !in users then Effect(users, false, false, NotFound)
      else
        var users' := users[target := Updated(users[target], r, now)];
        Commit(users', saveOk, users', Changed)
    case Delete(target) =>
      if target !in users then Effect(users, false, false, NotFound)
      else Commit(users - {target}, saveOk, users - {target}, Changed)
    case ResetTraffic(target) =>
      if target !in users then Effect(users, false, false, NotFound)
      else
        var users' := users[target := users[target].(trafficUsed := 0)];
        Effect(users', saveOk, false, if saveOk then Changed else SaveFailed)
    case Clear =>
      Commit(map[], saveOk, map[], Changed)
  }

  function Credited(u: LocalUser, upload: Int64, download: Int64): LocalUser {
    if Wrap(upload + download) <= 0 then u
    else u.(trafficUsed := Wrap(u.trafficUsed + Wrap(upload + download)))
  }

  function Credit(users: Users, uuid: Uuid, upload: Int64, download: Int64): Users {
    if uuid in users then users[uuid := Credited(users[uuid], upload, download)] else users
  }

  predicate WellKeyed(users: Users) {
    forall k :: k in users ==> users[k].uuid == k
  }

  /** `list` holds every user once, in some order. */
  ghost predicate ListsAll(list: seq<LocalUser>, users: Users) {
    && (forall i :: 0 <= i < |list| ==> list[i].uuid in users && users[list[i].uuid] == list[i])
    && (forall i, j :: 0 <= i < j < |list| ==> list[i].uuid != list[j].uuid)
    && (set l | l in list :: l.uuid) == users.Keys
  }

  class Store {
    var users: Users
    var disk: Users
    var callbacks: nat // goroutines started with onChange

    ghost predicate Valid()
      reads this
    {
      WellKeyed(users)
    }

    constructor (loaded: Users)
      requires WellKeyed(loaded)
      ensures Valid() && users == disk == loaded && callbacks == 0
    {
      users, disk, callbacks := loaded, loaded, 0;
    }

    method Save(ok: bool)
      modifies this`disk
      ensures disk == if ok then users else old(disk)
    {
      if ok {
        disk := users;
      }
    }

    method CreateUser(uuid: Uuid, password: Option<string>, name: string, protocols: seq<Protocol>,
                      limit: Int64, days: int, saveOk: bool, now: int) returns (outcome: Outcome)
      requires Valid()
      modifies this
      ensures Valid()
      ensures var e := ApplyOp(old(users), Create(uuid, password, name, protocols, limit, days), saveOk, now);
              && users == e.users && outcome == e.outcome
              && disk == (if e.saved then e.users else old(disk))
              && callbacks == old(callbacks) + (if e.fired then 1 else 0)
    {
      if password.None? {
        return PasswordFailed;
      }
      var chosen := protocols;
      if |chosen| == 0 {
        chosen := DEFAULT_PROTOCOLS;
      }
      var expireAt := None;
      if days > 0 {
        expireAt := Some(now + 86400 * days);
      }
      users := users[uuid := LocalUser(uuid, name, chosen, password.value, true, limit, 0, expireAt)];
      Save(saveOk);
      if !saveOk {
        users := users - {uuid};
        return SaveFailed;
      }
      callbacks := callbacks + 1;
      outcome := Created;
    }

    method UpsertUser(u: LocalUser, saveOk: bool, now: int) returns (outcome: Outcome)
      requires Valid()
      modifies this
      ensures Valid()
      ensures var e := ApplyOp(old(users), Upsert(u), saveOk, now);
              && users == e.users && outcome == e.outcome
              && disk == (if e.saved then e.users else old(disk))
              && callbacks == old(callbacks) + (if e.fired then 1 else 0)
    {
      if u.uuid == [] {
        return UuidRequired;
      }
      if u.uuid in users {
        var existing := users[u.uuid];
        if existing.ssPassword != u.ssPassword {
          return Conflict;
        }
        existing := existing.(name := u.name);
        if |u.protocols| > 0 {
          existing := existing.(protocols := u.protocols);
        }
        existing := existing.(enabled := u.enabled, trafficLimit := u.trafficLimit, expireAt := u.expireAt);
        users := users[u.uuid := existing];
        Save(saveOk);
        if !saveOk {
          return SaveFailed;
        }
        callbacks := callbacks + 1;
        return Changed;
      }
      users := users[u.uuid := u.(protocols := OrDefault(u.protocols), trafficUsed := 0)];
      Save(saveOk);
      if !saveOk {
        users := users - {u.uuid};
        return SaveFailed;
      }
      callbacks := callbacks + 1;
      outcome := Created;
    }

    static method ChangeFields(u: LocalUser, r: UpdateRequest, now: int) returns (user: LocalUser)
      ensures user == Updated(u, r, now)
    {
      user := u;
      if r.name.Some? {
        user := user.(name := r.name.value);
      }
      if r.enabled.Some? {
        user := user.(enabled := r.enabled.value);
      }
      if r.trafficLimit.Some? {
        user := user.(trafficLimit := r.trafficLimit.value);
      }
      if r.clearExpire {
        user := user.(expireAt := None);
      } else if r.expireAt.Some? {
        user := user.(expireAt := r.expireAt);
      } else if r.expireDays.Some? {
        user := user.(expireAt := Expiry(now, r.expireDays.value));
      }
      if |r.protocols| > 0 {
        user := user.(protocols := r.protocols);
      }
    }

    method UpdateUser(target: Uuid, r: UpdateRequest, saveOk: bool, now: int) returns (outcome: Outcome)
      requires Valid()
      modifies this
      ensures Valid()
      ensures var e := ApplyOp(old(users), Update(target, r), saveOk, now);
              && users == e.users && outcome == e.outcome
              && disk == (if e.saved then e.users else old(disk))
              && callbacks == old(callbacks) + (if e.fired then 1 else 0)
    {
      if target !in users {
        return NotFound;
      }
      var user := ChangeFields(users[target], r, now);
      users := users[target := user];
      Save(saveOk);
      if !saveOk {
        return SaveFailed;
      }
      callbacks := callbacks + 1;
      outcome := Changed;
    }

    method DeleteUser(target: Uuid, saveOk: bool, now: int) returns (outcome: Outcome)
      requires Valid()
      modifies this
      ensures Valid()
      ensures var e := ApplyOp(old(users), Delete(target), saveOk, now);
              && users == e.users && outcome == e.outcome
              && disk == (if e.saved then e.users else old(disk))
              && callbacks == old(callbacks) + (if e.fired then 1 else 0)
    {
      if target !in users {
        return NotFound;
      }
      users := users - {target};
      Save(saveOk);
      if !saveOk {
        return SaveFailed;
      }
      callbacks := callbacks + 1;
      outcome := Changed;
    }

    method ResetUserTraffic(target: Uuid, saveOk: bool, now: int) returns (outcome: Outcome)
      requires Valid()
      modifies this
      ensures Valid()
      ensures var e := ApplyOp(old(users), ResetTraffic(target), saveOk, now);
              && users == e.users && outcome == e.outcome
              && disk == (if e.saved then e.users else old(disk))
              && callbacks == old(callbacks)
    {
      if target !in users {
        return NotFound;
      }
      users := users[target := users[target].(trafficUsed := 0)];
      Save(saveOk);
      outcome := if saveOk then Changed else SaveFailed;
    }

    method ClearUsers(saveOk: bool, now: int) returns (outcome: Outcome)
      requires Valid()
      modifies this
      ensures Valid()
      ensures var e := ApplyOp(old(users), Clear, saveOk, now);
              && users == e.users && outcome == e.outcome
              && disk == (if e.saved then e.users else old(disk))
              && callbacks == old(callbacks) + (if e.fired then 1 else 0)
    {
      users := map[];
      Save(saveOk);
      if !saveOk {
        return SaveFailed;
      }
      callbacks := callbacks + 1;
      outcome := Changed;
    }

    /** The result says whether this very call took the user over the limit. */
    method AddTraffic(uuid: Uuid, upload: Int64, download: Int64, saveOk: bool) returns (crossed: bool)
      requires Valid()
      modifies this`users, this`disk
      ensures Valid()
      ensures users == Credit(old(users), uuid, upload, download)
      ensures disk == if uuid in users && Wrap(upload + download) > 0 && saveOk then users else old(disk)
      ensures crossed <==> uuid in old(users) && !old(users)[uuid].OverQuota() && users[uuid].OverQuota()
    {
      if uuid !in users || Wrap(upload + download) <= 0 {
        return false;
      }
      var user := users[uuid];
      var before := user.trafficUsed;
      user := user.(trafficUsed := Wrap(user.trafficUsed + Wrap(upload + download)));
      users := users[uuid := user];
      Save(saveOk);
      crossed := user.trafficLimit > 0 && before < user.trafficLimit && user.trafficUsed >= user.trafficLimit;
    }

    /** The range over the map visits it in an order Go does not define. */
    method ListUsers() returns (list: seq<LocalUser>)
      requires Valid()
      ensures ListsAll(list, users)
    {
      list := [];
      var todo := users.Keys;
      ghost var done: set<Uuid> := {};
      while todo != {}
        invariant todo !! done && todo + done == users.Keys
        invariant forall i :: 0 <= i < |list| ==> list[i].uuid in done && users[list[i].uuid] == list[i]
        invariant forall i, j :: 0 <= i < j < |list| ==> list[i].uuid != list[j].uuid
        invariant (set l | l in list :: l.uuid) == done
      {
        var k :| k in todo;
        list := list + [users[k]];
        assert forall l :: l in list <==> l in list[..|list| - 1] || l == users[k];
        todo := todo - {k};
        done := done + {k};
      }
    }
  }

  // ----- What the operations promise -----

  function Target(op: UserOp): Option<Uuid> {
    match op
    case Create(uuid, _, _, _, _, _) => Some(uuid)
    case Upsert(u) => Some(u.uuid)
    case Update(t, _) => Some(t)
    case Delete(t) => Some(t)
    case ResetTraffic(t) => Some(t)
    case Clear => None
  }

  /** An operation touches its own user only, and keeps records under their own uuid. */
  lemma OpIsLocal(users: Users, op: UserOp, saveOk: bool, now: int, k: Uuid)
    requires WellKeyed(users)
    ensures WellKeyed(ApplyOp(users, op, saveOk, now).users)
    ensures Target(op).Some? && Target(op) != Some(k) ==>
              var users' := ApplyOp(users, op, saveOk, now).users;
              (k in users' <==> k in users) && (k in users ==> users'[k] == users[k])
  {
  }

  /** Should be served, leaving expiry aside. */
  predicate Wanted(users: Users, k: Uuid) {
    k in users && users[k].enabled && !users[k].OverQuota()
  }

  /** An operation turns a wanted user into an unwanted one without starting the callback:
      exactly when its save failed after it had already changed the users in memory so. */
  lemma QuietlyUnwantedIff(users: Users, op: UserOp, saveOk: bool, now: int, k: Uuid)
    requires WellKeyed(users) && Wanted(users, k)
    ensures var e := ApplyOp(users, op, saveOk, now);
            !Wanted(e.users, k) && !e.fired
            <==>
            !saveOk
            && match op
               case Create(uuid, password, _, _, _, _) => uuid == k && password.Some?
               case Upsert(u) =>
                 && u.uuid == k && k != [] && u.ssPassword == users[k].ssPassword
                 && (!u.enabled || (u.trafficLimit > 0 && users[k].trafficUsed >= u.trafficLimit))
               case Update(t, r) =>
                 && t == k
                 && (r.enabled == Some(false)
                     || (r.trafficLimit.Some? && r.trafficLimit.value > 0
                         && users[k].trafficUsed >= r.trafficLimit.value))
               case Delete(t) => t == k
               case ResetTraffic(_) => false
               case Clear => true
  {
  }

  /** Redelivering an upsert changes nothing more and never the traffic used or the password. */
  lemma UpsertIdempotent(users: Users, u: LocalUser, now: int)
    requires WellKeyed(users) && u.uuid != []
    requires u.uuid in users ==> users[u.uuid].ssPassword == u.ssPassword
    ensures var e := ApplyOp(users, Upsert(u), true, now);
            && u.uuid in e.users
            && e.users[u.uuid].ssPassword == u.ssPassword
            && e.users[u.uuid].trafficUsed == (if u.uuid in users then users[u.uuid].trafficUsed else 0)
            && ApplyOp(e.users, Upsert(u), true, now).users == e.users
            && ApplyOp(e.users, Upsert(u), true, now).outcome == Changed
  {
  }

  // ----- What each operation leaves, field by field -----

  /** The operation gets as far as its save. */
  predicate Accepted(users: Users, op: UserOp) {
    match op
    case Create(_, password, _, _, _, _) => password.Some?
    case Upsert(u) => u.uuid != [] && (u.uuid in users ==> users[u.uuid].ssPassword == u.ssPassword)
    case Clear => true
    case _ => op.target in users
  }

  /** How an operation ends: what reaches the file, when the callback starts, which answer stands
      for which reason, and which users are left. A failed save takes a new user back and leaves
      every other change in memory. */
  lemma OperationEnds(users: Users, op: UserOp, saveOk: bool, now: int)
    ensures var e := ApplyOp(users, op, saveOk, now);
            && (e.saved <==> Accepted(users, op) && saveOk)
            && (e.fired <==> e.saved && !op.ResetTraffic?)
            && (e.outcome == SaveFailed <==> Accepted(users, op) && !saveOk)
            && (e.outcome == PasswordFailed <==> op.Create? && op.password.None?)
            && (e.outcome == UuidRequired <==> op.Upsert? && op.user.uuid == [])
            && (e.outcome == Conflict <==> op.Upsert? && op.user.uuid != [] && !Accepted(users, op))
            && (e.outcome == NotFound <==> !op.Create? && !op.Upsert? && !Accepted(users, op))
            && (e.outcome == Created <==> e.saved && (op.Create? || (op.Upsert? && op.user.uuid !in users)))
            && e.users.Keys == if !Accepted(users, op) then users.Keys
                               else match op
                                    case Create(uuid, _, _, _, _, _) =>
                                      if saveOk then users.Keys + {uuid} else users.Keys - {uuid}
                                    case Upsert(u) => if saveOk then users.Keys + {u.uuid} else users.Keys
                                    case Delete(target) => users.Keys - {target}
                                    case Clear => {}
                                    case _ => users.Keys
  {
  }

  /** The record that an accepted operation leaves for its user. */
  lemma OperationLeaves(users: Users, op: UserOp, saveOk: bool, now: int, k: Uuid)
    requires Accepted(users, op) && Target(op) == Some(k) && k in ApplyOp(users, op, saveOk, now).users
    requires WellKeyed(users)
    ensures var u := ApplyOp(users, op, saveOk, now).users[k];
            && u.uuid == k
            && match op
               case Create(_, password, name, protocols, limit, days) =>
                 && u.name == name && password == Some(u.ssPassword) && u.enabled
                 && u.trafficLimit == limit && u.trafficUsed == 0
                 && (protocols != [] ==> u.protocols == protocols)
                 && (protocols == [] ==> u.protocols == [VLESS, SHADOWSOCKS])
                 && u.expireAt == (if days > 0 then Some(now + 24 * 60 * 60 * days) else None)
               case Upsert(v) =>
                 && u.name == v.name && u.ssPassword == v.ssPassword && u.enabled == v.enabled
                 && u.trafficLimit == v.trafficLimit && u.expireAt == v.expireAt
                 && u.trafficUsed == (if k in users then users[k].trafficUsed else 0)
                 && (v.protocols != [] ==> u.protocols == v.protocols)
                 && (v.protocols == [] ==>
                       u.protocols == if k in users then users[k].protocols else [VLESS, SHADOWSOCKS])
               case Update(_, r) =>
                 && u.ssPassword == users[k].ssPassword && u.trafficUsed == users[k].trafficUsed
                 && (if r.name.Some? then r.name == Some(u.name) else u.name == users[k].name)
                 && (if r.enabled.Some? then r.enabled == Some(u.enabled) else u.enabled == users[k].enabled)
                 && (if r.trafficLimit.Some? then r.trafficLimit == Some(u.trafficLimit)
                     else u.trafficLimit == users[k].trafficLimit)
                 && u.protocols == (if r.protocols != [] then r.protocols else users[k].protocols)
                 && (r.clearExpire ==> u.expireAt == None)
                 && (!r.clearExpire && r.expireAt.Some? ==> u.expireAt == r.expireAt)
                 && (!r.clearExpire && r.expireAt.None? ==>
                       u.expireAt == match r.expireDays
                                     case None => users[k].expireAt
                                     case Some(days) => if days > 0 then Some(now + 24 * 60 * 60 * days) else None)
               case ResetTraffic(_) => u.trafficUsed == 0 && u == users[k].(trafficUsed := 0)
               case _ => true
  {
  }
}
