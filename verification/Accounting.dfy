/** accountLocalTraffic of cmd/agent/main.go: readings become deltas, deltas become traffic used. */
module Accounting {
  import opened Machine
  import opened Counters
  import opened Ledger
  import opened LocalStore

  /** Every user credited with their delta. */
  function AccountAll(users: LocalStore.Users, deltas: Table): LocalStore.Users {
    map u | u in users :: if u in deltas then Credited(users[u], deltas[u].upload, deltas[u].download) else users[u]
  }

  /** The delta takes this user over the limit. */
  predicate CrossedBy(users: LocalStore.Users, deltas: Table, u: Uuid) {
    && u in users && u in deltas
    && !users[u].OverQuota() && Credited(users[u], deltas[u].upload, deltas[u].download).OverQuota()
  }

  lemma CreditNext(users: LocalStore.Users, deltas: Table, todo: set<Uuid>, u: Uuid)
    requires u in todo && todo <= deltas.Keys
    ensures Credit(AccountAll(users, deltas - todo), u, deltas[u].upload, deltas[u].download)
            == AccountAll(users, deltas - (todo - {u}))
    ensures u in users ==> AccountAll(users, deltas - todo)[u] == users[u]
  {
  }

  /** One accounting pass without interference. `reading` is None when sing-box is not running
      or the collector fails. The deltas are credited in an order Go does not define. */
  method AccountLocalTraffic(store: Store, meter: Meter, reading: Option<Snapshot>, saveOk: bool)
    returns (crossed: bool)
    requires store.Valid()
    modifies store, meter
    ensures store.Valid() && store.callbacks == old(store.callbacks)
    ensures reading.None? ==> store.users == old(store.users) && meter.last == old(meter.last) && !crossed
    ensures reading.Some? ==>
              var deltas := DeltasOf(old(meter.last), reading.value);
              && meter.last == Remembered(old(meter.last), reading.value)
              && store.users == AccountAll(old(store.users), deltas)
              && (crossed <==> exists u :: CrossedBy(old(store.users), deltas, u))
  {
    crossed := false;
    if reading.None? {
      return;
    }
    var deltas := meter.Deltas(reading.value);
    crossed := CreditDeltas(store, deltas, saveOk);
  }

  method CreditDeltas(store: Store, deltas: Table, saveOk: bool) returns (crossed: bool)
    requires store.Valid()
    modifies store
    ensures store.Valid() && store.callbacks == old(store.callbacks)
    ensures store.users == AccountAll(old(store.users), deltas)
    ensures crossed <==> exists u :: CrossedBy(old(store.users), deltas, u)
  {
    crossed := false;
    var todo := deltas.Keys;
    ghost var before := store.users;
    assert AccountAll(before, deltas - todo) == before;
    while todo != {}
      invariant store.Valid()
      invariant todo <= deltas.Keys
      invariant store.users == AccountAll(before, deltas - todo)
      invariant store.callbacks == old(store.callbacks)
      invariant crossed <==> exists u :: u !in todo && CrossedBy(before, deltas, u)
    {
      var uuid :| uuid in todo;
      var d := deltas[uuid];
      CreditNext(before, deltas, todo, uuid);
      var hit := store.AddTraffic(uuid, d.upload, d.download, saveOk);
      assert hit <==> CrossedBy(before, deltas, uuid);
      crossed := crossed || hit;
      todo := todo - {uuid};
    }
    assert deltas - todo == deltas;
  }

  // ----- Whole runs -----

  /** What happens to the books over time, one accounting pass after another. */
  datatype Happening = Pass(reading: Snapshot) | Restarted | MeterReset

  function RunBooks(users: LocalStore.Users, last: Table, run: seq<Happening>): LocalStore.Users
    decreases |run|
  {
    if run == [] then users else
    match run[0]
    case Pass(r) => RunBooks(AccountAll(users, DeltasOf(last, r)), Remembered(last, r), run[1..])
    case Restarted => RunBooks(users, last, run[1..])
    case MeterReset => RunBooks(users, map[], run[1..])
  }

  function Side(s: UserStats, up: bool): Int64 {
    if up then s.upload else s.download
  }

  /** One user's counter in one direction, as the history of Ledger. */
  function Project(run: seq<Happening>, u: Uuid, up: bool): History
    requires NonNegative(run, u)
  {
    if run == [] then []
    else
      (match run[0]
       case Pass(r) => if Seen(r, u) then [Reading(Side(r[u].value, up))] else []
       case Restarted => [Restart]
       case MeterReset => [Reset]) + Project(run[1..], u, up)
  }

  predicate Seen(r: Snapshot, u: Uuid) {
    u in r && r[u].Some?
  }

  /** sing-box counts upwards from zero. */
  predicate NonNegative(run: seq<Happening>, u: Uuid) {
    forall i :: 0 <= i < |run| && run[i].Pass? && Seen(run[i].reading, u) ==>
                  run[i].reading[u].value.upload >= 0 && run[i].reading[u].value.download >= 0
  }

  lemma {:induction false} ProjectInRange(run: seq<Happening>, u: Uuid, up: bool)
    requires NonNegative(run, u)
    ensures InRange(Project(run, u, up))
  {
    if run != [] {
      ProjectInRange(run[1..], u, up);
    }
  }

  lemma {:induction false} ChargedNonNegative(h: History, last: nat)
    requires last < TWO_63 && InRange(h)
    ensures Charged(h, last) >= 0
  {
    if h != [] {
      assert InRange(h[1..]);
      ChargedNonNegative(h[1..], if h[0].Reading? then h[0].v else if h[0].Restart? then last else 0);
    }
  }

  /** One pass credits a stored user with exactly the two deltas of that user. */
  lemma PassCredits(users: LocalStore.Users, last: Table, r: Snapshot, u: Uuid)
    requires u in users && Last(last, u).upload >= 0 && Last(last, u).download >= 0
    requires Seen(r, u) ==> r[u].value.upload >= 0 && r[u].value.download >= 0
    requires Seen(r, u) ==>
               var d := DeltaOf(last, u, r[u].value);
               0 <= users[u].trafficUsed + d.upload + d.download < TWO_63 && d.upload + d.download < TWO_63
    ensures var after := AccountAll(users, DeltasOf(last, r))[u];
            && after.trafficUsed == users[u].trafficUsed
                                    + (if Seen(r, u) then DeltaOf(last, u, r[u].value).upload
                                                          + DeltaOf(last, u, r[u].value).download else 0)
            && after == users[u].(trafficUsed := after.trafficUsed)
  {
  }

  /** What a pass at the front of a run charges in one direction; nothing after it charges less
      than zero. */
  lemma {:induction false} PassProjects(last: Table, r: Snapshot, run: seq<Happening>, u: Uuid, up: bool)
    requires run != [] && run[0] == Pass(r) && NonNegative(run, u)
    requires Side(Last(last, u), up) >= 0 && InRange(Project(run, u, up)) && InRange(Project(run[1..], u, up))
    ensures var now := Side(Last(Remembered(last, r), u), up);
            && now >= 0
            && Charged(Project(run[1..], u, up), now) >= 0
            && Charged(Project(run, u, up), Side(Last(last, u), up))
               == Charged(Project(run[1..], u, up), now)
                  + if Seen(r, u) then Side(DeltaOf(last, u, r[u].value), up) else 0
  {
    var h, rest := Project(run, u, up), Project(run[1..], u, up);
    if Seen(r, u) {
      assert run[0].reading[u].value.upload >= 0 && run[0].reading[u].value.download >= 0;
      assert h[1..] == rest;
    } else {
      assert h == rest;
    }
    ChargedNonNegative(rest, Side(Last(Remembered(last, r), u), up));
  }

  lemma PassFront(run: seq<Happening>, u: Uuid, r: Snapshot)
    requires run != [] && run[0] == Pass(r) && NonNegative(run, u)
    ensures Seen(r, u) ==> r[u].value.upload >= 0 && r[u].value.download >= 0
  {
    assert run[0].reading == r;
  }

  lemma DeltaNonNegative(cur: Int64, prev: Int64)
    requires cur >= 0 && prev >= 0
    ensures Delta(cur, prev) >= 0
  {
  }

  lemma {:induction false} BooksFollowLedger(users: LocalStore.Users, last: Table, run: seq<Happening>, u: Uuid)
    requires u in users && NonNegative(run, u) && users[u].trafficUsed >= 0
    requires Last(last, u).upload >= 0 && Last(last, u).download >= 0
    requires InRange(Project(run, u, true)) && InRange(Project(run, u, false))
    requires users[u].trafficUsed + Charged(Project(run, u, true), Last(last, u).upload)
             + Charged(Project(run, u, false), Last(last, u).download) < TWO_63
    ensures u in RunBooks(users, last, run)
    ensures RunBooks(users, last, run)[u].trafficUsed
            == users[u].trafficUsed + Charged(Project(run, u, true), Last(last, u).upload)
               + Charged(Project(run, u, false), Last(last, u).download)
    decreases |run|
  {
    if run != [] {
      var rest := run[1..];
      var ups, downs := Project(run, u, true), Project(run, u, false);
      ProjectInRange(rest, u, true);
      ProjectInRange(rest, u, false);
      match run[0] {
        case Pass(r) =>
          PassFront(run, u, r);
          PassProjects(last, r, run, u, true);
          PassProjects(last, r, run, u, false);
          if Seen(r, u) {
            DeltaNonNegative(r[u].value.upload, Last(last, u).upload);
            DeltaNonNegative(r[u].value.download, Last(last, u).download);
          }
          PassCredits(users, last, r, u);
          BooksFollowLedger(AccountAll(users, DeltasOf(last, r)), Remembered(last, r), rest, u);
        case Restarted =>
          assert ups[1..] == Project(rest, u, true) && downs[1..] == Project(rest, u, false);
          BooksFollowLedger(users, last, rest, u);
        case MeterReset =>
          assert ups[1..] == Project(rest, u, true) && downs[1..] == Project(rest, u, false);
          BooksFollowLedger(users, map[], rest, u);
      }
    }
  }

  /** Every restart is followed at once by its Reset, and there are no other Resets: what
      regenerateConfig does when no pass slips in between. */
  predicate Serialised(run: seq<Happening>) {
    if run == [] then true
    else if run[0].Pass? then Serialised(run[1..])
    else run[0].Restarted? && |run| > 1 && run[1].MeterReset? && Serialised(run[2..])
  }

  lemma {:induction false} SerialisedIsDisciplined(run: seq<Happening>, u: Uuid, up: bool, b: bool)
    requires Serialised(run) && NonNegative(run, u)
    ensures ResetsFollowRestarts(Project(run, u, up), b, b)
    ensures RestartsAreReset(Project(run, u, up), b, b)
    decreases |run|
  {
    if run != [] {
      var h := Project(run, u, up);
      if run[0].Pass? {
        if Seen(run[0].reading, u) {
          SerialisedIsDisciplined(run[1..], u, up, false);
          assert h[1..] == Project(run[1..], u, up);
        } else {
          SerialisedIsDisciplined(run[1..], u, up, b);
          assert h == Project(run[1..], u, up);
        }
      } else {
        SerialisedIsDisciplined(run[2..], u, up, true);
        RestartProjects(run, u, up);
      }
    }
  }

  lemma {:induction false} RestartProjects(run: seq<Happening>, u: Uuid, up: bool)
    requires |run| > 1 && run[0].Restarted? && run[1].MeterReset? && NonNegative(run, u)
    ensures var h := Project(run, u, up);
            |h| > 1 && h[0] == Restart && h[1..][0] == Reset && h[1..][1..] == Project(run[2..], u, up)
  {
    var h := Project(run, u, up);
    assert run[1..][1..] == run[2..];
    assert h[1..] == Project(run[1..], u, up);
  }

  /** Traffic is conserved: over serialised passes, any number of restarts, and any other users
      coming and going in the readings, a stored user's TrafficUsed grows by exactly the sum
      of the last readings of each life of the process, both directions together. */
  lemma {:induction false} TrafficConserved(users: LocalStore.Users, run: seq<Happening>, u: Uuid)
    requires u in users && users[u].trafficUsed >= 0
    requires Serialised(run) && NonNegative(run, u)
    requires Monotone(Project(run, u, true), 0) && Monotone(Project(run, u, false), 0)
    requires users[u].trafficUsed + Total(Project(run, u, true)) + Total(Project(run, u, false)) < TWO_63
    ensures u in RunBooks(users, map[], run)
    ensures RunBooks(users, map[], run)[u].trafficUsed
            == users[u].trafficUsed + Total(Project(run, u, true)) + Total(Project(run, u, false))
  {
    SerialisedIsDisciplined(run, u, true, false);
    SerialisedIsDisciplined(run, u, false, false);
    Conservation(Project(run, u, true));
    Conservation(Project(run, u, false));
    BooksFollowLedger(users, map[], run, u);
  }

  /** Never over-counted: with restarts that nobody resets for, TrafficUsed grows by the true total
      less exactly the readings that Ledger.Lost names, in each direction. */
  lemma {:induction false} TrafficNeverOverCounted(users: LocalStore.Users, run: seq<Happening>, u: Uuid)
    requires u in users && users[u].trafficUsed >= 0 && NonNegative(run, u)
    requires forall up :: Monotone(Project(run, u, up), 0) && ResetsFollowRestarts(Project(run, u, up), false, false)
    requires users[u].trafficUsed + Total(Project(run, u, true)) + Total(Project(run, u, false)) < TWO_63
    ensures u in RunBooks(users, map[], run)
    ensures var ups, downs := Project(run, u, true), Project(run, u, false);
            var used := RunBooks(users, map[], run)[u].trafficUsed;
            && used == users[u].trafficUsed + Total(ups) - Lost(ups, 0, false, false)
                       + Total(downs) - Lost(downs, 0, false, false)
            && used <= users[u].trafficUsed + Total(ups) + Total(downs)
  {
    NeverOverCharged(Project(run, u, true));
    NeverOverCharged(Project(run, u, false));
    BooksFollowLedger(users, map[], run, u);
  }
}
