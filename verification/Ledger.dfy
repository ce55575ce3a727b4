/** Cumulative counters into deltas: internal/stats/meter.go, and the bookkeeping identity of
    one counter over any history of readings, restarts and resets. */
module Ledger {
  import opened Machine
  import opened Counters

  /** The delta helper. */
  function Delta(cur: Int64, prev: Int64): Int64 {
    if cur < prev then cur else Wrap(cur - prev)
  }

  type Snapshot = map<Bytes, Option<UserStats>>

  function Last(last: Table, uuid: Bytes): UserStats {
    if uuid in last then last[uuid] else UserStats(0, 0)
  }

  function DeltaOf(last: Table, uuid: Bytes, cur: UserStats): UserStats {
    UserStats(Delta(cur.upload, Last(last, uuid).upload), Delta(cur.download, Last(last, uuid).download))
  }

  predicate Grew(d: UserStats) {
    d.upload > 0 || d.download > 0
  }

  /** The deltas of one call: only users with something new. A nil entry is skipped. */
  function DeltasOf(last: Table, current: Snapshot): Table {
    map u | u in current && current[u].Some? && Grew(DeltaOf(last, u, current[u].value))
      :: DeltaOf(last, u, current[u].value)
  }

  function Remembered(last: Table, current: Snapshot): Table {
    last + map u | u in current && current[u].Some? :: current[u].value
  }

  predicate Read(current: Snapshot, u: Bytes) {
    u in current && current[u].Some?
  }

  /** What the loop has when `todo` is still to be visited. */
  ghost predicate SoFar(out: Table, last: Table, was: Table, current: Snapshot, todo: set<Bytes>) {
    && todo <= current.Keys
    && (forall u :: u in out <==> u !in todo && Read(current, u) && Grew(DeltaOf(was, u, current[u].value)))
    && (forall u :: u in out ==> out[u] == DeltaOf(was, u, current[u].value))
    && (forall u :: u in last <==> u in was || (u !in todo && Read(current, u)))
    && (forall u :: u in last ==> last[u] == if u !in todo && Read(current, u) then current[u].value else was[u])
  }

  lemma TakeNext(out: Table, last: Table, was: Table, current: Snapshot, todo: set<Bytes>, uuid: Bytes)
    requires SoFar(out, last, was, current, todo) && uuid in todo
    ensures match current[uuid]
            case None => SoFar(out, last, was, current, todo - {uuid})
            case Some(cur) =>
              var d := DeltaOf(last, uuid, cur);
              SoFar(if Grew(d) then out[uuid := d] else out, last[uuid := cur], was, current, todo - {uuid})
  {
  }

  lemma TakenAll(out: Table, last: Table, was: Table, current: Snapshot)
    requires SoFar(out, last, was, current, {})
    ensures out == DeltasOf(was, current) && last == Remembered(was, current)
  {
  }

  class Meter {
    var last: Table

    constructor ()
      ensures last == map[]
    {
      last := map[];
    }

    /** The loop visits the map in an order Go does not define. */
    method Deltas(current: Snapshot) returns (out: Table)
      modifies this
      ensures out == DeltasOf(old(last), current)
      ensures last == Remembered(old(last), current)
    {
      out := map[];
      var todo := current.Keys;
      ghost var was := last;
      while todo != {}
        invariant SoFar(out, last, was, current, todo)
      {
        var uuid :| uuid in todo;
        TakeNext(out, last, was, current, todo, uuid);
        todo := todo - {uuid};
        match current[uuid] {
          case None =>
          case Some(cur) =>
            var prev := Last(last, uuid);
            var d := UserStats(Delta(cur.upload, prev.upload), Delta(cur.download, prev.download));
            last := last[uuid := cur];
            if d.upload > 0 || d.download > 0 {
              out := out[uuid := d];
            }
        }
      }
      TakenAll(out, last, was, current);
    }

    method Reset()
      modifies this
      ensures last == map[]
    {
      last := map[];
    }
  }

  // ----- One counter over a whole history -----

  /** What happens to one user's counter in one direction. Restart is the sing-box process
      starting over from zero, Reset is Meter.Reset. */
  datatype Event = Reading(v: nat) | Restart | Reset

  type History = seq<Event>

  /** Within one life of the process the counter does not fall. */
  predicate Monotone(h: History, high: nat) {
    if h == [] then true else
    match h[0]
    case Reading(v) => v >= high && v < TWO_63 && Monotone(h[1..], v)
    case Restart => Monotone(h[1..], 0)
    case Reset => Monotone(h[1..], high)
  }

  /** The sum of the deltas that the meter reports, starting with `last` remembered. */
  function Charged(h: History, last: nat): int
    requires last < TWO_63
    requires forall i :: 0 <= i < |h| && h[i].Reading? ==> h[i].v < TWO_63
  {
    if h == [] then 0 else
    match h[0]
    case Reading(v) => Delta(v, last) + Charged(h[1..], v)
    case Restart => Charged(h[1..], last)
    case Reset => Charged(h[1..], 0)
  }

  /** No reading follows before the process restarts or the history ends. */
  predicate EpochOver(h: History) {
    h == [] || h[0].Restart? || (h[0].Reset? && EpochOver(h[1..]))
  }

  /** The true traffic that the readings show: the last reading of each life of the process. */
  function Total(h: History): nat {
    if h == [] then 0
    else (if h[0].Reading? && EpochOver(h[1..]) then h[0].v else 0) + Total(h[1..])
  }

  /** The traffic shown beyond `high`, reading by reading. */
  function Shown(h: History, high: nat): int {
    if h == [] then 0 else
    match h[0]
    case Reading(v) => v - high + Shown(h[1..], v)
    case Restart => Shown(h[1..], 0)
    case Reset => Shown(h[1..], high)
  }

  /** The gap between two consecutive readings `p` and `v` loses `p` when the process restarted
      in it, nobody called Reset, and the counter had already climbed back to `p`. */
  function LostInGap(p: nat, restarted: bool, reset: bool, v: nat): nat {
    if restarted && !reset && v >= p then p else 0
  }

  /** It charges `p` twice when Reset was called although the process had not restarted. */
  function DoubledInGap(p: nat, restarted: bool, reset: bool): nat {
    if !restarted && reset then p else 0
  }

  function Lost(h: History, p: nat, restarted: bool, reset: bool): nat {
    if h == [] then 0 else
    match h[0]
    case Reading(v) => LostInGap(p, restarted, reset, v) + Lost(h[1..], v, false, false)
    case Restart => Lost(h[1..], p, true, reset)
    case Reset => Lost(h[1..], p, restarted, true)
  }

  function Doubled(h: History, p: nat, restarted: bool, reset: bool): nat {
    if h == [] then 0 else
    match h[0]
    case Reading(v) => DoubledInGap(p, restarted, reset) + Doubled(h[1..], v, false, false)
    case Restart => Doubled(h[1..], p, true, reset)
    case Reset => Doubled(h[1..], p, restarted, true)
  }

  predicate InRange(h: History) {
    forall i :: 0 <= i < |h| && h[i].Reading? ==> h[i].v < TWO_63
  }

  lemma {:induction false} MonotoneInRange(h: History, high: nat)
    requires Monotone(h, high)
    ensures InRange(h)
  {
    if h != [] {
      MonotoneInRange(h[1..], if h[0].Reading? then h[0].v else if h[0].Restart? then 0 else high);
      assert forall i :: 1 <= i < |h| ==> h[i] == h[1..][i - 1];
    }
  }

  lemma {:induction false} ShownIsTotal(h: History, high: nat)
    ensures Shown(h, high) == Total(h) - (if EpochOver(h) then 0 else high)
  {
    if h != [] {
      ShownIsTotal(h[1..], if h[0].Reading? then h[0].v else if h[0].Restart? then 0 else high);
    }
  }

  lemma {:induction false} Balance(h: History, p: nat, restarted: bool, reset: bool)
    requires p < TWO_63 && Monotone(h, if restarted then 0 else p) && InRange(h)
    ensures Charged(h, if reset then 0 else p) + Lost(h, p, restarted, reset)
            == Shown(h, if restarted then 0 else p) + Doubled(h, p, restarted, reset)
  {
    if h != [] {
      assert forall i :: 0 <= i < |h[1..]| ==> h[1..][i] == h[i + 1];
      match h[0] {
        case Reading(v) => Balance(h[1..], v, false, false);
        case Restart => Balance(h[1..], p, true, reset);
        case Reset => Balance(h[1..], p, restarted, true);
      }
    }
  }

  /** The whole account of any history: what was charged, plus what was lost at restarts that
      nobody reset for, is the true total plus what a Reset without a restart charged twice. */
  lemma {:induction false} ChargedExactly(h: History)
    requires Monotone(h, 0)
    ensures InRange(h)
    ensures Charged(h, 0) + Lost(h, 0, false, false) == Total(h) + Doubled(h, 0, false, false)
  {
    MonotoneInRange(h, 0);
    Balance(h, 0, false, false);
    ShownIsTotal(h, 0);
  }

  /** No gap holds a Reset unless the process restarted in it too. */
  predicate ResetsFollowRestarts(h: History, restarted: bool, reset: bool) {
    if h == [] then true else
    match h[0]
    case Reading(_) => (reset ==> restarted) && ResetsFollowRestarts(h[1..], false, false)
    case Restart => ResetsFollowRestarts(h[1..], true, reset)
    case Reset => ResetsFollowRestarts(h[1..], restarted, true)
  }

  /** No gap holds a restart without a Reset. */
  predicate RestartsAreReset(h: History, restarted: bool, reset: bool) {
    if h == [] then true else
    match h[0]
    case Reading(_) => (restarted ==> reset) && RestartsAreReset(h[1..], false, false)
    case Restart => RestartsAreReset(h[1..], true, reset)
    case Reset => RestartsAreReset(h[1..], restarted, true)
  }

  lemma {:induction false} NothingDoubled(h: History, p: nat, restarted: bool, reset: bool)
    requires ResetsFollowRestarts(h, restarted, reset)
    ensures Doubled(h, p, restarted, reset) == 0
  {
    if h != [] {
      match h[0] {
        case Reading(v) => NothingDoubled(h[1..], v, false, false);
        case Restart => NothingDoubled(h[1..], p, true, reset);
        case Reset => NothingDoubled(h[1..], p, restarted, true);
      }
    }
  }

  lemma {:induction false} NothingLost(h: History, p: nat, restarted: bool, reset: bool)
    requires RestartsAreReset(h, restarted, reset)
    ensures Lost(h, p, restarted, reset) == 0
  {
    if h != [] {
      match h[0] {
        case Reading(v) => NothingLost(h[1..], v, false, false);
        case Restart => NothingLost(h[1..], p, true, reset);
        case Reset => NothingLost(h[1..], p, restarted, true);
      }
    }
  }

  /** With one Reset at each restart and nowhere else, every byte is charged once. */
  lemma {:induction false} Conservation(h: History)
    requires Monotone(h, 0)
    requires ResetsFollowRestarts(h, false, false) && RestartsAreReset(h, false, false)
    ensures InRange(h) && Charged(h, 0) == Total(h)
  {
    ChargedExactly(h);
    NothingDoubled(h, 0, false, false);
    NothingLost(h, 0, false, false);
  }

  /** With restarts that nobody resets for, bytes can only be lost, and exactly those that
      `Lost` names. */
  lemma {:induction false} NeverOverCharged(h: History)
    requires Monotone(h, 0) && ResetsFollowRestarts(h, false, false)
    ensures InRange(h) && Charged(h, 0) == Total(h) - Lost(h, 0, false, false) <= Total(h)
  {
    ChargedExactly(h);
    NothingDoubled(h, 0, false, false);
  }

  /** A pass between the restart and Meter.Reset breaks this: its reading is charged again. */
  lemma PassBeforeReset(r: nat, s: nat)
    requires r <= s < TWO_63
    ensures var h := [Restart, Reading(r), Reset, Reading(s)];
            Monotone(h, 0) && InRange(h) && Charged(h, 0) == Total(h) + r
  {
    var h3 := [Reading(s)];
    var h2, h1 := [Reset] + h3, [Reading(r), Reset] + h3;
    LastReading(r, s);
    assert h2[1..] == h3 && h1[1..] == h2 && !EpochOver(h2);
    assert Monotone(h2, r) && Total(h2) == s && Charged(h2, r) == s;
    assert Monotone(h1, 0) && Total(h1) == s && Charged(h1, 0) == r + s;
    assert [Restart, Reading(r), Reset, Reading(s)][1..] == h1;
  }

  lemma {:induction false} LastReading(r: nat, s: nat)
    requires r <= s < TWO_63
    ensures var h := [Reading(s)];
            Monotone(h, r) && !EpochOver(h) && Total(h) == s && Charged(h, 0) == s
  {
    var h := [Reading(s)];
    assert h[1..] == [] && EpochOver(h[1..]);
    assert Total(h) == s + Total(h[1..]);
  }

  // ----- Passes whose readings arrive out of order -----

  function Sum(h: seq<nat>): nat {
    if h == [] then 0 else h[0] + Sum(h[1..])
  }

  /** The readings that a smaller one follows. */
  function Overtaken(r: seq<nat>): seq<nat> {
    if |r| < 2 then [] else (if r[1] < r[0] then [r[0]] else []) + Overtaken(r[1..])
  }

  function Readings(r: seq<nat>): History {
    seq(|r|, i requires 0 <= i < |r| => Reading(r[i]))
  }

  /** Collect and Deltas are separate steps, so two passes can hand their readings over in the
      wrong order. In one life of the process the meter then charges the last reading handed
      over plus every reading that a smaller one overtook; so it charges exactly the last
      reading precisely when nothing positive was overtaken. */
  lemma {:induction false} OutOfOrder(r: seq<nat>)
    requires r != [] && forall i :: 0 <= i < |r| ==> r[i] < TWO_63
    ensures Charged(Readings(r), 0) == r[|r| - 1] + Sum(Overtaken(r))
  {
    OutOfOrderFrom(r);
    assert Readings(r)[1..] == Readings(r[1..]);
  }

  lemma {:induction false} OutOfOrderFrom(r: seq<nat>)
    requires r != [] && forall i :: 0 <= i < |r| ==> r[i] < TWO_63
    ensures Charged(Readings(r[1..]), r[0]) == r[|r| - 1] - r[0] + Sum(Overtaken(r))
  {
    if |r| > 1 {
      OutOfOrderFrom(r[1..]);
      assert Readings(r[1..])[1..] == Readings(r[1..][1..]);
      assert Overtaken(r) == (if r[1] < r[0] then [r[0]] else []) + Overtaken(r[1..]);
      if r[1] < r[0] {
        assert Overtaken(r)[1..] == Overtaken(r[1..]);
      } else {
        assert Overtaken(r) == Overtaken(r[1..]);
      }
    }
  }
}
