/** From counter names to users: parseUserStats of internal/stats/collector.go, and the whole
    way from the answer's bytes to the table of users. */
module Counters {
  import opened Machine
  import opened Varint
  import opened Wire
  import opened StatsApi

  datatype UserStats = UserStats(upload: Int64, download: Int64)

  datatype Direction = Uplink | Downlink | Other

  const ARROW: Byte := 62 // '>'
  const SEP: Bytes := [62, 62, 62] // ">>>"
  const USER: Bytes := [117, 115, 101, 114]
  const TRAFFIC: Bytes := [116, 114, 97, 102, 102, 105, 99]
  const UPLINK: Bytes := [117, 112, 108, 105, 110, 107]
  const DOWNLINK: Bytes := [100, 111, 119, 110, 108, 105, 110, 107]

  predicate SepAt(s: Bytes, i: nat) {
    i + 3 <= |s| && s[i] == s[i + 1] == s[i + 2] == ARROW
  }

  /** The first place at or after `i` where the separator starts, |s| when there is none. */
  function FirstSep(s: Bytes, i: nat): (k: nat)
    requires i <= |s|
    ensures i <= k <= |s|
    ensures k < |s| ==> SepAt(s, k)
    ensures forall j :: i <= j < k ==> !SepAt(s, j)
    decreases |s| - i
  {
    if i + 3 > |s| then |s|
    else if SepAt(s, i) then i
    else FirstSep(s, i + 1)
  }

  /** strings.Split(s, ">>>"). */
  function Split(s: Bytes): (parts: seq<Bytes>)
    ensures parts != []
  {
    var k := FirstSep(s, 0);
    if k == |s| then [s] else [s[..k]] + Split(s[k + 3..])
  }

  /** The user and direction that a counter name belongs to, if it has the shape of a user counter. */
  function Owner(name: Bytes): Option<(Bytes, Direction)> {
    var p := Split(name);
    if |p| != 4 || p[0] != USER || p[2] != TRAFFIC || p[1] == [] then None
    else Some((p[1], if p[3] == UPLINK then Uplink else if p[3] == DOWNLINK then Downlink else Other))
  }

  type Table = map<Bytes, UserStats>

  function Current(t: Table, uuid: Bytes): UserStats {
    if uuid in t then t[uuid] else UserStats(0, 0)
  }

  function Enter(t: Table, e: Stat): Table {
    match Owner(e.name)
    case None => t
    case Some((uuid, Uplink)) => t[uuid := Current(t, uuid).(upload := e.value)]
    case Some((uuid, Downlink)) => t[uuid := Current(t, uuid).(download := e.value)]
    case Some((uuid, Other)) => t[uuid := Current(t, uuid)]
  }

  function EnterAll(t: Table, entries: seq<Stat>): Table
    decreases |entries|
  {
    if entries == [] then t else EnterAll(Enter(t, entries[0]), entries[1..])
  }

  method ParseUserStats(entries: seq<Stat>) returns (stats: Table)
    ensures stats == EnterAll(map[], entries)
  {
    stats := map[];
    for i := 0 to |entries|
      invariant EnterAll(map[], entries) == EnterAll(stats, entries[i..])
    {
      assert entries[i..][1..] == entries[i + 1..];
      var parts := Split(entries[i].name);
      if |parts| != 4 || parts[0] != USER || parts[2] != TRAFFIC || parts[1] == [] {
        continue;
      }
      var us := UserStats(0, 0);
      if parts[1] in stats {
        us := stats[parts[1]];
      }
      if parts[3] == UPLINK {
        us := us.(upload := entries[i].value);
      } else if parts[3] == DOWNLINK {
        us := us.(download := entries[i].value);
      }
      stats := stats[parts[1] := us];
    }
  }

  // ----- What the table means -----

  /** The last value that the entries give for a user and direction, 0 when there is none. */
  function LastValue(entries: seq<Stat>, uuid: Bytes, dir: Direction): Int64 {
    if entries == [] then 0
    else
      var e := entries[|entries| - 1];
      if Owner(e.name) == Some((uuid, dir)) then e.value else LastValue(entries[..|entries| - 1], uuid, dir)
  }

  ghost predicate Mentions(entries: seq<Stat>, uuid: Bytes) {
    exists e :: e in entries && OwnedBy(e, uuid)
  }

  predicate OwnedBy(e: Stat, uuid: Bytes) {
    Owner(e.name).Some? && Owner(e.name).value.0 == uuid
  }

  /** The table holds exactly the users that some counter names, each with the last value
      given for its two directions. */
  lemma {:induction false} TableExact(entries: seq<Stat>, uuid: Bytes)
    ensures uuid in EnterAll(map[], entries) <==> Mentions(entries, uuid)
    ensures Current(EnterAll(map[], entries), uuid) ==
            UserStats(LastValue(entries, uuid, Uplink), LastValue(entries, uuid, Downlink))
  {
    if entries != [] {
      var n := |entries| - 1;
      var init, e := entries[..n], entries[n];
      TableExact(init, uuid);
      assert init + [e] == entries;
      EnterAllSnoc(map[], init, e);
      MentionsSnoc(init, e, uuid);
      EnterOne(EnterAll(map[], init), e, uuid);
    }
  }

  lemma MentionsSnoc(init: seq<Stat>, e: Stat, uuid: Bytes)
    ensures Mentions(init + [e], uuid) <==> Mentions(init, uuid) || OwnedBy(e, uuid)
  {
    assert forall x :: x in init + [e] <==> x in init || x == e;
  }

  lemma EnterOne(t: Table, e: Stat, uuid: Bytes)
    ensures uuid in Enter(t, e) <==> uuid in t || OwnedBy(e, uuid)
    ensures var was, now := Current(t, uuid), Current(Enter(t, e), uuid);
            && now.upload == (if Owner(e.name) == Some((uuid, Uplink)) then e.value else was.upload)
            && now.download == (if Owner(e.name) == Some((uuid, Downlink)) then e.value else was.download)
  {
  }

  lemma {:induction false} EnterAllSnoc(t: Table, entries: seq<Stat>, e: Stat)
    ensures EnterAll(t, entries + [e]) == Enter(EnterAll(t, entries), e)
    decreases |entries|
  {
    if entries == [] {
      assert (entries + [e])[1..] == [];
    } else {
      assert (entries + [e])[1..] == entries[1..] + [e];
      EnterAllSnoc(Enter(t, entries[0]), entries[1..], e);
    }
  }

  // ----- Names round trip -----

  function CounterName(uuid: Bytes, dir: Bytes): Bytes {
    USER + SEP + (uuid + SEP + (TRAFFIC + SEP + dir))
  }

  /** A part that the separator cannot swallow: no ">>>" inside and no '>' at the end. */
  predicate SafePart(a: Bytes) {
    && (forall i :: 0 <= i < |a| ==> !SepAt(a, i))
    && (a != [] ==> a[|a| - 1] != ARROW)
  }

  lemma {:induction false} SplitFrontIff(a: Bytes, t: Bytes)
    ensures Split(a + SEP + t)[0] == a <==> SafePart(a)
    ensures SafePart(a) ==> Split(a + SEP + t) == [a] + Split(t)
  {
    var s := a + SEP + t;
    assert SepAt(s, |a|);
    var k := FirstSep(s, 0);
    if SafePart(a) {
      assert forall i :: 0 <= i && i + 3 <= |a| ==> SepAt(s, i) == SepAt(a, i);
      assert k == |a|;
      assert s[..k] == a && s[k + 3..] == t;
    } else if exists i :: 0 <= i < |a| && SepAt(a, i) {
      var i :| 0 <= i < |a| && SepAt(a, i);
      assert SepAt(s, i);
    } else {
      assert SepAt(s, |a| - 1);
    }
  }

  lemma {:induction false} NoSep(a: Bytes)
    requires ARROW !in a
    ensures SafePart(a) && Split(a) == [a]
  {
    assert FirstSep(a, 0) == |a|;
  }

  function DirectionOf(dir: Bytes): Direction {
    if dir == UPLINK then Uplink else if dir == DOWNLINK then Downlink else Other
  }

  /** A counter is credited to the user it was named for exactly when the uuid is not empty
      and the separator cannot swallow a part of it. */
  lemma OwnerOfCounterIff(uuid: Bytes, dir: Bytes)
    requires ARROW !in dir
    ensures Owner(CounterName(uuid, dir)) == Some((uuid, DirectionOf(dir))) <==> uuid != [] && SafePart(uuid)
  {
    var rest := TRAFFIC + SEP + dir;
    NoSep(USER);
    NoSep(TRAFFIC);
    NoSep(dir);
    SplitFrontIff(USER, uuid + SEP + rest);
    SplitFrontIff(uuid, rest);
    SplitFrontIff(TRAFFIC, dir);
    assert [TRAFFIC] + [dir] == [TRAFFIC, dir];
    OwnerOfParts(CounterName(uuid, dir), uuid, rest, dir);
  }

  lemma {:induction false} OwnerOfParts(name: Bytes, uuid: Bytes, rest: Bytes, dir: Bytes)
    requires Split(name) == [USER] + Split(uuid + SEP + rest)
    requires Split(uuid + SEP + rest)[0] == uuid <==> SafePart(uuid)
    requires SafePart(uuid) ==> Split(uuid + SEP + rest) == [uuid] + Split(rest)
    requires Split(rest) == [TRAFFIC, dir]
    ensures Owner(name) == Some((uuid, DirectionOf(dir))) <==> uuid != [] && SafePart(uuid)
  {
    var parts := Split(name);
    assert parts[1] == Split(uuid + SEP + rest)[0];
    if SafePart(uuid) {
      assert parts == [USER] + ([uuid] + [TRAFFIC, dir]) == [USER, uuid, TRAFFIC, dir];
    }
  }

  /** The bytes of an ASCII text. */
  function Ascii(text: string): Bytes
    requires forall i :: 0 <= i < |text| ==> text[i] as int < 128
  {
    seq(|text|, i requires 0 <= i < |text| => text[i] as Byte)
  }

  lemma TextsAre()
    ensures USER + SEP == Ascii("user>>>")
    ensures SEP + TRAFFIC + SEP == Ascii(">>>traffic>>>")
    ensures UPLINK == Ascii("uplink") && DOWNLINK == Ascii("downlink")
  {
  }

  /** The names as the server writes them. */
  lemma CounterNamesAre(uuid: Bytes)
    ensures CounterName(uuid, UPLINK) == Ascii("user>>>") + uuid + Ascii(">>>traffic>>>") + Ascii("uplink")
    ensures CounterName(uuid, DOWNLINK) == Ascii("user>>>") + uuid + Ascii(">>>traffic>>>") + Ascii("downlink")
  {
    TextsAre();
    Regrouped(USER, uuid, UPLINK);
    Regrouped(USER, uuid, DOWNLINK);
  }

  lemma Regrouped(user: Bytes, uuid: Bytes, dir: Bytes)
    ensures user + SEP + (uuid + SEP + (TRAFFIC + SEP + dir)) == (user + SEP) + uuid + (SEP + TRAFFIC + SEP) + dir
  {
  }

  predicate NoSepIn(a: Bytes) {
    forall i :: 0 <= i < |a| ==> !SepAt(a, i)
  }

  lemma {:induction false} AloneIff(a: Bytes)
    ensures Split(a) == [a] <==> NoSepIn(a)
    ensures |Split(a)| == 1 <==> NoSepIn(a)
  {
  }

  lemma {:induction false} Unsplit(s: Bytes) returns (rest: Bytes)
    requires |Split(s)| > 1
    ensures s == Split(s)[0] + SEP + rest && Split(rest) == Split(s)[1..] && SafePart(Split(s)[0])
  {
    var k := FirstSep(s, 0);
    rest := s[k + 3..];
    assert s[k..k + 3] == SEP;
    assert s == s[..k] + SEP + rest;
    SplitFrontIff(s[..k], rest);
  }

  lemma {:induction false} FourJoined(uuid: Bytes, dir: Bytes)
    requires SafePart(uuid) && NoSepIn(dir)
    ensures Split(CounterName(uuid, dir)) == [USER, uuid, TRAFFIC, dir]
  {
    var rest := TRAFFIC + SEP + dir;
    NoSep(USER);
    NoSep(TRAFFIC);
    AloneIff(dir);
    SplitFrontIff(USER, uuid + SEP + rest);
    SplitFrontIff(uuid, rest);
    SplitFrontIff(TRAFFIC, dir);
    assert [USER] + ([uuid] + ([TRAFFIC] + [dir])) == [USER, uuid, TRAFFIC, dir];
  }

  lemma {:induction false} FourParts(name: Bytes, uuid: Bytes, dir: Bytes)
    requires Split(name) == [USER, uuid, TRAFFIC, dir]
    ensures name == CounterName(uuid, dir) && SafePart(uuid) && NoSepIn(dir)
  {
    hide Split;
    var r1 := Unsplit(name);
    var r2 := Unsplit(r1);
    var r3 := Unsplit(r2);
    AloneIff(r3);
    LonePart(r3);
  }

  lemma {:induction false} LonePart(s: Bytes)
    ensures |Split(s)| == 1 ==> Split(s) == [s]
  {
  }

  /** Which of all names are user counters, and whose: those that read
      user>>>uuid>>>traffic>>>direction with a uuid that is not empty and that the separator cannot
      swallow a part of. An unknown direction still makes the user known. */
  lemma {:induction false} OwnerIff(name: Bytes, uuid: Bytes, d: Direction)
    ensures Owner(name) == Some((uuid, d))
            <==> exists dir ::
                   && name == CounterName(uuid, dir) && uuid != [] && SafePart(uuid) && NoSepIn(dir)
                   && d == if dir == UPLINK then Uplink else if dir == DOWNLINK then Downlink else Other
  {
    var p := Split(name);
    if Owner(name) == Some((uuid, d)) {
      assert p == [USER, uuid, TRAFFIC, p[3]];
      FourParts(name, uuid, p[3]);
    }
    forall dir | name == CounterName(uuid, dir) && uuid != [] && SafePart(uuid) && NoSepIn(dir)
      ensures p == [USER, uuid, TRAFFIC, dir]
    {
      FourJoined(uuid, dir);
    }
  }

  // ----- Collect, end to end -----

  datatype Row = Row(uuid: Bytes, up: Int64, down: Int64)

  predicate GoodRow(r: Row) {
    r.uuid != [] && SafePart(r.uuid) && |r.uuid| < TWO_32
  }

  /** What the server reports for a table of users: two counters a user. */
  function Report(rows: seq<Row>): seq<Stat> {
    if rows == [] then []
    else [Stat(CounterName(rows[0].uuid, UPLINK), rows[0].up),
          Stat(CounterName(rows[0].uuid, DOWNLINK), rows[0].down)] + Report(rows[1..])
  }

  function TableOf(t: Table, rows: seq<Row>): Table
    decreases |rows|
  {
    if rows == [] then t
    else TableOf(t[rows[0].uuid := UserStats(rows[0].up, rows[0].down)], rows[1..])
  }

  lemma {:induction false} ReportFits(rows: seq<Row>)
    requires forall r :: r in rows ==> GoodRow(r)
    ensures forall s :: s in Report(rows) ==> |s.name| < TWO_63
  {
    if rows != [] {
      assert rows[0] in rows;
      ReportFits(rows[1..]);
    }
  }

  lemma {:induction false} EnterReport(t: Table, rows: seq<Row>)
    requires forall r :: r in rows ==> GoodRow(r)
    ensures EnterAll(t, Report(rows)) == TableOf(t, rows)
    decreases |rows|
  {
    if rows != [] {
      var r := rows[0];
      assert r in rows;
      OwnerOfCounterIff(r.uuid, UPLINK);
      OwnerOfCounterIff(r.uuid, DOWNLINK);
      var report := Report(rows);
      assert report[1..][1..] == Report(rows[1..]);
      var t' := t[r.uuid := UserStats(r.up, r.down)];
      assert Enter(Enter(t, report[0]), report[1]) == t';
      assert EnterAll(t, report) == EnterAll(t', report[1..][1..]);
      EnterReport(t', rows[1..]);
    }
  }

  /** How Collect can end once the body has arrived. */
  datatype Collected = Users(table: Table) | BadFrame(why: Unframed) | BadMessage(error: WireError) | Panicked

  function CollectBody(body: Bytes): Collected {
    match Unframe(body)
    case Message(msg) =>
      var d := Decode(msg);
      if d.error.None? then Users(EnterAll(map[], d.stats)) else BadMessage(d.error.value)
    case Panic => Panicked
    case why => BadFrame(why)
  }

  method Collect(body: Bytes) returns (r: Collected)
    ensures r == CollectBody(body)
  {
    match Unframe(body) {
      case Message(msg) =>
        var entries, error := DecodeQueryStatsResponse(msg);
        if error.Some? {
          return BadMessage(error.value);
        }
        var table := ParseUserStats(entries);
        return Users(table);
      case Panic =>
        return Panicked;
      case why =>
        return BadFrame(why);
    }
  }

  /** Whatever table of users the server reports, Collect recovers it from the bytes. */
  lemma {:induction false} CollectRecoversReport(rows: seq<Row>)
    requires forall r :: r in rows ==> GoodRow(r)
    ensures forall s :: s in Report(rows) ==> |s.name| < TWO_63
    ensures var msg := EncodeStats(Report(rows));
            |msg| + 5 < TWO_32 ==> CollectBody(Frame(msg)) == Users(TableOf(map[], rows))
  {
    ReportFits(rows);
    DecodeEncode(Report(rows));
    FrameRoundTripIff(EncodeStats(Report(rows)));
    EnterReport(map[], rows);
  }
}
