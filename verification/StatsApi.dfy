/** The QueryStats messages and the gRPC frame of internal/stats/collector.go. */
module StatsApi {
  import opened Machine
  import opened Varint
  import opened Wire

  /** One counter of the answer, statEntry in the source. */
  datatype Stat = Stat(name: Bytes, value: Int64)

  datatype Decoded = Decoded(stats: seq<Stat>, error: Option<WireError>)

  const NO_STAT := Stat([], 0)

  // ----- Decoding -----

  /** The inner callback of decodeQueryStatsResponse. */
  function Absorb(e: Stat, v: Visit): Stat {
    match v
    case Data(f, d) => if f == 1 then e.(name := d) else e
    case Number(f, n) => if f == 2 then e.(value := ToInt64(n)) else e
  }

  function AbsorbAll(e: Stat, visits: seq<Visit>): Stat
    decreases |visits|
  {
    if visits == [] then e else AbsorbAll(Absorb(e, visits[0]), visits[1..])
  }

  /** Field 1 of wire type 2: one nested Stat message. */
  predicate IsStatField(v: Visit) {
    v.Data? && v.field == 1
  }

  /** What the outer callback makes of one field: no entry, one, or an error. */
  function Nested(v: Visit): Decoded {
    if !IsStatField(v) then Decoded([], None)
    else
      var inner := Walk(v.data);
      if inner.error.Some? then Decoded([], inner.error) else Decoded([AbsorbAll(NO_STAT, inner.visits)], None)
  }

  function DecodeVisits(visits: seq<Visit>): Decoded {
    if visits == [] then Decoded([], None)
    else
      var n := Nested(visits[0]);
      if n.error.Some? then n else After(n.stats, DecodeVisits(visits[1..]))
  }

  function After(stats: seq<Stat>, d: Decoded): Decoded {
    Decoded(stats + d.stats, d.error)
  }

  lemma AfterTwice(a: seq<Stat>, b: seq<Stat>, d: Decoded)
    ensures After(a, After(b, d)) == After(a + b, d)
  {
    assert a + (b + d.stats) == (a + b) + d.stats;
  }

  /** One turn of the outer callback. */
  lemma DecodeNext(out: seq<Stat>, visits: seq<Visit>, i: nat, n: Decoded)
    requires i < |visits| && n == Nested(visits[i])
    ensures After(out, DecodeVisits(visits[i..]))
            == if n.error.Some? then After(out, n) else After(out + n.stats, DecodeVisits(visits[i + 1..]))
  {
    assert visits[i..][0] == visits[i] && visits[i..][1..] == visits[i + 1..];
    AfterTwice(out, n.stats, DecodeVisits(visits[i + 1..]));
  }

  function Decode(b: Bytes): Decoded {
    var outer := Walk(b);
    var d := DecodeVisits(outer.visits);
    if d.error.Some? then d else Decoded(d.stats, outer.error)
  }

  /** The name that a nested message gives: the last one, empty if there is none. */
  function NameIn(visits: seq<Visit>): Bytes {
    if visits == [] then []
    else
      var v := visits[|visits| - 1];
      if v.Data? && v.field == 1 then v.data else NameIn(visits[..|visits| - 1])
  }

  /** The value that a nested message gives: the last one, zero if there is none. */
  function ValueIn(visits: seq<Visit>): Int64 {
    if visits == [] then 0
    else
      var v := visits[|visits| - 1];
      if v.Number? && v.field == 2 then ToInt64(v.val) else ValueIn(visits[..|visits| - 1])
  }

  lemma {:induction false} AbsorbSnoc(e: Stat, visits: seq<Visit>, v: Visit)
    ensures AbsorbAll(e, visits + [v]) == Absorb(AbsorbAll(e, visits), v)
    decreases |visits|
  {
    if visits == [] {
      assert visits + [v] == [v] && [v][1..] == [];
    } else {
      assert (visits + [v])[1..] == visits[1..] + [v];
      AbsorbSnoc(Absorb(e, visits[0]), visits[1..], v);
    }
  }

  /** A nested message means its last name and its last value; what is absent is empty or zero, and
      all other fields are ignored. */
  lemma {:induction false} StatMeans(visits: seq<Visit>)
    ensures AbsorbAll(NO_STAT, visits) == Stat(NameIn(visits), ValueIn(visits))
  {
    if visits != [] {
      var front, v := visits[..|visits| - 1], visits[|visits| - 1];
      StatMeans(front);
      AbsorbSnoc(NO_STAT, front, v);
      assert visits == front + [v];
    }
  }

  /** The inner walk: later fields overwrite earlier ones. */
  method CollectStat(visits: seq<Visit>) returns (e: Stat)
    ensures e == AbsorbAll(NO_STAT, visits) == Stat(NameIn(visits), ValueIn(visits))
  {
    StatMeans(visits);
    e := NO_STAT;
    var k := 0;
    while k < |visits|
      invariant k <= |visits|
      invariant AbsorbAll(NO_STAT, visits) == AbsorbAll(e, visits[k..])
    {
      assert visits[k..][1..] == visits[k + 1..];
      e := Absorb(e, visits[k]);
      k := k + 1;
    }
  }

  method DecodeNested(v: Visit) returns (n: Decoded)
    ensures n == Nested(v)
  {
    if !v.Data? || v.field != 1 {
      return Decoded([], None);
    }
    var inner, error := WalkFields(v.data);
    if error.Some? {
      return Decoded([], error);
    }
    var e := CollectStat(inner);
    n := Decoded([e], None);
  }

  /** The outer callback over the fields: it appends one entry per nested message and stops at
      the first one that does not parse. */
  method DecodeFields(visits: seq<Visit>) returns (out: seq<Stat>, error: Option<WireError>)
    ensures Decoded(out, error) == DecodeVisits(visits)
  {
    out, error := [], None;
    for i := 0 to |visits|
      invariant DecodeVisits(visits) == After(out, DecodeVisits(visits[i..]))
    {
      var n := DecodeNested(visits[i]);
      DecodeNext(out, visits, i, n);
      out := out + n.stats;
      if n.error.Some? {
        return out, n.error;
      }
    }
  }

  /** decodeQueryStatsResponse. */
  method DecodeQueryStatsResponse(b: Bytes) returns (out: seq<Stat>, error: Option<WireError>)
    ensures Decoded(out, error) == Decode(b)
  {
    var visits, walkError := WalkFields(b);
    out, error := DecodeFields(visits);
    if error.None? {
      error := walkError;
    }
  }

  lemma {:induction false} DecodeVisitsConcat(v: seq<Visit>, w: seq<Visit>)
    requires DecodeVisits(v).error.None?
    ensures DecodeVisits(v + w) == Decoded(DecodeVisits(v).stats + DecodeVisits(w).stats, DecodeVisits(w).error)
  {
    hide Nested;
    if v == [] {
      assert v + w == w;
    } else {
      assert (v + w)[1..] == v[1..] + w;
      DecodeVisitsConcat(v[1..], w);
      AfterTwice(Nested(v[0]).stats, DecodeVisits(v[1..]).stats, DecodeVisits(w));
    }
  }

  /** Decoding distributes over concatenation of messages that decode. */
  lemma DecodeConcat(b: Bytes, c: Bytes)
    requires Decode(b).error.None?
    ensures Decode(b + c) == Decoded(Decode(b).stats + Decode(c).stats, Decode(c).error)
  {
    WalkConcat(b, c);
    DecodeVisitsConcat(Walk(b).visits, Walk(c).visits);
  }

  /** The error that a field raises where it stands: its own, or that of the nested message in it. */
  function FaultAt(c: Bytes): Option<WireError> {
    match NextField(c)
    case Stop(e) => Some(e)
    case Field(visits, _) =>
      if |visits| == 1 && visits[0].Data? && visits[0].field == 1 then Walk(visits[0].data).error else None
  }

  /** The first fault decides: the counters before it are returned with its error, whatever comes
      after. */
  lemma {:induction false} FirstFaultDecides(b: Bytes, c: Bytes)
    requires Decode(b).error.None? && c != [] && FaultAt(c).Some?
    ensures Decode(b + c) == Decoded(Decode(b).stats, FaultAt(c))
  {
    DecodeConcat(b, c);
    match NextField(c) {
      case Stop(e) =>
      case Field(visits, size) =>
        FaultFirst(visits, Walk(c[size..]).visits);
    }
  }

  lemma {:induction false} FaultFirst(first: seq<Visit>, rest: seq<Visit>)
    requires |first| == 1 && Nested(first[0]).error.Some? && Nested(first[0]).stats == []
    ensures DecodeVisits(first + rest) == Decoded([], Nested(first[0]).error)
  {
  }

  /** Not a nested Stat, by its key: another field number, or another wire type. */
  predicate OtherKey(key: Uint64) {
    key / 8 != 1 || key % 8 != 2
  }

  /** A record whose key is `k` bytes long and not that of a nested Stat. */
  ghost predicate IsOtherRecord(r: Bytes, k: nat) {
    IsRecord(r) && 0 < k <= |r| && IsVarint(r[..k]) && OtherKey(VarintValue(r[..k]))
  }

  lemma UnknownRecord(r: Bytes, k: nat)
    requires IsOtherRecord(r, k)
    ensures Decode(r) == Decoded([], None)
  {
    RecordAccepted(r);
    RecordShows(r, k);
    var v := NextFieldVisits(r);
    if v != [] {
      assert v[1..] == [] && !IsStatField(v[0]);
      assert DecodeVisits(v) == After([], DecodeVisits(v[1..]));
    }
  }

  /** A well-formed field with any other number or wire type is invisible wherever it is inserted
      at the top level of a message. */
  lemma UnknownFieldIgnored(b: Bytes, r: Bytes, c: Bytes, k: nat)
    requires Decode(b).error.None? && IsOtherRecord(r, k)
    ensures Decode(b + r + c) == Decode(b + c)
  {
    hide Decode, IsOtherRecord;
    UnknownRecord(r, k);
    DecodeConcat(b, r);
    var stats := Decode(b).stats;
    assert Decode(b + r) == Decoded(stats, None) by {
      assert stats + [] == stats;
    }
    DecodeConcat(b + r, c);
    DecodeConcat(b, c);
  }

  // ----- Encoding -----

  /** A length-delimited field. */
  function DataField(key: Byte, data: Bytes): Bytes
    requires |data| < TWO_64
  {
    [key] + VarintBytes(|data|) + data
  }

  function StatBody(s: Stat): Bytes
    requires |s.name| < TWO_63
  {
    DataField(0x0a, s.name) + ([0x10] + VarintBytes(ToUint64(s.value)))
  }

  /** encodeStat: what the server sends for one counter. Go's lengths fit an int. */
  function EncodeStat(s: Stat): Bytes
    requires |s.name| < TWO_63
  {
    StatBodyLength(s);
    DataField(0x0a, StatBody(s))
  }

  function EncodeStats(stats: seq<Stat>): Bytes
    requires forall s :: s in stats ==> |s.name| < TWO_63
  {
    if stats == [] then [] else EncodeStat(stats[0]) + EncodeStats(stats[1..])
  }

  lemma StatBodyLength(s: Stat)
    requires |s.name| < TWO_63
    ensures |StatBody(s)| <= |s.name| + 22 < TWO_64
  {
    EncodingIsVarint(|s.name|);
    EncodingIsVarint(ToUint64(s.value));
  }

  lemma OneByteKey(key: Byte, rest: Bytes)
    requires key < 0x80
    ensures VarintLength([key] + rest) == 1
    ensures VarintValue(([key] + rest)[..1]) == key
  {
    assert VarintBytes(key) == [key];
    VarintRoundTrip(key, rest);
  }

  lemma WalkDataField(key: Byte, data: Bytes)
    requires |data| < TWO_64 && key < 0x80 && key % 8 == 2
    ensures Walk(DataField(key, data)) == Walked([Data(key / 8, data)], None)
  {
    var r := DataField(key, data);
    var body := VarintBytes(|data|) + data;
    assert r == [key] + body;
    OneByteKey(key, body);
    VarintRoundTrip(|data|, data);
    assert r[1..] == body;
    var m := |VarintBytes(|data|)|;
    assert body[m..m + |data|] == data;
    assert NextField(r) == Field([Data(key / 8, data)], |r|);
    assert r[|r|..] == [];
  }

  lemma {:induction false} WalkNumberField(key: Byte, v: Uint64)
    requires key < 0x80 && key % 8 == 0
    ensures Walk([key] + VarintBytes(v)) == Walked([Number(key / 8, v)], None)
  {
    var body := VarintBytes(v);
    var r := [key] + body;
    OneByteKey(key, body);
    VarintRoundTrip(v, []);
    assert body + [] == body && r[1..] == body;
    assert NextField(r) == Field([Number(key / 8, v)], |r|);
    assert r[|r|..] == [];
  }

  lemma WalkStatBody(s: Stat)
    requires |s.name| < TWO_63
    ensures Walk(StatBody(s)) == Walked([Data(1, s.name), Number(2, ToUint64(s.value))], None)
  {
    var name := NamePart(s);
    var value := ValuePart(s);
    WalkTwo(name, value, Data(1, s.name), Number(2, ToUint64(s.value)));
    assert StatBody(s) == name + value;
  }

  lemma NamePart(s: Stat) returns (part: Bytes)
    requires |s.name| < TWO_63
    ensures part == DataField(0x0a, s.name) && Walk(part) == Walked([Data(1, s.name)], None)
  {
    part := DataField(0x0a, s.name);
    WalkDataField(0x0a, s.name);
  }

  lemma ValuePart(s: Stat) returns (part: Bytes)
    ensures part == [0x10] + VarintBytes(ToUint64(s.value))
    ensures Walk(part) == Walked([Number(2, ToUint64(s.value))], None)
  {
    part := [0x10] + VarintBytes(ToUint64(s.value));
    WalkNumberField(0x10, ToUint64(s.value));
  }

  lemma {:induction false} WalkTwo(a: Bytes, b: Bytes, v: Visit, w: Visit)
    requires Walk(a) == Walked([v], None) && Walk(b) == Walked([w], None)
    ensures Walk(a + b) == Walked([v, w], None)
  {
    WalkConcat(a, b);
    assert [v] + [w] == [v, w];
  }

  lemma AbsorbStat(s: Stat)
    ensures AbsorbAll(NO_STAT, [Data(1, s.name), Number(2, ToUint64(s.value))]) == s
  {
    var inner := [Data(1, s.name), Number(2, ToUint64(s.value))];
    assert inner[1..] == [inner[1]] && inner[1..][1..] == [];
    assert AbsorbAll(NO_STAT, inner) == AbsorbAll(Absorb(NO_STAT, inner[0]), inner[1..]);
  }

  lemma DecodeOne(s: Stat)
    requires |s.name| < TWO_63
    ensures Decode(EncodeStat(s)) == Decoded([s], None)
  {
    StatBodyLength(s);
    WalkStatBody(s);
    AbsorbStat(s);
    WalkDataField(0x0a, StatBody(s));
    var outer := [Data(1, StatBody(s))];
    assert outer[1..] == [];
    assert DecodeVisits(outer) == Decoded([s] + [], None);
  }

  /** Any list of counters, negative values included, survives encode and decode. */
  lemma {:induction false} DecodeEncode(stats: seq<Stat>)
    requires forall s :: s in stats ==> |s.name| < TWO_63
    ensures Decode(EncodeStats(stats)) == Decoded(stats, None)
  {
    if stats != [] {
      DecodeOne(stats[0]);
      DecodeEncode(stats[1..]);
      DecodeConcat(EncodeStat(stats[0]), EncodeStats(stats[1..]));
    }
  }

  // ----- An encoder that leaves out what is empty or zero, as proto3 does -----

  function SparseBody(s: Stat): Bytes
    requires |s.name| < TWO_63
  {
    (if s.name == [] then [] else DataField(0x0a, s.name))
    + (if s.value == 0 then [] else [0x10] + VarintBytes(ToUint64(s.value)))
  }

  function SparseVisits(s: Stat): seq<Visit> {
    (if s.name == [] then [] else [Data(1, s.name)]) + (if s.value == 0 then [] else [Number(2, ToUint64(s.value))])
  }

  lemma SparseLength(s: Stat)
    requires |s.name| < TWO_63
    ensures |SparseBody(s)| <= |s.name| + 22 < TWO_64
  {
    EncodingIsVarint(|s.name|);
    EncodingIsVarint(ToUint64(s.value));
  }

  function EncodeSparse(stats: seq<Stat>): Bytes
    requires forall s :: s in stats ==> |s.name| < TWO_63
  {
    if stats == [] then []
    else
      SparseLength(stats[0]);
      DataField(0x0a, SparseBody(stats[0])) + EncodeSparse(stats[1..])
  }

  lemma SparseWalk(s: Stat)
    requires |s.name| < TWO_63
    ensures Walk(SparseBody(s)) == Walked(SparseVisits(s), None)
  {
    var name := OptionalName(s);
    var value := OptionalValue(s);
    WalkConcat(name, value);
    assert SparseBody(s) == name + value;
  }

  lemma OptionalName(s: Stat) returns (part: Bytes)
    requires |s.name| < TWO_63
    ensures part == if s.name == [] then [] else DataField(0x0a, s.name)
    ensures Walk(part) == Walked(if s.name == [] then [] else [Data(1, s.name)], None)
  {
    if s.name == [] {
      part := [];
    } else {
      part := NamePart(s);
    }
  }

  lemma OptionalValue(s: Stat) returns (part: Bytes)
    ensures part == if s.value == 0 then [] else [0x10] + VarintBytes(ToUint64(s.value))
    ensures Walk(part) == Walked(if s.value == 0 then [] else [Number(2, ToUint64(s.value))], None)
  {
    if s.value == 0 {
      part := [];
    } else {
      part := ValuePart(s);
    }
  }

  lemma SparseMeans(s: Stat)
    ensures NameIn(SparseVisits(s)) == s.name && ValueIn(SparseVisits(s)) == s.value
  {
    var v := SparseVisits(s);
    if s.name != [] && s.value != 0 {
      assert v[..1] == [Data(1, s.name)] && v[..1][..0] == [];
    } else if v != [] {
      assert v[..0] == [];
    }
  }

  lemma DecodeSparseOne(s: Stat) returns (message: Bytes)
    requires |s.name| < TWO_63
    ensures |SparseBody(s)| < TWO_64 && message == DataField(0x0a, SparseBody(s))
    ensures Decode(message) == Decoded([s], None)
  {
    SparseLength(s);
    SparseWalk(s);
    SparseMeans(s);
    StatMeans(SparseVisits(s));
    message := DataField(0x0a, SparseBody(s));
    WalkDataField(0x0a, SparseBody(s));
    var outer := [Data(1, SparseBody(s))];
    assert outer[1..] == [] && Nested(outer[0]) == Decoded([s], None);
    assert DecodeVisits(outer) == Decoded([s] + [], None);
  }

  /** Any list of counters survives an encoder that sends no empty name and no zero value: an idle
      counter stays at zero. */
  lemma {:induction false} DecodeSparse(stats: seq<Stat>)
    requires forall s :: s in stats ==> |s.name| < TWO_63
    ensures Decode(EncodeSparse(stats)) == Decoded(stats, None)
  {
    if stats != [] {
      var message := DecodeSparseOne(stats[0]);
      DecodeSparse(stats[1..]);
      DecodeConcat(message, EncodeSparse(stats[1..]));
      assert [stats[0]] + stats[1..] == stats;
    }
  }

  function RequestVisits(pattern: Bytes, reset: bool): seq<Visit> {
    (if pattern == [] then [] else [Data(1, pattern)]) + (if reset then [Number(2, 1)] else [])
  }

  /** encodeQueryStatsRequest: absent fields are not sent, present ones parse back. */
  method EncodeQueryStatsRequest(pattern: Bytes, reset: bool) returns (out: Bytes)
    requires |pattern| < TWO_63
    ensures Walk(out) == Walked(RequestVisits(pattern, reset), None)
  {
    out := [];
    if pattern != [] {
      out := out + [0x0a];
      out := AppendVarint(out, |pattern|);
      out := out + pattern;
      assert out == DataField(0x0a, pattern);
    }
    RequestWalk(pattern, out);
    if reset {
      out := out + [0x10, 0x01];
    }
  }

  lemma {:induction false} RequestWalk(pattern: Bytes, out: Bytes)
    requires |pattern| < TWO_63
    requires out == if pattern == [] then [] else DataField(0x0a, pattern)
    ensures Walk(out) == Walked(RequestVisits(pattern, false), None)
    ensures Walk(out + [0x10, 0x01]) == Walked(RequestVisits(pattern, true), None)
  {
    if pattern != [] {
      WalkDataField(0x0a, pattern);
    }
    WalkNumberField(0x10, 1);
    assert VarintBytes(1) == [1];
    assert [0x10] + [0x01] == [0x10, 0x01];
    WalkConcat(out, [0x10, 0x01]);
  }

  // ----- gRPC "Length-Prefixed-Message" -----

  function BigEndian32(n: int): Bytes
    requires 0 <= n < TWO_32
  {
    [n / 0x100_0000, n / 0x1_0000 % 0x100, n / 0x100 % 0x100, n % 0x100]
  }

  function FromBigEndian32(b: Bytes): (n: int)
    requires |b| == 4
    ensures 0 <= n < TWO_32
  {
    0x100_0000 * (b[0] as int) + 0x1_0000 * (b[1] as int) + 0x100 * (b[2] as int) + b[3] as int
  }

  /** The frame: an uncompressed flag and a four-byte length, which truncates to 32 bits. */
  function Frame(msg: Bytes): Bytes {
    [0] + BigEndian32(|msg| % TWO_32) + msg
  }

  /** grpcFrame fills a buffer that make() has zeroed. */
  method GrpcFrame(msg: Bytes) returns (out: array<Byte>)
    ensures fresh(out) && out[..] == Frame(msg)
  {
    out := new Byte[5 + |msg|](i => 0);
    var length := |msg| % TWO_32;
    out[1] := length / 0x100_0000;
    out[2] := length / 0x1_0000 % 0x100;
    out[3] := length / 0x100 % 0x100;
    out[4] := length % 0x100;
    forall i | 0 <= i < |msg| {
      out[5 + i] := msg[i];
    }
    assert out[..5] == [0] + BigEndian32(length);
    assert out[5..] == msg;
    assert out[..] == out[..5] + out[5..];
  }

  /** How unframing can end. Panic is Go's run-time error for a slice with its end before its start. */
  datatype Unframed = Message(msg: Bytes) | TooShort | Compressed | Truncated | Panic

  /** grpcUnframe. The upper bound `5+n` of the slice is computed in 32 bits. */
  function Unframe(b: Bytes): Unframed {
    if b == [] then Message([])
    else if |b| < 5 then TooShort
    else if b[0] != 0 then Compressed
    else
      var n := FromBigEndian32(b[1..5]);
      if |b| - 5 < n then Truncated
      else
        var end := (5 + n) % TWO_32;
        if end < 5 then Panic else Message(b[5..end])
  }

  lemma BigEndianRoundTrip(n: int)
    requires 0 <= n < TWO_32
    ensures FromBigEndian32(BigEndian32(n)) == n
  {
    var q1 := n / 0x100;
    var q2 := q1 / 0x100;
    var q3 := q2 / 0x100;
    var d1, d2, d3 := q2 % 0x100, q1 % 0x100, n % 0x100;
    assert n == 0x1_0000 * q2 + (0x100 * d2 + d3);
    assert n / 0x1_0000 == q2;
    assert n == 0x100_0000 * q3 + (0x1_0000 * d1 + 0x100 * d2 + d3);
    assert n / 0x100_0000 == q3;
  }

  /** The frame round trip holds exactly for messages five bytes short of 4 GiB: beyond
      that the length or the slice bound wraps. */
  lemma FrameRoundTripIff(msg: Bytes)
    ensures Unframe(Frame(msg)) == Message(msg) <==> |msg| + 5 < TWO_32
    ensures Unframe(Frame(msg)).Panic? <==> |msg| % TWO_32 >= TWO_32 - 5
  {
    hide Frame, FromBigEndian32;
    var n := |msg| % TWO_32;
    var b := Frame(msg);
    FrameParts(msg);
    if n + 5 < TWO_32 {
      assert b[5..5 + n] == b[5..][..n];
    }
  }

  lemma FrameParts(msg: Bytes)
    ensures var b := Frame(msg);
            && |b| == |msg| + 5 && b[0] == 0 && b[5..] == msg
            && FromBigEndian32(b[1..5]) == |msg| % TWO_32
  {
    assert Frame(msg)[1..5] == BigEndian32(|msg| % TWO_32);
    BigEndianRoundTrip(|msg| % TWO_32);
  }

  /** What unframing does with any input: each failure has its exact condition. */
  lemma UnframeFailures(b: Bytes)
    ensures Unframe(b).TooShort? <==> 0 < |b| < 5
    ensures Unframe(b).Compressed? <==> |b| >= 5 && b[0] != 0
    ensures Unframe(b).Truncated? <==> |b| >= 5 && b[0] == 0 && |b| < 5 + FromBigEndian32(b[1..5])
    ensures Unframe(b).Panic? <==>
            |b| >= 5 && b[0] == 0 && TWO_32 - 5 <= FromBigEndian32(b[1..5]) <= |b| - 5
  {
  }

  /** Otherwise a non-empty input starts with the frame of the message that comes out. */
  lemma UnframeSound(b: Bytes)
    requires b != [] && Unframe(b).Message?
    ensures Frame(Unframe(b).msg) <= b
  {
    hide BigEndian32;
    var h := b[1..5];
    var n := FromBigEndian32(h);
    var msg := Unframe(b).msg;
    assert |msg| == n;
    HeaderBytes(h);
    assert Frame(msg) == [0] + h + msg;
    assert b[..5 + n] == [0] + h + msg;
  }

  lemma HeaderBytes(h: Bytes)
    requires |h| == 4
    ensures BigEndian32(FromBigEndian32(h)) == h
  {
    var n := FromBigEndian32(h);
    var a := 0x100 * (h[0] as int) + h[1] as int;
    var b := 0x100 * (h[2] as int) + h[3] as int;
    assert n == 0x1_0000 * a + b;
    assert n / 0x1_0000 == a && n % 0x1_0000 == b;
    assert n / 0x100_0000 == h[0];
    assert n / 0x100 == 0x100 * a + h[2] as int;
  }
}
