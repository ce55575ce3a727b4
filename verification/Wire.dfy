/** Protobuf fields: walkFields of internal/stats/collector.go, against the record grammar of
    the Protocol Buffers "Encoding" specification, section "Message Structure". */
module Wire {
  import opened Machine
  import opened Varint

  /** One call of the callback given to walkFields. Fixed-width fields are skipped without one. */
  datatype Visit = Number(field: nat, val: Uint64) | Data(field: nat, data: Bytes)

  datatype WireError = BadKey | BadVarint | ShortFixed64 | BadLength | ShortFixed32 | UnsupportedWire(wire: nat)

  /** What the loop does with the front of a non-empty input. */
  datatype Front = Stop(error: WireError) | Field(visits: seq<Visit>, size: nat)

  datatype Walked = Walked(visits: seq<Visit>, error: Option<WireError>)

  function NextField(b: Bytes): (f: Front)
    ensures f.Field? ==> 0 < f.size <= |b| && |f.visits| <= 1
  {
    var n := VarintLength(b);
    if n == 0 then Stop(BadKey) else
    var key := VarintValue(b[..n]);
    FieldBody(b[n..], n, key / 8, key % 8)
  }

  /** The field body after an `n`-byte key. */
  function FieldBody(b: Bytes, n: nat, field: nat, wire: nat): (f: Front)
    ensures f.Field? ==> n <= f.size <= n + |b| && |f.visits| <= 1
  {
    var m := VarintLength(b);
    if wire == 0 then
      if m == 0 then Stop(BadVarint) else Field([Number(field, VarintValue(b[..m]))], n + m)
    else if wire == 1 then
      if |b| < 8 then Stop(ShortFixed64) else Field([], n + 8)
    else if wire == 2 then
      if m == 0 || |b| - m < VarintValue(b[..m]) then Stop(BadLength)
      else var l := VarintValue(b[..m]); Field([Data(field, b[m..m + l])], n + m + l)
    else if wire == 5 then
      if |b| < 4 then Stop(ShortFixed32) else Field([], n + 4)
    else Stop(UnsupportedWire(wire))
  }

  function Walk(b: Bytes): Walked
    decreases |b|
  {
    if b == [] then Walked([], None) else
    match NextField(b)
    case Stop(e) => Walked([], Some(e))
    case Field(visits, size) => Before(visits, Walk(b[size..]))
  }

  /** `visits`, then the walk `w`. */
  function Before(visits: seq<Visit>, w: Walked): Walked {
    Walked(visits + w.visits, w.error)
  }

  lemma BeforeTwice(v1: seq<Visit>, v2: seq<Visit>, w: Walked)
    ensures Before(v1, Before(v2, w)) == Before(v1 + v2, w)
  {
    assert v1 + (v2 + w.visits) == (v1 + v2) + w.visits;
  }

  /** The switch over wire types, after an `n`-byte key. */
  method TakeBody(b: Bytes, n: nat, field: nat, wire: nat)
    returns (step: seq<Visit>, size: nat, error: Option<WireError>)
    ensures FieldBody(b, n, field, wire) == if error.None? then Field(step, n + size) else Stop(error.value)
    ensures error.None? ==> size <= |b|
  {
    step, size, error := [], 0, None;
    if wire == 0 {
      var v, m := ReadVarint(b);
      if m <= 0 {
        return [], 0, Some(BadVarint);
      }
      step, size := [Number(field, v)], m;
    } else if wire == 1 {
      if |b| < 8 {
        return [], 0, Some(ShortFixed64);
      }
      size := 8;
    } else if wire == 2 {
      var l, m := ReadVarint(b);
      if m <= 0 || |b| - m < l {
        return [], 0, Some(BadLength);
      }
      step, size := [Data(field, b[m..m + l])], m + l;
    } else if wire == 5 {
      if |b| < 4 {
        return [], 0, Some(ShortFixed32);
      }
      size := 4;
    } else {
      error := Some(UnsupportedWire(wire));
    }
  }

  /** walkFields' loop: it stays in bounds and the input left shrinks on every turn. The
      callbacks only accumulate, so running them over the visits in order, before the error
      of the walk itself is looked at, is what the source does. */
  method WalkFields(b: Bytes) returns (visits: seq<Visit>, error: Option<WireError>)
    ensures Walked(visits, error) == Walk(b)
  {
    visits := [];
    var rest := b;
    while rest != []
      invariant Walk(b) == Before(visits, Walk(rest))
      decreases |rest|
    {
      var key, n := ReadVarint(rest);
      if n <= 0 {
        return visits, Some(BadKey);
      }
      var step, size, stop := TakeBody(rest[n..], n, key / 8, key % 8);
      if stop.Some? {
        return visits, stop;
      }
      assert NextField(rest) == Field(step, n + size);
      BeforeTwice(visits, step, Walk(rest[n + size..]));
      visits, rest := visits + step, rest[n + size..];
    }
    error := None;
  }

  // ----- Locality: what a field means does not depend on what follows it -----

  lemma LengthLocal(b: Bytes, c: Bytes)
    requires VarintLength(b) > 0
    ensures VarintLength(b + c) == VarintLength(b) <= |b|
    ensures (b + c)[..VarintLength(b)] == b[..VarintLength(b)]
  {
    var n := VarintLength(b);
    LengthIsExact(b, n);
    assert (b + c)[..n] == b[..n];
    LengthIsExact(b + c, n);
  }

  lemma BodyLocal(b: Bytes, c: Bytes, n: nat, field: nat, wire: nat)
    requires FieldBody(b, n, field, wire).Field?
    ensures FieldBody(b + c, n, field, wire) == FieldBody(b, n, field, wire)
  {
    var m := VarintLength(b);
    if m > 0 {
      LengthLocal(b, c);
      var l := VarintValue(b[..m]);
      if l <= |b| - m {
        assert (b + c)[m..m + l] == b[m..m + l];
      }
    }
  }

  lemma NextFieldLocal(b: Bytes, c: Bytes)
    requires NextField(b).Field?
    ensures NextField(b + c) == NextField(b)
  {
    LengthLocal(b, c);
    var n := VarintLength(b);
    var key := VarintValue(b[..n]);
    assert (b + c)[n..] == b[n..] + c;
    BodyLocal(b[n..], c, n, key / 8, key % 8);
  }

  /** A message that parses can be followed by anything: the walk of the whole is the walk
      of the first part, then the walk of the rest. */
  lemma {:induction false} WalkConcat(b: Bytes, c: Bytes)
    requires Walk(b).error.None?
    ensures Walk(b + c) == Before(Walk(b).visits, Walk(c))
    decreases |b|
  {
    if b == [] {
      assert b + c == c;
    } else {
      NextFieldLocal(b, c);
      var Field(visits, size) := NextField(b);
      var rest := b[size..];
      assert (b + c)[size..] == rest + c;
      WalkConcat(rest, c);
      BeforeTwice(visits, Walk(rest).visits, Walk(c));
    }
  }

  // ----- The grammar, stated without the parser -----

  ghost predicate IsBody(wire: nat, body: Bytes) {
    match wire
    case 0 => IsVarint(body)
    case 1 => |body| == 8
    case 2 => exists m :: 0 < m <= |body| && IsVarint(body[..m]) && VarintValue(body[..m]) == |body| - m
    case 5 => |body| == 4
    case _ => false
  }

  /** A record: a varint key, then a body of the form that the key's wire type asks for. */
  ghost predicate IsRecord(r: Bytes) {
    exists k :: 0 < k <= |r| && IsVarint(r[..k]) && IsBody(VarintValue(r[..k]) % 8, r[k..])
  }

  ghost predicate AllRecords(rs: seq<Bytes>) {
    forall i :: 0 <= i < |rs| ==> IsRecord(rs[i])
  }

  lemma RecordIff(r: Bytes)
    ensures IsRecord(r) <==> NextField(r) == Field(NextFieldVisits(r), |r|)
  {
    LengthIsExact(r, 0);
    if IsRecord(r) {
      var k :| 0 < k <= |r| && IsVarint(r[..k]) && IsBody(VarintValue(r[..k]) % 8, r[k..]);
      LengthIsExact(r, k);
      BodyIff(r[k..], k, VarintValue(r[..k]) / 8, VarintValue(r[..k]) % 8);
    }
    var n := VarintLength(r);
    if n > 0 && NextField(r).Field? && NextField(r).size == |r| {
      LengthIsExact(r, n);
      BodyIff(r[n..], n, VarintValue(r[..n]) / 8, VarintValue(r[..n]) % 8);
    }
  }

  function NextFieldVisits(r: Bytes): seq<Visit> {
    match NextField(r)
    case Stop(_) => []
    case Field(visits, _) => visits
  }

  /** What a record shows to the callback, by its own bytes: a varint its number, a length-delimited
      field its payload, a fixed-width field nothing. `k` is the length of its key, `m` of its length. */
  lemma RecordShows(r: Bytes, k: nat)
    requires IsRecord(r) && 0 < k <= |r| && IsVarint(r[..k])
    ensures var field, wire := VarintValue(r[..k]) / 8, VarintValue(r[..k]) % 8;
            && (wire == 0 ==> NextFieldVisits(r) == [Number(field, VarintValue(r[k..]))])
            && (wire == 1 || wire == 5 ==> NextFieldVisits(r) == [])
            && (wire == 2 ==> exists m :: 0 < m <= |r| - k && IsVarint(r[k..][..m])
                                          && VarintValue(r[k..][..m]) == |r| - k - m
                                          && NextFieldVisits(r) == [Data(field, r[k..][m..])])
            && wire in {0, 1, 2, 5}
  {
    RecordIff(r);
    LengthIsExact(r, k);
    var body := r[k..];
    var m := VarintLength(body);
    BodyIff(body, k, VarintValue(r[..k]) / 8, VarintValue(r[..k]) % 8);
    if m > 0 {
      LengthIsExact(body, m);
      assert body[..|body|] == body;
      if m <= |body| && VarintValue(body[..m]) == |body| - m {
        assert body[m..m + VarintValue(body[..m])] == body[m..];
      }
    }
  }

  lemma BodyIff(b: Bytes, n: nat, field: nat, wire: nat)
    ensures IsBody(wire, b) <==>
            FieldBody(b, n, field, wire).Field? && FieldBody(b, n, field, wire).size == n + |b|
  {
    LengthIsExact(b, 0);
    var m := VarintLength(b);
    if m > 0 {
      LengthIsExact(b, m);
    }
    if wire == 0 {
      assert b[..|b|] == b;
      LengthIsExact(b, |b|);
    } else if wire == 2 && IsBody(wire, b) {
      var k :| 0 < k <= |b| && IsVarint(b[..k]) && VarintValue(b[..k]) == |b| - k;
      LengthIsExact(b, k);
    }
  }

  ghost predicate NoVarint(b: Bytes) {
    forall k :: 0 < k <= |b| ==> !IsVarint(b[..k])
  }

  /** A length and that many bytes stand at the front. */
  ghost predicate HasPayload(b: Bytes) {
    exists m :: 0 < m <= |b| && IsVarint(b[..m]) && VarintValue(b[..m]) <= |b| - m
  }

  /** Which error stands for which fault, and that there is no other fault: first the key, then the
      body that the key's wire type asks for. */
  lemma FailsIff(b: Bytes, k: nat)
    requires 0 < k <= |b| && IsVarint(b[..k])
    ensures var wire, rest := VarintValue(b[..k]) % 8, b[k..];
            && NextField(b) != Stop(BadKey)
            && (NextField(b) == Stop(BadVarint) <==> wire == 0 && NoVarint(rest))
            && (NextField(b) == Stop(ShortFixed64) <==> wire == 1 && |rest| < 8)
            && (NextField(b) == Stop(BadLength) <==> wire == 2 && !HasPayload(rest))
            && (NextField(b) == Stop(ShortFixed32) <==> wire == 5 && |rest| < 4)
            && (forall w :: NextField(b) == Stop(UnsupportedWire(w)) <==> w == wire && wire !in {0, 1, 2, 5})
  {
    LengthIsExact(b, k);
    LengthIsExact(b[k..], 0);
    BodyFailsIff(b[k..], k, VarintValue(b[..k]) / 8, VarintValue(b[..k]) % 8);
  }

  lemma BodyFailsIff(b: Bytes, n: nat, field: nat, wire: nat)
    ensures FieldBody(b, n, field, wire) == Stop(BadVarint) <==> wire == 0 && NoVarint(b)
    ensures FieldBody(b, n, field, wire) == Stop(BadLength) <==> wire == 2 && !HasPayload(b)
  {
    LengthIsExact(b, 0);
    var m := VarintLength(b);
    if m > 0 {
      LengthIsExact(b, m);
    }
    forall k | 0 < k <= |b| && IsVarint(b[..k]) ensures k == m {
      LengthIsExact(b, k);
    }
  }

  lemma KeyFailsIff(b: Bytes)
    ensures NextField(b) == Stop(BadKey) <==> NoVarint(b)
  {
    LengthIsExact(b, 0);
  }

  /** A walk that fails does so at one place: everything before it is accepted and visited, and the
      field there is what fails. */
  lemma {:induction false} WalkStopsAt(b: Bytes) returns (k: nat)
    requires Walk(b).error.Some?
    ensures k < |b| && NextField(b[k..]) == Stop(Walk(b).error.value)
    ensures Walk(b[..k]) == Walked(Walk(b).visits, None)
    decreases |b|
  {
    match NextField(b) {
      case Stop(e) =>
        k := 0;
        assert b[0..] == b && b[..0] == [];
      case Field(visits, size) =>
        var rest := b[size..];
        var j := WalkStopsAt(rest);
        k := size + j;
        assert b[k..] == rest[j..] && b[..k][size..] == rest[..j];
        SplitAt(b, k);
        FrontField(b, k);
    }
  }

  /** The first field of a message is the first field of every front of it that is long enough. */
  lemma FrontField(b: Bytes, k: nat)
    requires NextField(b).Field? && NextField(b).size <= k <= |b|
    ensures NextField(b[..k]) == NextField(b)
  {
    var size := NextField(b).size;
    FirstRecord(b);
    RecordIff(b[..size]);
    assert b[..size] + b[size..] == b && b[..size] + b[size..k] == b[..k];
    NextFieldLocal(b[..size], b[size..]);
    NextFieldLocal(b[..size], b[size..k]);
  }

  /** walkFields accepts exactly the concatenations of records: every byte of an accepted
      input belongs to one, and nothing else is accepted. */
  lemma {:induction false} WalkAcceptsIff(b: Bytes)
    ensures Walk(b).error.None? <==> exists rs :: Flatten(rs) == b && AllRecords(rs)
  {
    if Walk(b).error.None? {
      var rs := SplitRecords(b);
    }
    if exists rs :: Flatten(rs) == b && AllRecords(rs) {
      var rs :| Flatten(rs) == b && AllRecords(rs);
      RecordsAccepted(rs);
    }
  }

  lemma {:induction false} SplitRecords(b: Bytes) returns (rs: seq<Bytes>)
    requires Walk(b).error.None?
    ensures Flatten(rs) == b
    ensures AllRecords(rs)
    decreases |b|
  {
    if b == [] {
      rs := [];
    } else {
      RestAccepted(b);
      var size := NextField(b).size;
      var tail := SplitRecords(b[size..]);
      FirstRecord(b);
      rs := [b[..size]] + tail;
      RecordsCons(b[..size], tail);
    }
  }

  lemma {:induction false} RecordsCons(r: Bytes, tail: seq<Bytes>)
    requires IsRecord(r) && AllRecords(tail)
    ensures Flatten([r] + tail) == r + Flatten(tail)
    ensures AllRecords([r] + tail)
  {
    assert ([r] + tail)[1..] == tail;
  }

  lemma {:induction false} RestAccepted(b: Bytes)
    requires b != [] && Walk(b).error.None?
    ensures NextField(b).Field? && Walk(b[NextField(b).size..]).error.None?
    ensures b[..NextField(b).size] + b[NextField(b).size..] == b
  {
    var size := NextField(b).size;
    SplitAt(b, size);
    assert Walk(b) == Before(NextFieldVisits(b), Walk(b[size..]));
  }

  lemma SplitAt(b: Bytes, n: nat)
    requires n <= |b|
    ensures b[..n] + b[n..] == b
  {
  }

  lemma FirstRecord(b: Bytes)
    requires NextField(b).Field?
    ensures IsRecord(b[..NextField(b).size])
  {
    var n := VarintLength(b);
    LengthIsExact(b, n);
    var size := NextField(b).size;
    var r := b[..size];
    assert r[..n] == b[..n];
    var body := b[n..];
    var m := VarintLength(body);
    if m > 0 {
      LengthIsExact(body, m);
      if n + m <= size {
        assert r[n..][..m] == body[..m];
      }
    }
    var wire := VarintValue(b[..n]) % 8;
    if wire == 0 {
      assert r[n..] == body[..m];
    }
    assert IsBody(wire, r[n..]);
  }

  lemma {:induction false} RecordAccepted(r: Bytes)
    requires IsRecord(r)
    ensures Walk(r) == Walked(NextFieldVisits(r), None)
  {
    RecordIff(r);
    assert r[|r|..] == [];
    assert Walk(r).visits == NextFieldVisits(r) + [];
  }

  lemma {:induction false} RecordsAccepted(rs: seq<Bytes>)
    requires AllRecords(rs)
    ensures Walk(Flatten(rs)).error.None?
  {
    if rs != [] {
      RecordAccepted(rs[0]);
      RecordsAccepted(rs[1..]);
      WalkConcat(rs[0], Flatten(rs[1..]));
    }
  }
}
