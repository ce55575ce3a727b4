/** Base 128 varints: appendVarint and readVarint of internal/stats/collector.go. */
module Varint {
  import opened Machine

  /** `x << (7 * k)` on unbounded integers. */
  function ShiftSevens(x: nat, k: nat): nat {
    if k == 0 then x else 0x80 * ShiftSevens(x, k - 1)
  }

  /** The bytes that appendVarint appends for `v`. */
  function VarintBytes(v: Uint64): Bytes {
    if v < 0x80 then [v] else [v % 0x80 + 0x80] + VarintBytes(v / 0x80)
  }

  /** The shape of one varint, independent of both programs: a continuation bit
      on every byte but the last, and no more than ten bytes. */
  predicate IsVarint(p: Bytes) {
    && 1 <= |p| <= 10
    && p[|p| - 1] < 0x80
    && forall i :: 0 <= i < |p| - 1 ==> p[i] >= 0x80
  }

  /** The number whose base 128 digits, least significant first, are the low seven bits of `p`. */
  function Base128(p: Bytes): nat {
    if p == [] then 0 else p[0] % 0x80 + 0x80 * Base128(p[1..])
  }

  /** What a reader keeps of a varint: the bits past 64 are dropped. */
  function VarintValue(p: Bytes): Uint64 {
    Base128(p) % TWO_64
  }

  function ScanVarint(b: Bytes, i: nat): (n: nat)
    requires i <= |b|
    ensures n <= |b| && n <= 10
    decreases |b| - i
  {
    if i >= |b| || i >= 10 then 0
    else if b[i] < 0x80 then i + 1
    else ScanVarint(b, i + 1)
  }

  /** The number of bytes of the varint at the front of `b`, 0 when there is none. */
  function VarintLength(b: Bytes): (n: nat)
    ensures n <= |b| && n <= 10
  {
    ScanVarint(b, 0)
  }

  lemma {:induction false} ScanSound(b: Bytes, i: nat)
    requires i <= |b| && i <= 10
    requires forall k :: 0 <= k < i ==> b[k] >= 0x80
    ensures ScanVarint(b, i) > 0 ==> IsVarint(b[..ScanVarint(b, i)])
    ensures ScanVarint(b, i) == 0 ==> forall k :: 0 <= k < |b| && k < 10 ==> b[k] >= 0x80
    decreases |b| - i
  {
    if i < |b| && i < 10 && b[i] >= 0x80 {
      ScanSound(b, i + 1);
    }
  }

  /** The scan finds a varint exactly when the input starts with one, and it is that one. */
  lemma LengthIsExact(b: Bytes, n: nat)
    requires n <= |b|
    ensures n > 0 ==> (VarintLength(b) == n <==> IsVarint(b[..n]))
    ensures VarintLength(b) == 0 <==> forall k :: 0 < k <= |b| ==> !IsVarint(b[..k])
  {
    ScanSound(b, 0);
    var m := VarintLength(b);
    if m > 0 {
      assert IsVarint(b[..m]);
      assert forall k :: 0 < k <= |b| && IsVarint(b[..k]) ==>
                           b[k - 1] == b[..k][k - 1] < 0x80 && forall i :: 0 <= i < k - 1 ==> b[i] == b[..k][i] >= 0x80;
    } else {
      forall k | 0 < k <= |b| ensures !IsVarint(b[..k]) {
        if k <= 10 {
          assert b[..k][k - 1] == b[k - 1];
        }
      }
    }
  }

  lemma {:induction false} Base128Append(p: Bytes, x: Byte)
    ensures Base128(p + [x]) == Base128(p) + ShiftSevens(x % 0x80, |p|)
    ensures Base128(p) < ShiftSevens(1, |p|)
  {
    if p != [] {
      assert (p + [x])[1..] == p[1..] + [x];
      Base128Append(p[1..], x);
    } else {
      assert p + [x] == [x] && [x][1..] == [];
    }
  }

  /** Nine sevens are 63 bits. */
  lemma {:induction false} NineSevens(x: nat)
    ensures ShiftSevens(x, 9) == x * TWO_63
    ensures ShiftSevens(1, 10) == 0x80 * TWO_63
    ensures ShiftSevens(1, 1) == 0x80
  {
    assert ShiftSevens(x, 2) == 0x80 * ShiftSevens(x, 1) == 0x4000 * x;
    assert ShiftSevens(x, 4) == 0x80 * ShiftSevens(x, 3) == 0x4000 * ShiftSevens(x, 2);
    assert ShiftSevens(x, 6) == 0x80 * ShiftSevens(x, 5) == 0x4000 * ShiftSevens(x, 4);
    assert ShiftSevens(x, 8) == 0x80 * ShiftSevens(x, 7) == 0x4000 * ShiftSevens(x, 6);
    assert ShiftSevens(1, 9) == TWO_63;
  }

  lemma {:induction false} ShiftMonotone(a: nat, b: nat)
    requires a <= b
    ensures 0 < ShiftSevens(1, a) <= ShiftSevens(1, b)
  {
    if a < b {
      ShiftMonotone(a, b - 1);
    } else if 0 < a {
      ShiftMonotone(a - 1, a - 1);
    }
  }

  /** appendVarint's loop. */
  method AppendVarint(b: Bytes, v: Uint64) returns (out: Bytes)
    ensures out == b + VarintBytes(v)
  {
    out := b;
    var w: Uint64 := v;
    while w >= 0x80
      invariant out + VarintBytes(w) == b + VarintBytes(v)
    {
      assert out + VarintBytes(w) == (out + [w % 0x80 + 0x80]) + VarintBytes(w / 0x80);
      out := out + [w % 0x80 + 0x80];
      w := w / 0x80;
    }
    out := out + [w];
  }

  /** readVarint's loop. Below ten bytes the seven new bits lie above the bits already
      read, so the source's bitwise or is the addition below; the shift by 63 keeps
      only what fits in 64 bits. */
  method ReadVarint(b: Bytes) returns (v: Uint64, n: nat)
    ensures n == VarintLength(b)
    ensures n > 0 ==> n <= |b| && v == VarintValue(b[..n])
    ensures n == 0 ==> v == 0
  {
    v := 0;
    var i := 0;
    while i < |b| && i < 10
      invariant 0 <= i <= |b| && i <= 10
      invariant VarintLength(b) == ScanVarint(b, i)
      invariant v == VarintValue(b[..i])
      invariant i <= 9 ==> v == Base128(b[..i]) < ShiftSevens(1, i) <= TWO_63
      decreases |b| - i
    {
      PrefixStep(b, i);
      v := v + ShiftSevens(b[i] % 0x80, i) % TWO_64;
      if b[i] < 0x80 {
        return v, i + 1;
      }
      i := i + 1;
    }
    return 0, 0;
  }

  /** One more byte of a prefix: what it adds, and the bound that keeps the bits apart. */
  lemma PrefixStep(b: Bytes, i: nat)
    requires i < |b| && i < 10
    ensures Base128(b[..i]) < ShiftSevens(1, i) <= TWO_63
    ensures Base128(b[..i + 1]) == Base128(b[..i]) + ShiftSevens(b[i] % 0x80, i)
    ensures i < 9 ==> Base128(b[..i + 1]) < ShiftSevens(1, i + 1) <= TWO_63
    ensures i == 9 ==> ShiftSevens(b[i] % 0x80, i) % TWO_64 == (b[i] % 2) * TWO_63
    ensures VarintValue(b[..i + 1]) == Base128(b[..i]) + ShiftSevens(b[i] % 0x80, i) % TWO_64
  {
    var low, digit := Base128(b[..i]), ShiftSevens(b[i] % 0x80, i);
    PrefixGrows(b, i);
    UpToNineSevens(i);
    if i < 9 {
      PrefixGrows(b, i + 1);
      UpToNineSevens(i + 1);
      NoWrap(low, digit);
    } else {
      NineSevens(b[i] % 0x80);
      HighBit(low, b[i] % 0x80);
    }
  }

  lemma NoWrap(low: nat, digit: nat)
    requires low + digit < TWO_63
    ensures (low + digit) % TWO_64 == low + digit % TWO_64
  {
  }

  lemma PrefixGrows(b: Bytes, i: nat)
    requires i <= |b|
    ensures Base128(b[..i]) < ShiftSevens(1, i)
    ensures i < |b| ==> Base128(b[..i + 1]) == Base128(b[..i]) + ShiftSevens(b[i] % 0x80, i)
  {
    if i < |b| {
      Base128Append(b[..i], b[i]);
      assert b[..i] + [b[i]] == b[..i + 1];
    } else {
      Base128Append(b[..i], 0);
    }
  }

  lemma {:induction false} UpToNineSevens(i: nat)
    requires i <= 9
    ensures ShiftSevens(1, i) <= TWO_63
  {
    NineSevens(1);
    ShiftMonotone(i, 9);
  }

  /** The shift by 63 keeps one bit. */
  lemma HighBit(low: nat, x: nat)
    requires low < TWO_63
    ensures (x * TWO_63) % TWO_64 == (x % 2) * TWO_63
    ensures (low + x * TWO_63) % TWO_64 == low + (x % 2) * TWO_63
  {
    var half, bit := x / 2, x % 2;
    assert x == 2 * half + bit;
    Remainder(half, bit * TWO_63);
    Remainder(half, low + bit * TWO_63);
  }

  lemma Remainder(q: nat, r: nat)
    requires r < TWO_64
    ensures (q * TWO_64 + r) % TWO_64 == r
  {
  }

  /** Every encoding is one varint of at most ten bytes that stands for its number. */
  lemma {:induction false} EncodingIsVarint(v: Uint64)
    ensures IsVarint(VarintBytes(v))
    ensures VarintValue(VarintBytes(v)) == Base128(VarintBytes(v)) == v
  {
    FitsTenSevens(v);
    EncodingShape(v, 10);
  }

  lemma {:induction false} EncodingShape(v: Uint64, k: nat)
    requires k > 0 && v < ShiftSevens(1, k)
    ensures 1 <= |VarintBytes(v)| <= k
    ensures Base128(VarintBytes(v)) == v
    ensures forall i :: 0 <= i < |VarintBytes(v)| - 1 ==> VarintBytes(v)[i] >= 0x80
    ensures VarintBytes(v)[|VarintBytes(v)| - 1] < 0x80
    ensures |VarintBytes(v)| > 1 ==> VarintBytes(v)[|VarintBytes(v)| - 1] != 0
    decreases k
  {
    if v >= 0x80 {
      NineSevens(1);
      EncodingShape(v / 0x80, k - 1);
      var tail := VarintBytes(v / 0x80);
      assert VarintBytes(v)[1..] == tail;
      assert forall i :: 1 <= i < |VarintBytes(v)| ==> VarintBytes(v)[i] == tail[i - 1];
    }
  }

  /** Encode, then decode in front of anything: the number and the exact length come back. */
  lemma {:induction false} VarintRoundTrip(v: Uint64, rest: Bytes)
    ensures VarintLength(VarintBytes(v) + rest) == |VarintBytes(v)|
    ensures VarintValue((VarintBytes(v) + rest)[..|VarintBytes(v)|]) == v
  {
    EncodingIsVarint(v);
    var n := |VarintBytes(v)|;
    assert (VarintBytes(v) + rest)[..n] == VarintBytes(v);
    LengthIsExact(VarintBytes(v) + rest, n);
  }

  /** readVarint is not injective. Re-encoding what it read gives back the bytes exactly
      when the varint has no padding byte at the end and no bits past 64. */
  predicate Canonical(p: Bytes)
    requires IsVarint(p)
  {
    (|p| > 1 ==> p[|p| - 1] != 0) && (|p| == 10 ==> p[9] <= 1)
  }

  lemma ReencodeIff(p: Bytes)
    requires IsVarint(p)
    ensures VarintBytes(VarintValue(p)) == p <==> Canonical(p)
  {
    if VarintBytes(VarintValue(p)) == p {
      EncodingIsCanonical(VarintValue(p));
    } else if Canonical(p) {
      TopDigit(p);
      EncodeDigits(p);
      assert false;
    }
  }

  lemma {:induction false} EncodingIsCanonical(v: Uint64)
    ensures IsVarint(VarintBytes(v)) && Canonical(VarintBytes(v))
  {
    EncodingIsVarint(v);
    FitsTenSevens(v);
    EncodingShape(v, 10);
    if |VarintBytes(v)| == 10 {
      TopDigit(VarintBytes(v));
    }
  }

  lemma FitsTenSevens(v: Uint64)
    ensures v < ShiftSevens(1, 10)
  {
    NineSevens(1);
  }

  /** The tenth byte is the digit of weight 2^63. */
  lemma {:induction false} TopDigit(p: Bytes)
    requires IsVarint(p)
    ensures |p| == 10 ==> Base128(p) / TWO_63 == p[9]
    ensures Canonical(p) ==> Base128(p) < TWO_64
  {
    var n := |p| - 1;
    assert p[..n + 1] == p;
    PrefixStep(p, n);
    if n == 9 {
      NineSevens(p[9]);
      assert Base128(p) == Base128(p[..9]) + p[9] * TWO_63;
    }
  }

  lemma {:induction false} EncodeDigits(p: Bytes)
    requires IsVarint(p) && (|p| > 1 ==> p[|p| - 1] != 0) && Base128(p) < TWO_64
    ensures VarintBytes(Base128(p)) == p
  {
    if |p| > 1 {
      var q := p[1..];
      var v := Base128(p);
      assert v % 0x80 == p[0] % 0x80 && v / 0x80 == Base128(q);
      EncodeDigits(q);
      NonzeroDigits(q);
      assert VarintBytes(v) == [p[0]] + q;
    }
  }

  lemma {:induction false} NonzeroDigits(q: Bytes)
    requires q != [] && q[|q| - 1] % 0x80 != 0
    ensures Base128(q) > 0
  {
    if |q| > 1 { NonzeroDigits(q[1..]); }
  }
}
