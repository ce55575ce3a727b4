/** Go's fixed-width integers, as ranges of `int` with the wrap-around written out, and the
    small values that several components share. */
module Machine {
  datatype Option<+T> = None | Some(value: T)

  /** A protocol name in a user record. Names that no branch knows are OTHER. */
  datatype Protocol = VLESS | SHADOWSOCKS | VMESS | TROJAN | HYSTERIA2 | TUIC | OTHER(name: string)

  const TWO_32: int := 0x1_0000_0000
  const TWO_63: int := 0x8000_0000_0000_0000
  const TWO_64: int := 0x1_0000_0000_0000_0000

  type Byte = x: int | 0 <= x < 256
  type Bytes = seq<Byte>
  type Uuid = Bytes
  type Uint64 = x: int | 0 <= x < TWO_64
  type Int64 = x: int | -TWO_63 <= x < TWO_63

  /** The Go conversion `uint64(v)` of an int64. */
  function ToUint64(v: Int64): Uint64 {
    if v < 0 then v + TWO_64 else v
  }

  /** The Go conversion `int64(v)` of a uint64. */
  function ToInt64(v: Uint64): Int64 {
    if v < TWO_63 then v else v - TWO_64
  }

  /** The int64 that Go stores for a mathematical result `x`: two's complement wrap-around. */
  function Wrap(x: int): (r: Int64)
    ensures -TWO_63 <= x < TWO_63 ==> r == x
    ensures (r - x) % TWO_64 == 0
  {
    ToInt64(x % TWO_64)
  }

  /** `1 << k`. */
  function Shift(k: nat): nat {
    if k == 0 then 1 else 2 * Shift(k - 1)
  }

  lemma {:induction false} ShiftPositive(k: nat)
    ensures 1 <= Shift(k) < Shift(k + 1)
  {
    if k > 0 {
      ShiftPositive(k - 1);
    }
  }

  /** The bytes of the parts, one after the other. */
  function Flatten(parts: seq<Bytes>): Bytes {
    if parts == [] then [] else parts[0] + Flatten(parts[1..])
  }
}
