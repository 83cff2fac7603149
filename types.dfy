/** Machine-level value types shared by the advertising-data parser and the
    GATT discovery client: octets, 16-bit attribute handles and UUIDs, and
    the little-endian composition that `sys_le16_to_cpu` performs. */
module Types {

  /** A `uint8_t`. */
  type byte = x: int | 0 <= x < 0x100

  /** A `uint16_t`: attribute handles and 16-bit UUIDs. */
  type uint16 = x: int | 0 <= x < 0x1_0000

  datatype Option<+T> = None | Some(value: T)

  /** `a + k` evaluated in `uint16_t` arithmetic: wraps modulo 65536. */
  function AddU16(a: uint16, k: nat): (r: uint16)
    ensures a + k < 0x1_0000 ==> r == a + k
    ensures a + k >= 0x1_0000 && k < 0x1_0000 ==> r == a + k - 0x1_0000
  {
    (a + k) % 0x1_0000
  }

  /** Two octets read in memory order and converted from little-endian:
      `lo` is the least significant octet. */
  function LeU16(lo: byte, hi: byte): (u: uint16)
  {
    lo + 0x100 * hi
  }

  /** Little-endian decoding is one-to-one: two octet pairs decode to the
      same 16-bit value exactly when they are the same pair. */
  lemma LeU16Injective(lo: byte, hi: byte, lo': byte, hi': byte)
    ensures LeU16(lo, hi) == LeU16(lo', hi') <==> lo == lo' && hi == hi'
  {
  }
}
