/** FNV-1a, 64-bit (Go's hash/fnv New64a), as described in section 2 of the
    IETF Internet-Draft draft-eastlake-fnv: start from the offset basis and,
    per byte, xor the byte in and multiply by the FNV prime modulo 2^64. */
module Fnv {
  import opened GoStrings

  /** Go's uint64. */
  newtype uint64 = x: int | 0 <= x < 0x1_0000_0000_0000_0000

  const OffsetBasis: uint64 := 14695981039346656037
  const Prime: int := 1099511628211

  /** Bitwise exclusive or of two bytes. */
  function XorByte(a: byte, b: byte): byte {
    ((a as int as bv8) ^ (b as int as bv8)) as int as byte
  }

  /** `h ^ uint64(b)`: a byte only reaches the low eight bits of the state. */
  function XorLow(h: uint64, b: byte): (r: uint64)
    ensures r as int / 256 == h as int / 256
  {
    var x := h as int;
    (x - x % 256 + XorByte((x % 256) as byte, b) as int) as uint64
  }

  /** One byte step of FNV-1a: xor the byte in, then multiply by the prime
      modulo 2^64, as uint64 multiplication wraps. */
  function Step(h: uint64, b: byte): uint64 {
    ((XorLow(h, b) as int * Prime) % 0x1_0000_0000_0000_0000) as uint64
  }

  /** The state of a hasher in state `h` after `Write(data)`. */
  function Write(h: uint64, data: Bytes): uint64
    decreases |data|
  {
    if data == [] then h else Write(Step(h, data[0]), data[1..])
  }

  /** `fnv.New64a()` fed `data`, then `Sum64()`. */
  function Sum64(data: Bytes): uint64 {
    Write(OffsetBasis, data)
  }

  /** Two successive writes leave the hasher as one write of the
      concatenation does. */
  lemma {:induction false} WriteConcat(h: uint64, a: Bytes, b: Bytes)
    ensures Write(h, a + b) == Write(Write(h, a), b)
    decreases |a|
  {
    if a != [] {
      assert (a + b)[0] == a[0];
      assert (a + b)[1..] == a[1..] + b;
      WriteConcat(Step(h, a[0]), a[1..], b);
    } else {
      assert a + b == b;
    }
  }

  /** The hash of no bytes is the offset basis. */
  lemma Sum64Empty()
    ensures Sum64([]) == 14695981039346656037
  {
  }

  /** The published FNV-1a 64 test vector for the one-byte input "a". */
  lemma Sum64OfA()
    ensures Sum64([97]) == 0xaf63dc4c8601ec8c
  {
    var x := OffsetBasis as int;
    assert x == 14695981039346656037;
    assert x % 256 == 37 by { assert x == 57406175934947875 * 256 + 37; }
    assert XorByte(37, 97) == 68;
    assert XorLow(OffsetBasis, 97) == 14695981039346656068;
    var y := 14695981039346656068 * Prime;
    assert y == 16158402040730025868984903134348;
    assert y % 0x1_0000_0000_0000_0000 == 0xaf63dc4c8601ec8c by {
      assert y == 875948729822 * 0x1_0000_0000_0000_0000 + 0xaf63dc4c8601ec8c;
    }
    assert Step(OffsetBasis, 97) == 0xaf63dc4c8601ec8c;
    assert [97 as byte][1..] == [];
  }
}
