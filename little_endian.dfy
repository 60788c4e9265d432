/** Little-endian byte encoding of unsigned integers, as done by Rust's
    `u64::to_le_bytes` and `u64::from_le_bytes`. */
module LittleEndian {
  import opened MetaplexTypes

  /** 256 to the power n: the number of values that fit in n bytes. */
  function Pow256(n: nat): (r: nat)
    ensures r > 0
  {
    if n == 0 then 1 else 256 * Pow256(n - 1)
  }

  lemma EightBytesHoldU64()
    ensures Pow256(8) == U64_MAX + 1
  {
    assert Pow256(1) == 0x100;
    assert Pow256(2) == 0x1_0000;
    assert Pow256(4) == 0x1_0000_0000 by {
      assert Pow256(3) == 0x100_0000;
    }
    assert Pow256(6) == 0x1_0000_0000_0000 by {
      assert Pow256(5) == 0x100_0000_0000;
    }
    assert Pow256(7) == 0x100_0000_0000_0000;
  }

  /** The n low-order bytes of v, least significant first. */
  function LeBytes(v: nat, n: nat): (bytes: seq<u8>)
    ensures |bytes| == n
  {
    if n == 0 then [] else [v % 256] + LeBytes(v / 256, n - 1)
  }

  /** The number whose little-endian encoding is `bytes`. */
  function FromLe(bytes: seq<u8>): (v: nat)
    ensures v < Pow256(|bytes|)
  {
    if |bytes| == 0 then 0 else bytes[0] + 256 * FromLe(bytes[1..])
  }

  /** `u64::to_le_bytes` */
  function U64ToLe(v: u64): (bytes: seq<u8>)
    ensures |bytes| == 8
    ensures FromLe(bytes) == v
  {
    LeBytesRoundTrip(v, 8);
    EightBytesHoldU64();
    LeBytes(v, 8)
  }

  /** `u64::from_le_bytes` */
  function U64FromLe(bytes: seq<u8>): (v: u64)
    requires |bytes| == 8
    ensures U64ToLe(v) == bytes
  {
    EightBytesHoldU64();
    FromLeRoundTrip(bytes);
    FromLe(bytes)
  }

  /** Decoding the encoding of a value that fits gives the value back. */
  lemma {:induction false} LeBytesRoundTrip(v: nat, n: nat)
    requires v < Pow256(n)
    ensures FromLe(LeBytes(v, n)) == v
  {
    if n > 0 {
      LeBytesRoundTrip(v / 256, n - 1);
      assert LeBytes(v, n)[1..] == LeBytes(v / 256, n - 1);
    }
  }

  /** Encoding a decoded byte string gives the byte string back. */
  lemma {:induction false} FromLeRoundTrip(bytes: seq<u8>)
    ensures LeBytes(FromLe(bytes), |bytes|) == bytes
  {
    if |bytes| > 0 {
      var rest := FromLe(bytes[1..]);
      var v := bytes[0] + 256 * rest;
      assert v % 256 == bytes[0];
      assert v / 256 == rest;
      FromLeRoundTrip(bytes[1..]);
      assert bytes == [bytes[0]] + bytes[1..];
    }
  }
}
