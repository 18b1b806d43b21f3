/** Little-endian integers in byte buffers. */
module Bytes {
  import opened Base

  type bytes = seq<u8>

  /** `to_le_bytes` of a number that fits `width` bytes. */
  function LeBytes(x: nat, width: nat): (b: bytes)
    ensures |b| == width
    decreases width
  {
    if width == 0 then [] else [x % 0x100] + LeBytes(x / 0x100, width - 1)
  }

  /** `from_le_bytes`. */
  function LeValue(b: bytes): nat {
    if b == [] then 0 else b[0] + 0x100 * LeValue(b[1..])
  }

  function Pow256(width: nat): (p: nat)
    ensures p > 0
  {
    if width == 0 then 1 else 0x100 * Pow256(width - 1)
  }

  lemma {:induction false} LeValueBound(b: bytes)
    ensures LeValue(b) < Pow256(|b|)
  {
    if b != [] {
      LeValueBound(b[1..]);
    }
  }

  /** Decoding an encoded number keeps what fits its width. */
  lemma {:induction false} LeRoundTrip(x: nat, width: nat)
    requires x < Pow256(width)
    ensures LeValue(LeBytes(x, width)) == x
    decreases width
  {
    if width > 0 {
      LeRoundTrip(x / 0x100, width - 1);
      assert LeBytes(x, width)[1..] == LeBytes(x / 0x100, width - 1);
    }
  }

  lemma DigitsApart(low: u8, rest: nat)
    ensures (low + 0x100 * rest) % 0x100 == low && (low + 0x100 * rest) / 0x100 == rest
  {
  }

  /** Encoding a decoded buffer restores it. */
  lemma {:induction false} LeCanonical(b: bytes)
    ensures LeBytes(LeValue(b), |b|) == b
  {
    if b != [] {
      LeCanonical(b[1..]);
      DigitsApart(b[0], LeValue(b[1..]));
      assert [b[0]] + b[1..] == b;
    }
  }

  lemma Pow256Values()
    ensures Pow256(1) == 0x100 && Pow256(4) == 0x1_0000_0000
    ensures Pow256(8) == 0x1_0000_0000_0000_0000
  {
  }

  lemma U64RoundTrip(x: u64)
    ensures LeValue(LeBytes(x, 8)) == x
  {
    Pow256Values();
    LeRoundTrip(x, 8);
  }

  lemma U32RoundTrip(x: u32)
    ensures LeValue(LeBytes(x, 4)) == x
  {
    Pow256Values();
    LeRoundTrip(x, 4);
  }

  /** Reading a u64 never overflows one. */
  function U64At(b: bytes, at: nat): u64
    requires at + 8 <= |b|
  {
    LeValueBound(b[at..at + 8]);
    Pow256Values();
    LeValue(b[at..at + 8])
  }

  function U32At(b: bytes, at: nat): u32
    requires at + 4 <= |b|
  {
    LeValueBound(b[at..at + 4]);
    Pow256Values();
    LeValue(b[at..at + 4])
  }

  /** Two's complement: `i64::from_le_bytes` of the same eight bytes. */
  function ToSigned(x: u64): i64 {
    if x < 0x8000_0000_0000_0000 then x else x - 0x1_0000_0000_0000_0000
  }
}
