/** Big-endian integers of a fixed number of bytes, as `to_be_bytes` and `from_be_bytes` give them. */
module Bytes {
  type Byte = b: nat | b < 256

  /** Bytes in an EVM word. */
  const WORD_BYTES: nat := 32

  function Pow256(width: nat): (p: nat)
    ensures p >= 1
  {
    if width == 0 then 1 else 256 * Pow256(width - 1)
  }

  /** The low `width` bytes of `n`, most significant first. */
  function ToBytes(n: nat, width: nat): (s: seq<Byte>)
    ensures |s| == width
  {
    if width == 0 then [] else ToBytes(n / 256, width - 1) + [n % 256]
  }

  function FromBytes(s: seq<Byte>): nat {
    if s == [] then 0 else FromBytes(s[..|s|-1]) * 256 + s[|s|-1]
  }

  lemma {:induction false} BytesRoundTrip(n: nat, width: nat)
    requires n < Pow256(width)
    ensures FromBytes(ToBytes(n, width)) == n
    decreases width
  {
    if width != 0 {
      BytesRoundTrip(n / 256, width - 1);
      assert ToBytes(n, width)[..width-1] == ToBytes(n / 256, width - 1);
    }
  }

  lemma {:induction false} FromBytesBound(s: seq<Byte>)
    ensures FromBytes(s) < Pow256(|s|)
    decreases |s|
  {
    if s != [] {
      FromBytesBound(s[..|s|-1]);
    }
  }

  lemma {:induction false} Pow256Add(a: nat, b: nat)
    ensures Pow256(a + b) == Pow256(a) * Pow256(b)
    decreases a
  {
    if a != 0 {
      Pow256Add(a - 1, b);
    }
  }

  lemma Pow256Eight()
    ensures Pow256(8) == 0x1_0000_0000_0000_0000
  {
    assert Pow256(2) == 0x1_0000;
    Pow256Add(2, 2);
    Pow256Add(4, 4);
  }

  lemma Pow256ThirtyTwo()
    ensures Pow256(WORD_BYTES) ==
            0x1_0000_0000_0000_0000_0000_0000_0000_0000_0000_0000_0000_0000_0000_0000_0000_0000
  {
    Pow256Eight();
    Pow256Add(8, 8);
    Pow256Add(16, 16);
  }
}
