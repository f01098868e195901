/**
 Words and bytes of the MD4 and MD5 implementations in cntlm-0.92.3/xcrypt.c.
 */
module Words {

  datatype Chain = Chain(a: bv32, b: bv32, c: bv32, d: bv32)

  /** Sixteen words: one block of input. */
  type Block = x: seq<bv32> | |x| == 16 witness seq(16, _ => 0)

  function Rotl(x: bv32, n: bv6): bv32
    requires n <= 32
  {
    (x << n) | (x >> (32 - n))
  }

  function Plus(s: Chain, t: Chain): Chain {
    Chain(s.a + t.a, s.b + t.b, s.c + t.c, s.d + t.d)
  }

  function Cycle(i: nat, s0: bv6, s1: bv6, s2: bv6, s3: bv6): bv6 {
    if i % 4 == 0 then s0 else if i % 4 == 1 then s1 else if i % 4 == 2 then s2 else s3
  }

  /** The round functions that both RFC 1320 and RFC 1321 call F and H. */
  function F(x: bv32, y: bv32, z: bv32): bv32 { (x & y) | (!x & z) }
  function H(x: bv32, y: bv32, z: bv32): bv32 { x ^ y ^ z }

  /** The implementations' way of computing F with one operation less. */
  function Mux(b: bv32, c: bv32, d: bv32): bv32 { d ^ (b & (c ^ d)) }

  lemma MuxBits(b: bv32, c: bv32, d: bv32)
    ensures d ^ (b & (c ^ d)) == (b & c) | (!b & d)
  {
  }

  lemma MuxIsFAt(b: bv32, c: bv32, d: bv32)
    ensures Mux(b, c, d) == F(b, c, d)
  {
    MuxBits(b, c, d);
  }

  lemma MuxIsF()
    ensures forall b, c, d {:trigger Mux(b, c, d)} :: Mux(b, c, d) == F(b, c, d)
  {
    hide Mux, F;
    forall b, c, d
      ensures Mux(b, c, d) == F(b, c, d)
    {
      MuxIsFAt(b, c, d);
    }
  }
}
