/**
 hmac_md5 of cntlm-0.92.3/xcrypt.c against section 2 of RFC 2104.
 */
module Hmac {
  import opened Digest
  import opened HashContext

  const IPAD: bv8 := 0x36
  const OPAD: bv8 := 0x5c

  // ---------- section 2 of RFC 2104 ----------

  /** The key brought to the length of a block: hashed if longer, then filled up with zeros. */
  function BlockKey(key: seq<bv8>): (k: seq<bv8>)
    ensures |k| == 64
  {
    var k := if |key| > 64 then Hash(MD5, key) else key;
    k + Zeros(64 - |k|)
  }

  function Xor(k: seq<bv8>, pad: bv8): (x: seq<bv8>)
    ensures |x| == |k|
  {
    seq(|k|, i requires 0 <= i < |k| => k[i] ^ pad)
  }

  function Hmac(key: seq<bv8>, text: seq<bv8>): (mac: seq<bv8>)
    ensures |mac| == 16
  {
    Hash(MD5, Xor(BlockKey(key), OPAD) + Hash(MD5, Xor(BlockKey(key), IPAD) + text))
  }

  // ---------- the implementation ----------

  /** memxor: xor the bytes of src into the front of dest. */
  method Memxor(dest: array<bv8>, src: seq<bv8>)
    requires |src| <= dest.Length
    modifies dest
    ensures forall i :: 0 <= i < |src| ==> dest[i] == old(dest[i]) ^ src[i]
    ensures forall i :: |src| <= i < dest.Length ==> dest[i] == old(dest[i])
  {
    var n := 0;
    while n < |src|
      invariant 0 <= n <= |src|
      invariant forall i :: 0 <= i < n ==> dest[i] == old(dest[i]) ^ src[i]
      invariant forall i :: n <= i < dest.Length ==> dest[i] == old(dest[i])
    {
      dest[n] := dest[n] ^ src[n];
      n := n + 1;
    }
  }

  lemma XorCommutes(a: bv8, b: bv8)
    ensures a ^ b == b ^ a && a ^ 0 == a
  {
  }

  /** A block of one pad byte with the key, at most 64 bytes long, xored into it. */
  method KeyedBlock(key: seq<bv8>, pad: bv8) returns (block: seq<bv8>)
    requires |key| <= 64
    ensures block == Xor(key + Zeros(64 - |key|), pad)
  {
    var bytes := new bv8[64](_ => pad);
    Memxor(bytes, key);
    forall i | 0 <= i < 64
      ensures bytes[i] == (key + Zeros(64 - |key|))[i] ^ pad
    {
      XorCommutes(if i < |key| then key[i] else 0, pad);
      XorCommutes(pad, 0);
    }
    block := bytes[..];
  }

  /** The number of bytes that will be counted for a block and a text behind it. */
  function CountedBehind(n: nat, unaligned: bool): nat {
    Fed(Progress(64, 0), n, unaligned).Total()
  }

  /** What comes out if lengths are as they have been counted. */
  function HmacCounted(key: seq<bv8>, text: seq<bv8>, unaligned: bool): (mac: seq<bv8>)
    ensures |mac| == 16
  {
    var k := if |key| > 64 then HashCounted(MD5, key, Fed(Progress(0, 0), |key|, unaligned).Total()) else key;
    var block := k + Zeros(64 - |k|);
    var inner := HashCounted(MD5, Xor(block, IPAD) + text, CountedBehind(|text|, unaligned));
    Hash(MD5, Xor(block, OPAD) + inner)
  }

  /** The raw block goes straight into the compression function, and only then the text is streamed. */
  method HashAfterBlock(block: seq<bv8>, text: seq<bv8>, unaligned: bool) returns (digest: seq<bv8>)
    requires |block| == 64
    ensures digest == HashCounted(MD5, block + text, CountedBehind(|text|, unaligned))
    ensures |text| < 0x1_0000_0000 ==> digest == Hash(MD5, block + text)
  {
    hide *;
    var ctx := new Context(MD5);
    ctx.NowMeans();
    ctx.NothingWaits([]);
    Tally64();
    ctx.ProcessMore(block, []);
    assert [] + block == block && block + [] == block;
    ctx.Holds(block, []);
    BehindBlock(|text|, unaligned);
    ctx.NowMeans();
    ctx.ProcessBytes(text, unaligned, block);
    CountedRight(MD5, block + text, CountedBehind(|text|, unaligned));
    digest := ctx.FinishMd5(block + text);
  }

  lemma BehindBlock(n: nat, unaligned: bool)
    ensures CountedBehind(n, unaligned) == Fed(Progress(64, 0), n, unaligned).Total()
    ensures n < 0x1_0000_0000 ==> CountedBehind(n, unaligned) == 64 + n
  {
    FedExact(Progress(64, 0), n, unaligned);
  }

  /** Everything below 2^32 bytes is counted right. */
  lemma SmallIsCounted(key: seq<bv8>, text: seq<bv8>, unaligned: bool)
    requires |key| < 0x1_0000_0000 && |text| < 0x1_0000_0000
    ensures HmacCounted(key, text, unaligned) == Hmac(key, text)
  {
    hide Hash, HashCounted, Fed, CountedBehind, Xor;
    FromNothing(|key|, unaligned);
    BehindBlock(|text|, unaligned);
    CountedRight(MD5, key, |key|);
    CountedRight(MD5, Xor(BlockKey(key), IPAD) + text, 64 + |text|);
  }

  method HmacMd5(key: seq<bv8>, text: seq<bv8>, unaligned: bool) returns (mac: seq<bv8>)
    ensures mac == HmacCounted(key, text, unaligned)
    ensures |key| < 0x1_0000_0000 && |text| < 0x1_0000_0000 ==> mac == Hmac(key, text)
  {
    hide Hash, HashCounted, Fed, CountedBehind, Xor;
    if |key| < 0x1_0000_0000 && |text| < 0x1_0000_0000 {
      SmallIsCounted(key, text, unaligned);
    }
    var optkey := key;
    if |key| > 64 {
      optkey := HashBuffer(MD5, key, unaligned);
    }
    var block := KeyedBlock(optkey, IPAD);
    var innerhash := HashAfterBlock(block, text, unaligned);
    block := KeyedBlock(optkey, OPAD);
    mac := HashAfterBlock(block, innerhash, unaligned);
  }
}
