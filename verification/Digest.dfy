/**
 The buffered, incremental MD4 and MD5 of cntlm-0.92.3/xcrypt.c against the definition of
 the two digests in section 3 of RFC 1320 and RFC 1321.

 The C file writes the context, the block loop and the byte-feeding routine out twice, with
 the same statements; here they are one class that knows which compression function it runs.
 Only the two ways of finishing differ, and are separate methods.
 */
module Digest {
  import opened Words
  import Md4
  import Md5

  // ---------- sections 3.1 to 3.5 of both standards ----------

  datatype Algorithm = MD4 | MD5

  const INIT := Chain(0x67452301, 0xefcdab89, 0x98badcfe, 0x10325476)

  type Compression = (Chain, Block) -> Chain

  function CompressionOf(alg: Algorithm): Compression {
    match alg case MD4 => Md4.Compress case MD5 => Md5.Compress
  }

  function LittleEndianWord(b0: bv8, b1: bv8, b2: bv8, b3: bv8): bv32 {
    (b0 as bv32) | ((b1 as bv32) << 8) | ((b2 as bv32) << 16) | ((b3 as bv32) << 24)
  }

  /** The sixteen words of a 64-byte block. */
  function BlockWords(block: seq<bv8>): Block
    requires |block| == 64
  {
    seq(16, i requires 0 <= i < 16 =>
      LittleEndianWord(block[4 * i], block[4 * i + 1], block[4 * i + 2], block[4 * i + 3]))
  }

  /** The words of a block are numbers whose low-order byte stands first. */
  lemma BlockWordIs(block: seq<bv8>, i: nat)
    requires |block| == 64 && i < 16
    ensures BlockWords(block)[i]
            == (block[4 * i] as bv32) + (block[4 * i + 1] as bv32) * 0x100
               + (block[4 * i + 2] as bv32) * 0x1_0000 + (block[4 * i + 3] as bv32) * 0x100_0000
  {
    WordIsNumber(block[4 * i], block[4 * i + 1], block[4 * i + 2], block[4 * i + 3]);
  }

  lemma WordIsNumber(b0: bv8, b1: bv8, b2: bv8, b3: bv8)
    ensures LittleEndianWord(b0, b1, b2, b3)
            == (b0 as bv32) + (b1 as bv32) * 0x100 + (b2 as bv32) * 0x1_0000 + (b3 as bv32) * 0x100_0000
  {
  }

  lemma OneBlockLess(n: nat)
    requires n % 64 == 0 && n != 0
    ensures n >= 64 && (n - 64) % 64 == 0
  {
  }

  /** The compression function over all blocks of data, in order. */
  function Fold(compress: Compression, s: Chain, data: seq<bv8>): Chain
    requires |data| % 64 == 0
    decreases |data|
  {
    if |data| == 0 then s
    else
      OneBlockLess(|data|);
      Fold(compress, compress(s, BlockWords(data[..64])), data[64..])
  }

  /** The four bytes of a 32-bit word, low-order byte first. */
  function LittleEndian(w: nat): (b: seq<bv8>)
    ensures |b| == 4
  {
    [(w % 256) as bv8, (w / 0x100 % 256) as bv8, (w / 0x1_0000 % 256) as bv8, (w / 0x100_0000 % 256) as bv8]
  }

  function Zeros(n: nat): (z: seq<bv8>)
    ensures |z| == n
  {
    seq(n, _ => 0)
  }

  function ZeroCount(length: nat): nat {
    (119 - length % 64) % 64
  }

  lemma PaddedLength(length: nat)
    ensures (length + 9 + ZeroCount(length)) % 64 == 0
  {
  }

  /**
   A one bit, as many zero bits as bring the length to 56 modulo 64 bytes, and a number of bytes, in bits modulo 2^64,
   low-order word first.
   */
  function PaddingFor(length: nat, counted: nat): (p: seq<bv8>)
    ensures |p| == 9 + ZeroCount(length) && (length + |p|) % 64 == 0
  {
    PaddedLength(length);
    var z := ZeroCount(length);
    var bits := 8 * counted % 0x1_0000_0000_0000_0000;
    [0x80] + Zeros(z) + (LittleEndian(bits % 0x1_0000_0000) + LittleEndian(bits / 0x1_0000_0000))
  }

  /** The padding of the standards: the number is the length. */
  function Padding(length: nat): (p: seq<bv8>)
    ensures |p| == 9 + ZeroCount(length) && (length + |p|) % 64 == 0
  {
    PaddingFor(length, length)
  }

  function WordBytes(w: bv32): seq<bv8> {
    [(w & 0xff) as bv8, ((w >> 8) & 0xff) as bv8, ((w >> 16) & 0xff) as bv8, ((w >> 24) & 0xff) as bv8]
  }

  /** The sixteen bytes of a digest, out of the four chaining words. */
  function Output(s: Chain): (d: seq<bv8>)
    ensures |d| == 16
  {
    WordBytes(s.a) + WordBytes(s.b) + WordBytes(s.c) + WordBytes(s.d)
  }

  lemma WordBytesAre(w: bv32)
    ensures |WordBytes(w)| == 4
    ensures LittleEndianWord(WordBytes(w)[0], WordBytes(w)[1], WordBytes(w)[2], WordBytes(w)[3]) == w
  {
  }

  /** A digest holds the four words in order, the low-order byte of each first. */
  lemma OutputIs(s: Chain, i: nat)
    requires i < 4
    ensures var d := Output(s);
            LittleEndianWord(d[4 * i], d[4 * i + 1], d[4 * i + 2], d[4 * i + 3])
            == if i == 0 then s.a else if i == 1 then s.b else if i == 2 then s.c else s.d
  {
    hide LittleEndianWord, WordBytes;
    WordBytesAre(s.a);
    WordBytesAre(s.b);
    WordBytesAre(s.c);
    WordBytesAre(s.d);
  }

  function Hash(alg: Algorithm, message: seq<bv8>): (d: seq<bv8>)
    ensures |d| == 16
  {
    Output(Fold(CompressionOf(alg), INIT, message + Padding(|message|)))
  }

  /** The digest that comes out if the number in the padding is not the length. */
  function HashCounted(alg: Algorithm, message: seq<bv8>, counted: nat): (d: seq<bv8>)
    ensures |d| == 16
    ensures counted == |message| ==> d == Hash(alg, message)
  {
    Output(Fold(CompressionOf(alg), INIT, message + PaddingFor(|message|, counted)))
  }

  lemma {:induction false} FoldAppends(compress: Compression, s: Chain, a: seq<bv8>, b: seq<bv8>)
    requires |a| % 64 == 0 && |b| % 64 == 0
    ensures Fold(compress, s, a + b) == Fold(compress, Fold(compress, s, a), b)
    decreases |a|
  {
    hide BlockWords;
    if |a| == 0 {
      assert a + b == b;
    } else {
      assert (a + b)[..64] == a[..64] && (a + b)[64..] == a[64..] + b;
      FoldAppends(compress, compress(s, BlockWords(a[..64])), a[64..], b);
    }
  }

  // ---------- the two-word byte counter ----------

  /** The counter's words after adding n to them, carry test included. */
  function Counted(low: nat, high: nat, n: nat): (nat, nat) {
    var low' := (low + n) % 0x1_0000_0000;
    (low', if low' < n then (high + 1) % 0x1_0000_0000 else high)
  }

  function Count(low: nat, high: nat): nat {
    low + 0x1_0000_0000 * high
  }

  /**
   The carry test is right for every n that takes the low word past at most one multiple of
   2^32, and wrong for every other one up to 2^64: in particular it is right for n below 2^32.
   */
  lemma CounterExactWhen(low: nat, high: nat, n: nat)
    requires low < 0x1_0000_0000 && high < 0x1_0000_0000 && n < 0x1_0000_0000_0000_0000
    ensures var c := Counted(low, high, n);
            Count(c.0, c.1) == (Count(low, high) + n) % 0x1_0000_0000_0000_0000
            <==> (n < 0x1_0000_0000 || (low + n) / 0x1_0000_0000 == 1)
  {
  }

  /** What adding n to the counter adds to it: at most one carry. */
  function Tally(low: nat, n: nat): nat {
    if n < 0x1_0000_0000 then n else 0x1_0000_0000 + (low + n) % 0x1_0000_0000 - low % 0x1_0000_0000
  }

  lemma CountedTally(low: nat, high: nat, n: nat)
    requires low < 0x1_0000_0000 && high < 0x1_0000_0000
    ensures var c := Counted(low, high, n);
            && c.0 < 0x1_0000_0000 && c.1 < 0x1_0000_0000
            && Count(c.0, c.1) == (Count(low, high) + Tally(low, n)) % 0x1_0000_0000_0000_0000
  {
    if n < 0x1_0000_0000 {
      CounterExactWhen(low, high, n);
    } else {
      var low' := (low + n) % 0x1_0000_0000;
      assert Count(low, high) + Tally(low, n) == Count(low', high + 1);
      CarryWraps(low', high);
    }
  }

  lemma CarryWraps(low: nat, high: nat)
    requires low < 0x1_0000_0000 && high < 0x1_0000_0000
    ensures Count(low, high + 1) % 0x1_0000_0000_0000_0000 == Count(low, (high + 1) % 0x1_0000_0000)
  {
    if high + 1 == 0x1_0000_0000 {
      assert Count(low, high + 1) == low + 0x1_0000_0000_0000_0000;
    }
  }

  /** The counter is right exactly if at most one carry is due. */
  lemma TallyExactWhen(low: nat, n: nat)
    requires low < 0x1_0000_0000
    ensures Tally(low, n) == n <==> n < 0x1_0000_0000 || (low + n) / 0x1_0000_0000 == 1
    ensures Tally(low, n) <= n
  {
  }

  /** The smallest length for which the carry test fails: two carries at once, only one of them counted. */
  lemma CounterLosesACarry()
    ensures Counted(0, 0, 0x2_0000_0000) == (0, 1)
    ensures Count(0, 1) != 0x2_0000_0000
  {
  }
}
