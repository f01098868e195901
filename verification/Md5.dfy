/**
 The MD5 compression function: the step operation of section 3.4 of RFC 1321 with its
 tables of word indices, shifts and constants, and the unrolled rounds of
 md5_process_block in cntlm-0.92.3/xcrypt.c, which compute the same.
 */
module Md5 {
  import opened Words

  // ---------- section 3.4 of RFC 1321 ----------

  function G(x: bv32, y: bv32, z: bv32): bv32 { (x & z) | (y & !z) }
  function I(x: bv32, y: bv32, z: bv32): bv32 { y ^ (x | !z) }

  /** A round of the standard: which words its sixteen steps use, by how much they rotate, and what they add. */
  datatype Round = First | Second | Third | Fourth

  /** The integer parts of 4294967296 times abs(sin(n)), for n = 1..64 in radians, by rounds. */
  function T1(i: nat): bv32
    requires i < 16
  {
    match i
    case 0 => 0xd76aa478 case 1 => 0xe8c7b756 case 2 => 0x242070db case 3 => 0xc1bdceee
    case 4 => 0xf57c0faf case 5 => 0x4787c62a case 6 => 0xa8304613 case 7 => 0xfd469501
    case 8 => 0x698098d8 case 9 => 0x8b44f7af case 10 => 0xffff5bb1 case 11 => 0x895cd7be
    case 12 => 0x6b901122 case 13 => 0xfd987193 case 14 => 0xa679438e case _ => 0x49b40821
  }

  function T2(i: nat): bv32
    requires i < 16
  {
    match i
    case 0 => 0xf61e2562 case 1 => 0xc040b340 case 2 => 0x265e5a51 case 3 => 0xe9b6c7aa
    case 4 => 0xd62f105d case 5 => 0x02441453 case 6 => 0xd8a1e681 case 7 => 0xe7d3fbc8
    case 8 => 0x21e1cde6 case 9 => 0xc33707d6 case 10 => 0xf4d50d87 case 11 => 0x455a14ed
    case 12 => 0xa9e3e905 case 13 => 0xfcefa3f8 case 14 => 0x676f02d9 case _ => 0x8d2a4c8a
  }

  function T3(i: nat): bv32
    requires i < 16
  {
    match i
    case 0 => 0xfffa3942 case 1 => 0x8771f681 case 2 => 0x6d9d6122 case 3 => 0xfde5380c
    case 4 => 0xa4beea44 case 5 => 0x4bdecfa9 case 6 => 0xf6bb4b60 case 7 => 0xbebfbc70
    case 8 => 0x289b7ec6 case 9 => 0xeaa127fa case 10 => 0xd4ef3085 case 11 => 0x04881d05
    case 12 => 0xd9d4d039 case 13 => 0xe6db99e5 case 14 => 0x1fa27cf8 case _ => 0xc4ac5665
  }

  function T4(i: nat): bv32
    requires i < 16
  {
    match i
    case 0 => 0xf4292244 case 1 => 0x432aff97 case 2 => 0xab9423a7 case 3 => 0xfc93a039
    case 4 => 0x655b59c3 case 5 => 0x8f0ccc92 case 6 => 0xffeff47d case 7 => 0x85845dd1
    case 8 => 0x6fa87e4f case 9 => 0xfe2ce6e0 case 10 => 0xa3014314 case 11 => 0x4e0811a1
    case 12 => 0xf7537e82 case 13 => 0xbd3af235 case 14 => 0x2ad7d2bb case _ => 0xeb86d391
  }

  function T(r: Round, i: nat): bv32
    requires i < 16
  {
    match r case First => T1(i) case Second => T2(i) case Third => T3(i) case Fourth => T4(i)
  }

  function Shift(r: Round, i: nat): bv6 {
    match r
    case First => Cycle(i, 7, 12, 17, 22)
    case Second => Cycle(i, 5, 9, 14, 20)
    case Third => Cycle(i, 4, 11, 16, 23)
    case Fourth => Cycle(i, 6, 10, 15, 21)
  }

  function Index2(i: nat): (k: nat)
    requires i < 16
    ensures k == (5 * i + 1) % 16
  {
    match i
    case 0 => 1 case 1 => 6 case 2 => 11 case 3 => 0 case 4 => 5 case 5 => 10 case 6 => 15 case 7 => 4
    case 8 => 9 case 9 => 14 case 10 => 3 case 11 => 8 case 12 => 13 case 13 => 2 case 14 => 7 case _ => 12
  }

  function Index3(i: nat): (k: nat)
    requires i < 16
    ensures k == (3 * i + 5) % 16
  {
    match i
    case 0 => 5 case 1 => 8 case 2 => 11 case 3 => 14 case 4 => 1 case 5 => 4 case 6 => 7 case 7 => 10
    case 8 => 13 case 9 => 0 case 10 => 3 case 11 => 6 case 12 => 9 case 13 => 12 case 14 => 15 case _ => 2
  }

  function Index4(i: nat): (k: nat)
    requires i < 16
    ensures k == 7 * i % 16
  {
    match i
    case 0 => 0 case 1 => 7 case 2 => 14 case 3 => 5 case 4 => 12 case 5 => 3 case 6 => 10 case 7 => 1
    case 8 => 8 case 9 => 15 case 10 => 6 case 11 => 13 case 12 => 4 case 13 => 11 case 14 => 2 case _ => 9
  }

  function Index(r: Round, i: nat): (k: nat)
    requires i < 16
    ensures k < 16
  {
    match r case First => i case Second => Index2(i) case Third => Index3(i) case Fourth => Index4(i)
  }

  function Mixed(r: Round, s: Chain): bv32 {
    match r
    case First => F(s.b, s.c, s.d)
    case Second => G(s.b, s.c, s.d)
    case Third => H(s.b, s.c, s.d)
    case Fourth => I(s.b, s.c, s.d)
  }

  /** a = b + ((a + f + x + t) <<< shift) */
  function Op(f: bv32, a: bv32, b: bv32, x: bv32, shift: bv6, t: bv32): bv32
    requires shift <= 32
  {
    Rotl(a + (f + x + t), shift) + b
  }

  function Step(r: Round, i: nat, x: Block, s: Chain): Chain
    requires i < 16
  {
    Chain(s.d, Op(Mixed(r, s), s.a, s.b, x[Index(r, i)], Shift(r, i), T(r, i)), s.b, s.c)
  }

  function FourSteps(r: Round, i: nat, x: Block, s: Chain): Chain
    requires i <= 12
  {
    Step(r, i + 3, x, Step(r, i + 2, x, Step(r, i + 1, x, Step(r, i, x, s))))
  }

  function Steps(r: Round, x: Block, s: Chain): Chain {
    FourSteps(r, 12, x, FourSteps(r, 8, x, FourSteps(r, 4, x, FourSteps(r, 0, x, s))))
  }

  function Compress(s: Chain, x: Block): Chain {
    Plus(s, Steps(Fourth, x, Steps(Third, x, Steps(Second, x, Steps(First, x, s)))))
  }

  // ---------- the unrolled rounds ----------

  function FG(b: bv32, c: bv32, d: bv32): bv32 { Mux(d, b, c) }

  lemma FGBits(b: bv32, c: bv32, d: bv32)
    ensures c ^ (d & (b ^ c)) == (b & d) | (c & !d)
  {
  }

  lemma FGIsGAt(b: bv32, c: bv32, d: bv32)
    ensures FG(b, c, d) == G(b, c, d)
  {
    FGBits(b, c, d);
  }

  lemma FGIsG()
    ensures forall b, c, d {:trigger FG(b, c, d)} :: FG(b, c, d) == G(b, c, d)
  {
    hide FG, G;
    forall b, c, d
      ensures FG(b, c, d) == G(b, c, d)
    {
      FGIsGAt(b, c, d);
    }
  }

  method Round1(x: Block, s: Chain) returns (a: bv32, b: bv32, c: bv32, d: bv32)
    ensures Chain(a, b, c, d) == Steps(First, x, s)
  {
    hide F, G, H, I, Mux, FG, Op;
    MuxIsF();
    FGIsG();
    a, b, c, d := s.a, s.b, s.c, s.d;
    ghost var t := s;
    a := Op(Mux(b, c, d), a, b, x[0], 7, 0xd76aa478); t := Step(First, 0, x, t);
    d := Op(Mux(a, b, c), d, a, x[1], 12, 0xe8c7b756); t := Step(First, 1, x, t);
    c := Op(Mux(d, a, b), c, d, x[2], 17, 0x242070db); t := Step(First, 2, x, t);
    b := Op(Mux(c, d, a), b, c, x[3], 22, 0xc1bdceee); t := Step(First, 3, x, t);
    a := Op(Mux(b, c, d), a, b, x[4], 7, 0xf57c0faf); t := Step(First, 4, x, t);
    d := Op(Mux(a, b, c), d, a, x[5], 12, 0x4787c62a); t := Step(First, 5, x, t);
    c := Op(Mux(d, a, b), c, d, x[6], 17, 0xa8304613); t := Step(First, 6, x, t);
    b := Op(Mux(c, d, a), b, c, x[7], 22, 0xfd469501); t := Step(First, 7, x, t);
    a := Op(Mux(b, c, d), a, b, x[8], 7, 0x698098d8); t := Step(First, 8, x, t);
    d := Op(Mux(a, b, c), d, a, x[9], 12, 0x8b44f7af); t := Step(First, 9, x, t);
    c := Op(Mux(d, a, b), c, d, x[10], 17, 0xffff5bb1); t := Step(First, 10, x, t);
    b := Op(Mux(c, d, a), b, c, x[11], 22, 0x895cd7be); t := Step(First, 11, x, t);
    a := Op(Mux(b, c, d), a, b, x[12], 7, 0x6b901122); t := Step(First, 12, x, t);
    d := Op(Mux(a, b, c), d, a, x[13], 12, 0xfd987193); t := Step(First, 13, x, t);
    c := Op(Mux(d, a, b), c, d, x[14], 17, 0xa679438e); t := Step(First, 14, x, t);
    b := Op(Mux(c, d, a), b, c, x[15], 22, 0x49b40821); t := Step(First, 15, x, t);
  }

  method Round2(x: Block, s: Chain) returns (a: bv32, b: bv32, c: bv32, d: bv32)
    ensures Chain(a, b, c, d) == Steps(Second, x, s)
  {
    hide F, G, H, I, Mux, FG, Op;
    MuxIsF();
    FGIsG();
    a, b, c, d := s.a, s.b, s.c, s.d;
    ghost var t := s;
    a := Op(FG(b, c, d), a, b, x[1], 5, 0xf61e2562); t := Step(Second, 0, x, t);
    d := Op(FG(a, b, c), d, a, x[6], 9, 0xc040b340); t := Step(Second, 1, x, t);
    c := Op(FG(d, a, b), c, d, x[11], 14, 0x265e5a51); t := Step(Second, 2, x, t);
    b := Op(FG(c, d, a), b, c, x[0], 20, 0xe9b6c7aa); t := Step(Second, 3, x, t);
    a := Op(FG(b, c, d), a, b, x[5], 5, 0xd62f105d); t := Step(Second, 4, x, t);
    d := Op(FG(a, b, c), d, a, x[10], 9, 0x02441453); t := Step(Second, 5, x, t);
    c := Op(FG(d, a, b), c, d, x[15], 14, 0xd8a1e681); t := Step(Second, 6, x, t);
    b := Op(FG(c, d, a), b, c, x[4], 20, 0xe7d3fbc8); t := Step(Second, 7, x, t);
    a := Op(FG(b, c, d), a, b, x[9], 5, 0x21e1cde6); t := Step(Second, 8, x, t);
    d := Op(FG(a, b, c), d, a, x[14], 9, 0xc33707d6); t := Step(Second, 9, x, t);
    c := Op(FG(d, a, b), c, d, x[3], 14, 0xf4d50d87); t := Step(Second, 10, x, t);
    b := Op(FG(c, d, a), b, c, x[8], 20, 0x455a14ed); t := Step(Second, 11, x, t);
    a := Op(FG(b, c, d), a, b, x[13], 5, 0xa9e3e905); t := Step(Second, 12, x, t);
    d := Op(FG(a, b, c), d, a, x[2], 9, 0xfcefa3f8); t := Step(Second, 13, x, t);
    c := Op(FG(d, a, b), c, d, x[7], 14, 0x676f02d9); t := Step(Second, 14, x, t);
    b := Op(FG(c, d, a), b, c, x[12], 20, 0x8d2a4c8a); t := Step(Second, 15, x, t);
  }

  method Round3(x: Block, s: Chain) returns (a: bv32, b: bv32, c: bv32, d: bv32)
    ensures Chain(a, b, c, d) == Steps(Third, x, s)
  {
    hide F, G, H, I, Mux, FG, Op;
    MuxIsF();
    FGIsG();
    a, b, c, d := s.a, s.b, s.c, s.d;
    ghost var t := s;
    a := Op(H(b, c, d), a, b, x[5], 4, 0xfffa3942); t := Step(Third, 0, x, t);
    d := Op(H(a, b, c), d, a, x[8], 11, 0x8771f681); t := Step(Third, 1, x, t);
    c := Op(H(d, a, b), c, d, x[11], 16, 0x6d9d6122); t := Step(Third, 2, x, t);
    b := Op(H(c, d, a), b, c, x[14], 23, 0xfde5380c); t := Step(Third, 3, x, t);
    a := Op(H(b, c, d), a, b, x[1], 4, 0xa4beea44); t := Step(Third, 4, x, t);
    d := Op(H(a, b, c), d, a, x[4], 11, 0x4bdecfa9); t := Step(Third, 5, x, t);
    c := Op(H(d, a, b), c, d, x[7], 16, 0xf6bb4b60); t := Step(Third, 6, x, t);
    b := Op(H(c, d, a), b, c, x[10], 23, 0xbebfbc70); t := Step(Third, 7, x, t);
    a := Op(H(b, c, d), a, b, x[13], 4, 0x289b7ec6); t := Step(Third, 8, x, t);
    d := Op(H(a, b, c), d, a, x[0], 11, 0xeaa127fa); t := Step(Third, 9, x, t);
    c := Op(H(d, a, b), c, d, x[3], 16, 0xd4ef3085); t := Step(Third, 10, x, t);
    b := Op(H(c, d, a), b, c, x[6], 23, 0x04881d05); t := Step(Third, 11, x, t);
    a := Op(H(b, c, d), a, b, x[9], 4, 0xd9d4d039); t := Step(Third, 12, x, t);
    d := Op(H(a, b, c), d, a, x[12], 11, 0xe6db99e5); t := Step(Third, 13, x, t);
    c := Op(H(d, a, b), c, d, x[15], 16, 0x1fa27cf8); t := Step(Third, 14, x, t);
    b := Op(H(c, d, a), b, c, x[2], 23, 0xc4ac5665); t := Step(Third, 15, x, t);
  }

  method Round4(x: Block, s: Chain) returns (a: bv32, b: bv32, c: bv32, d: bv32)
    ensures Chain(a, b, c, d) == Steps(Fourth, x, s)
  {
    hide F, G, H, I, Mux, FG, Op;
    MuxIsF();
    FGIsG();
    a, b, c, d := s.a, s.b, s.c, s.d;
    ghost var t := s;
    a := Op(I(b, c, d), a, b, x[0], 6, 0xf4292244); t := Step(Fourth, 0, x, t);
    d := Op(I(a, b, c), d, a, x[7], 10, 0x432aff97); t := Step(Fourth, 1, x, t);
    c := Op(I(d, a, b), c, d, x[14], 15, 0xab9423a7); t := Step(Fourth, 2, x, t);
    b := Op(I(c, d, a), b, c, x[5], 21, 0xfc93a039); t := Step(Fourth, 3, x, t);
    a := Op(I(b, c, d), a, b, x[12], 6, 0x655b59c3); t := Step(Fourth, 4, x, t);
    d := Op(I(a, b, c), d, a, x[3], 10, 0x8f0ccc92); t := Step(Fourth, 5, x, t);
    c := Op(I(d, a, b), c, d, x[10], 15, 0xffeff47d); t := Step(Fourth, 6, x, t);
    b := Op(I(c, d, a), b, c, x[1], 21, 0x85845dd1); t := Step(Fourth, 7, x, t);
    a := Op(I(b, c, d), a, b, x[8], 6, 0x6fa87e4f); t := Step(Fourth, 8, x, t);
    d := Op(I(a, b, c), d, a, x[15], 10, 0xfe2ce6e0); t := Step(Fourth, 9, x, t);
    c := Op(I(d, a, b), c, d, x[6], 15, 0xa3014314); t := Step(Fourth, 10, x, t);
    b := Op(I(c, d, a), b, c, x[13], 21, 0x4e0811a1); t := Step(Fourth, 11, x, t);
    a := Op(I(b, c, d), a, b, x[4], 6, 0xf7537e82); t := Step(Fourth, 12, x, t);
    d := Op(I(a, b, c), d, a, x[11], 10, 0xbd3af235); t := Step(Fourth, 13, x, t);
    c := Op(I(d, a, b), c, d, x[2], 15, 0x2ad7d2bb); t := Step(Fourth, 14, x, t);
    b := Op(I(c, d, a), b, c, x[9], 21, 0xeb86d391); t := Step(Fourth, 15, x, t);
  }

  /** One block through the four rounds of md5_process_block. */
  method CompressBlock(s: Chain, x: Block) returns (r: Chain)
    ensures r == Compress(s, x)
  {
    hide Steps, Plus;
    var a, b, c, d := Round1(x, s);
    a, b, c, d := Round2(x, Chain(a, b, c, d));
    a, b, c, d := Round3(x, Chain(a, b, c, d));
    a, b, c, d := Round4(x, Chain(a, b, c, d));
    r := Plus(s, Chain(a, b, c, d));
  }
}
