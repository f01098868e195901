/**
 The MD4 compression function: the step operations of section 3.4 of RFC 1320, and the
 unrolled rounds of md4_process_block in cntlm-0.92.3/xcrypt.c, which compute the same.
 */
module Md4 {
  import opened Words

  // ---------- section 3.4 of RFC 1320 ----------

  function G(x: bv32, y: bv32, z: bv32): bv32 { (x & y) | (x & z) | (y & z) }

  datatype Round = First | Second | Third

  function Index2(i: nat): (k: nat)
    requires i < 16
    ensures k == 4 * (i % 4) + i / 4
  {
    match i
    case 0 => 0 case 1 => 4 case 2 => 8 case 3 => 12 case 4 => 1 case 5 => 5 case 6 => 9 case 7 => 13
    case 8 => 2 case 9 => 6 case 10 => 10 case 11 => 14 case 12 => 3 case 13 => 7 case 14 => 11 case _ => 15
  }

  /** The four bits of i in the opposite order. */
  function Index3(i: nat): (k: nat)
    requires i < 16
    ensures k == 8 * (i % 2) + 4 * (i / 2 % 2) + 2 * (i / 4 % 2) + i / 8
  {
    match i
    case 0 => 0 case 1 => 8 case 2 => 4 case 3 => 12 case 4 => 2 case 5 => 10 case 6 => 6 case 7 => 14
    case 8 => 1 case 9 => 9 case 10 => 5 case 11 => 13 case 12 => 3 case 13 => 11 case 14 => 7 case _ => 15
  }

  function Index(r: Round, i: nat): (k: nat)
    requires i < 16
    ensures k < 16
  {
    match r case First => i case Second => Index2(i) case Third => Index3(i)
  }

  function Shift(r: Round, i: nat): bv6 {
    match r
    case First => Cycle(i, 3, 7, 11, 19)
    case Second => Cycle(i, 3, 5, 9, 13)
    case Third => Cycle(i, 3, 9, 11, 15)
  }

  const K1: bv32 := 0x5a827999
  const K2: bv32 := 0x6ed9eba1

  /** a = (a + f + x) <<< shift */
  function Op(f: bv32, a: bv32, x: bv32, shift: bv6): bv32
    requires shift <= 32
  {
    Rotl(a + f + x, shift)
  }

  /** a = (a + f + x + k) <<< shift */
  function OpK(f: bv32, a: bv32, x: bv32, k: bv32, shift: bv6): bv32
    requires shift <= 32
  {
    Rotl(a + f + x + k, shift)
  }

  function Stepped(r: Round, i: nat, x: Block, s: Chain): bv32
    requires i < 16
  {
    match r
    case First => Op(F(s.b, s.c, s.d), s.a, x[Index(r, i)], Shift(r, i))
    case Second => OpK(G(s.b, s.c, s.d), s.a, x[Index(r, i)], K1, Shift(r, i))
    case Third => OpK(H(s.b, s.c, s.d), s.a, x[Index(r, i)], K2, Shift(r, i))
  }

  function Step(r: Round, i: nat, x: Block, s: Chain): Chain
    requires i < 16
  {
    Chain(s.d, Stepped(r, i, x, s), s.b, s.c)
  }

  function FourSteps(r: Round, i: nat, x: Block, s: Chain): Chain
    requires i <= 12
  {
    Step(r, i + 3, x, Step(r, i + 2, x, Step(r, i + 1, x, Step(r, i, x, s))))
  }

  function Steps(r: Round, x: Block, s: Chain): Chain {
    FourSteps(r, 12, x, FourSteps(r, 8, x, FourSteps(r, 4, x, FourSteps(r, 0, x, s))))
  }

  function Compress(s: Chain, x: Block): Chain {
    Plus(s, Steps(Third, x, Steps(Second, x, Steps(First, x, s))))
  }

  // ---------- the unrolled rounds ----------

  method Round1(x: Block, s: Chain) returns (a: bv32, b: bv32, c: bv32, d: bv32)
    ensures Chain(a, b, c, d) == Steps(First, x, s)
  {
    hide F, G, H, Mux, Op, OpK;
    MuxIsF();
    a, b, c, d := s.a, s.b, s.c, s.d;
    ghost var t := s;
    a := Op(Mux(b, c, d), a, x[0], 3); t := Step(First, 0, x, t);
    d := Op(Mux(a, b, c), d, x[1], 7); t := Step(First, 1, x, t);
    c := Op(Mux(d, a, b), c, x[2], 11); t := Step(First, 2, x, t);
    b := Op(Mux(c, d, a), b, x[3], 19); t := Step(First, 3, x, t);
    a := Op(Mux(b, c, d), a, x[4], 3); t := Step(First, 4, x, t);
    d := Op(Mux(a, b, c), d, x[5], 7); t := Step(First, 5, x, t);
    c := Op(Mux(d, a, b), c, x[6], 11); t := Step(First, 6, x, t);
    b := Op(Mux(c, d, a), b, x[7], 19); t := Step(First, 7, x, t);
    a := Op(Mux(b, c, d), a, x[8], 3); t := Step(First, 8, x, t);
    d := Op(Mux(a, b, c), d, x[9], 7); t := Step(First, 9, x, t);
    c := Op(Mux(d, a, b), c, x[10], 11); t := Step(First, 10, x, t);
    b := Op(Mux(c, d, a), b, x[11], 19); t := Step(First, 11, x, t);
    a := Op(Mux(b, c, d), a, x[12], 3); t := Step(First, 12, x, t);
    d := Op(Mux(a, b, c), d, x[13], 7); t := Step(First, 13, x, t);
    c := Op(Mux(d, a, b), c, x[14], 11); t := Step(First, 14, x, t);
    b := Op(Mux(c, d, a), b, x[15], 19); t := Step(First, 15, x, t);
  }

  method Round2(x: Block, s: Chain) returns (a: bv32, b: bv32, c: bv32, d: bv32)
    ensures Chain(a, b, c, d) == Steps(Second, x, s)
  {
    hide F, G, H, Mux, Op, OpK;
    MuxIsF();
    a, b, c, d := s.a, s.b, s.c, s.d;
    ghost var t := s;
    a := OpK(G(b, c, d), a, x[0], K1, 3); t := Step(Second, 0, x, t);
    d := OpK(G(a, b, c), d, x[4], K1, 5); t := Step(Second, 1, x, t);
    c := OpK(G(d, a, b), c, x[8], K1, 9); t := Step(Second, 2, x, t);
    b := OpK(G(c, d, a), b, x[12], K1, 13); t := Step(Second, 3, x, t);
    a := OpK(G(b, c, d), a, x[1], K1, 3); t := Step(Second, 4, x, t);
    d := OpK(G(a, b, c), d, x[5], K1, 5); t := Step(Second, 5, x, t);
    c := OpK(G(d, a, b), c, x[9], K1, 9); t := Step(Second, 6, x, t);
    b := OpK(G(c, d, a), b, x[13], K1, 13); t := Step(Second, 7, x, t);
    a := OpK(G(b, c, d), a, x[2], K1, 3); t := Step(Second, 8, x, t);
    d := OpK(G(a, b, c), d, x[6], K1, 5); t := Step(Second, 9, x, t);
    c := OpK(G(d, a, b), c, x[10], K1, 9); t := Step(Second, 10, x, t);
    b := OpK(G(c, d, a), b, x[14], K1, 13); t := Step(Second, 11, x, t);
    a := OpK(G(b, c, d), a, x[3], K1, 3); t := Step(Second, 12, x, t);
    d := OpK(G(a, b, c), d, x[7], K1, 5); t := Step(Second, 13, x, t);
    c := OpK(G(d, a, b), c, x[11], K1, 9); t := Step(Second, 14, x, t);
    b := OpK(G(c, d, a), b, x[15], K1, 13); t := Step(Second, 15, x, t);
  }

  method Round3(x: Block, s: Chain) returns (a: bv32, b: bv32, c: bv32, d: bv32)
    ensures Chain(a, b, c, d) == Steps(Third, x, s)
  {
    hide F, G, H, Mux, Op, OpK;
    MuxIsF();
    a, b, c, d := s.a, s.b, s.c, s.d;
    ghost var t := s;
    a := OpK(H(b, c, d), a, x[0], K2, 3); t := Step(Third, 0, x, t);
    d := OpK(H(a, b, c), d, x[8], K2, 9); t := Step(Third, 1, x, t);
    c := OpK(H(d, a, b), c, x[4], K2, 11); t := Step(Third, 2, x, t);
    b := OpK(H(c, d, a), b, x[12], K2, 15); t := Step(Third, 3, x, t);
    a := OpK(H(b, c, d), a, x[2], K2, 3); t := Step(Third, 4, x, t);
    d := OpK(H(a, b, c), d, x[10], K2, 9); t := Step(Third, 5, x, t);
    c := OpK(H(d, a, b), c, x[6], K2, 11); t := Step(Third, 6, x, t);
    b := OpK(H(c, d, a), b, x[14], K2, 15); t := Step(Third, 7, x, t);
    a := OpK(H(b, c, d), a, x[1], K2, 3); t := Step(Third, 8, x, t);
    d := OpK(H(a, b, c), d, x[9], K2, 9); t := Step(Third, 9, x, t);
    c := OpK(H(d, a, b), c, x[5], K2, 11); t := Step(Third, 10, x, t);
    b := OpK(H(c, d, a), b, x[13], K2, 15); t := Step(Third, 11, x, t);
    a := OpK(H(b, c, d), a, x[3], K2, 3); t := Step(Third, 12, x, t);
    d := OpK(H(a, b, c), d, x[11], K2, 9); t := Step(Third, 13, x, t);
    c := OpK(H(d, a, b), c, x[7], K2, 11); t := Step(Third, 14, x, t);
    b := OpK(H(c, d, a), b, x[15], K2, 15); t := Step(Third, 15, x, t);
  }

  /** One block through the three rounds of md4_process_block. */
  method CompressBlock(s: Chain, x: Block) returns (r: Chain)
    ensures r == Compress(s, x)
  {
    hide Steps, Plus;
    var a, b, c, d := Round1(x, s);
    a, b, c, d := Round2(x, Chain(a, b, c, d));
    a, b, c, d := Round3(x, Chain(a, b, c, d));
    r := Plus(s, Chain(a, b, c, d));
  }
}
