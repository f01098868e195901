/**
 The word-swapping, table-driven DES of cntlm computes the Data Encryption Standard.

 The words of the implementation are the half blocks of the standard rotated one bit
 to the left, and a pair of its subkey words packs the eight six-bit groups of a
 round key, the even-numbered groups in one word and the odd-numbered ones in the other.
 */
module DesRefinement {
  import opened Des
  import opened DesRouting
  import DesTables
  import Fips46

  function Rol1(x: bv32): bv32 {
    (x << 1) | (x >> 31)
  }

  function Join(h: Halves): bv64 {
    Fips46.Concat(h.left, h.right)
  }

  /** An 8-byte block or key as the standard numbers its bits. */
  function Bits(data: Bytes8): bv64 {
    Join(Read64(data))
  }

  // ---------- the tables ----------

  lemma Table1(i: bv6)
    ensures DesTables.Sbox1(i) == Rol1(Fips46.P((Fips46.S1(i) as bv32) << 28))
  {
  }

  lemma Table2(i: bv6)
    ensures DesTables.Sbox2(i) == Rol1(Fips46.P((Fips46.S2(i) as bv32) << 24))
  {
  }

  lemma Table3(i: bv6)
    ensures DesTables.Sbox3(i) == Rol1(Fips46.P((Fips46.S3(i) as bv32) << 20))
  {
  }

  lemma Table4(i: bv6)
    ensures DesTables.Sbox4(i) == Rol1(Fips46.P((Fips46.S4(i) as bv32) << 16))
  {
  }

  lemma Table5(i: bv6)
    ensures DesTables.Sbox5(i) == Rol1(Fips46.P((Fips46.S5(i) as bv32) << 12))
  {
  }

  lemma Table6(i: bv6)
    ensures DesTables.Sbox6(i) == Rol1(Fips46.P((Fips46.S6(i) as bv32) << 8))
  {
  }

  lemma Table7(i: bv6)
    ensures DesTables.Sbox7(i) == Rol1(Fips46.P((Fips46.S7(i) as bv32) << 4))
  {
  }

  lemma Table8(i: bv6)
    ensures DesTables.Sbox8(i) == Rol1(Fips46.P((Fips46.S8(i) as bv32) << 0))
  {
  }

  // ---------- one round ----------

  function PackEven(k: Fips46.Groups): bv32 {
    (k.g8 as bv32) | ((k.g6 as bv32) << 8) | ((k.g4 as bv32) << 16) | ((k.g2 as bv32) << 24)
  }

  function PackOdd(k: Fips46.Groups): bv32 {
    (k.g7 as bv32) | ((k.g5 as bv32) << 8) | ((k.g3 as bv32) << 16) | ((k.g1 as bv32) << 24)
  }

  /** The six bits an even-numbered table is asked for are a group of E(r) xor K. */
  lemma EvenLookups(r: bv32, k: Fips46.Groups)
    ensures var even, b := EvenIndices(Rol1(r), PackEven(k)), Fips46.Xor(Fips46.E(r), k);
            && Low6(even) == b.g8 && Low6(even >> 8) == b.g6 && Low6(even >> 16) == b.g4 && Low6(even >> 24) == b.g2
  {
  }

  lemma OddLookups(r: bv32, k: Fips46.Groups)
    ensures var odd, b := OddIndices(Rol1(r), PackOdd(k)), Fips46.Xor(Fips46.E(r), k);
            && Low6(odd) == b.g7 && Low6(odd >> 8) == b.g5 && Low6(odd >> 16) == b.g3 && Low6(odd >> 24) == b.g1
  {
  }

  /** The tables are asked for the eight groups b. */
  predicate AskFor(even: bv32, odd: bv32, b: Fips46.Groups) {
    && Low6(even) == b.g8 && Low6(even >> 8) == b.g6 && Low6(even >> 16) == b.g4 && Low6(even >> 24) == b.g2
    && Low6(odd) == b.g7 && Low6(odd >> 8) == b.g5 && Low6(odd >> 16) == b.g3 && Low6(odd >> 24) == b.g1
  }

  lemma RoundAsksForGroups(r: bv32, k: Fips46.Groups)
    ensures AskFor(EvenIndices(Rol1(r), PackEven(k)), OddIndices(Rol1(r), PackOdd(k)), Fips46.Xor(Fips46.E(r), k))
  {
    hide EvenIndices, OddIndices, Low6, Rol1, PackEven, PackOdd, Fips46.Xor, Fips46.E;
    EvenLookups(r, k);
    OddLookups(r, k);
  }

  /** P is linear, so the contributions of the tables can be added after permuting and rotating each. */
  lemma PermutedSum(v1: bv4, v2: bv4, v3: bv4, v4: bv4, v5: bv4, v6: bv4, v7: bv4, v8: bv4)
    ensures Rol1(Fips46.P(Fips46.Joined(v1, v2, v3, v4, v5, v6, v7, v8)))
         == Sum(Rol1(Fips46.P((v8 as bv32) << 0)), Rol1(Fips46.P((v6 as bv32) << 8)),
                Rol1(Fips46.P((v4 as bv32) << 16)), Rol1(Fips46.P((v2 as bv32) << 24)),
                Rol1(Fips46.P((v7 as bv32) << 4)), Rol1(Fips46.P((v5 as bv32) << 12)),
                Rol1(Fips46.P((v3 as bv32) << 20)), Rol1(Fips46.P((v1 as bv32) << 28)))
  {
  }

  lemma LookupsAreSubstitution(even: bv32, odd: bv32, b: Fips46.Groups)
    requires AskFor(even, odd, b)
    ensures Lookups(TABLES, even, odd) == Rol1(Fips46.P(Fips46.Substitute(b)))
  {
    hide Low6, Rol1, Sum, Fips46.P, Fips46.Joined, Fips46.Select, DesTables.Pick,
         Fips46.S1, Fips46.S2, Fips46.S3, Fips46.S4, Fips46.S5, Fips46.S6, Fips46.S7, Fips46.S8,
         DesTables.Sbox1, DesTables.Sbox2, DesTables.Sbox3, DesTables.Sbox4,
         DesTables.Sbox5, DesTables.Sbox6, DesTables.Sbox7, DesTables.Sbox8;
    Table1(b.g1); Table2(b.g2); Table3(b.g3); Table4(b.g4); Table5(b.g5); Table6(b.g6); Table7(b.g7); Table8(b.g8);
    PermutedSum(Fips46.S1(b.g1), Fips46.S2(b.g2), Fips46.S3(b.g3), Fips46.S4(b.g4),
                Fips46.S5(b.g5), Fips46.S6(b.g6), Fips46.S7(b.g7), Fips46.S8(b.g8));
  }

  /** A table-driven round adds the rotated value of the standard's f. */
  lemma MixIsF(r: bv32, k: Fips46.Groups)
    ensures Mix(TABLES, Rol1(r), PackEven(k), PackOdd(k)) == Rol1(Fips46.F(r, k))
  {
    hide AskFor, EvenIndices, OddIndices, Rol1, PackEven, PackOdd, Lookups, Fips46.P, Fips46.Substitute, Fips46.E,
         Fips46.Xor;
    RoundAsksForGroups(r, k);
    LookupsAreSubstitution(EvenIndices(Rol1(r), PackEven(k)), OddIndices(Rol1(r), PackOdd(k)),
                           Fips46.Xor(Fips46.E(r), k));
  }

  // ---------- the permutations ----------

  function Ror1(x: bv32): bv32 {
    (x >> 1) | (x << 31)
  }

  lemma RoutedIsIP(h: Halves)
    ensures var p := InitialRouted(h); Join(Halves(Ror1(p.left), Ror1(p.right))) == Fips46.IP(Join(h))
  {
  }

  lemma RoutedIsInverseIP(h: Halves)
    ensures Join(FinalRouted(Halves(Rol1(h.left), Rol1(h.right)))) == Fips46.InverseIP(Join(h))
  {
  }

  lemma RolRor(x: bv32)
    ensures Rol1(Ror1(x)) == x
  {
  }

  /**
   INITIAL_PERMUTATION is IP with both words left rotated by one bit, and FINAL_PERMUTATION of such words is its
   inverse.
   */
  lemma PermutationsAreIP(h: Halves)
    ensures var p := InitialPermutation(h); Join(Halves(Ror1(p.left), Ror1(p.right))) == Fips46.IP(Join(h))
    ensures Join(FinalPermutation(Halves(Rol1(h.left), Rol1(h.right)))) == Fips46.InverseIP(Join(h))
  {
    hide InitialPermutation, FinalPermutation, InitialRouted, FinalRouted, Join, Rol1, Ror1, Fips46.IP,
         Fips46.InverseIP;
    PermutationsRoute(h);
    RoutedIsIP(h);
    PermutationsRoute(Halves(Rol1(h.left), Rol1(h.right)));
    RoutedIsInverseIP(h);
  }

  // ---------- the key schedule ----------

  lemma RoutedLeftIsPC1(h: Halves)
    ensures KeyRouted(h).left == Fips46.C0(Join(h))
  {
  }

  lemma RoutedRightIsPC1(h: Halves)
    ensures KeyRouted(h).right == Fips46.D0(Join(h))
  {
  }

  /** The key words before round 0 are the strings C(0) and D(0). */
  lemma KeyHalvesArePC1(key: Bytes8)
    ensures KeyHalves(key) == Halves(Fips46.C0(Bits(key)), Fips46.D0(Bits(key)))
  {
    hide KeyHalves, KeyRouted, Fips46.C0, Fips46.D0, Join, Read64;
    KeyHalvesRoute(key);
    RoutedLeftIsPC1(Read64(key));
    RoutedRightIsPC1(Read64(key));
  }

  lemma RotateIsLeftShift(x: bv32)
    requires Fits28(x)
    ensures Rotate28(x, 1) == Fips46.LeftShift(x) && Fits28(Fips46.LeftShift(x))
    ensures Rotate28(x, 2) == Fips46.LeftShift(Fips46.LeftShift(x))
  {
  }

  lemma EvenSubkeyGroups(c: bv32, d: bv32)
    requires Fits28(c) && Fits28(d)
    ensures var w, k := EvenSubkey(Halves(c, d)), Fips46.PC2(c, d);
            && w & 0xc0c0c0c0 == 0
            && Low6(w) == k.g8 && Low6(w >> 8) == k.g6 && Low6(w >> 16) == k.g4 && Low6(w >> 24) == k.g2
  {
  }

  lemma OddSubkeyGroups(c: bv32, d: bv32)
    requires Fits28(c) && Fits28(d)
    ensures var w, k := OddSubkey(Halves(c, d)), Fips46.PC2(c, d);
            && w & 0xc0c0c0c0 == 0
            && Low6(w) == k.g7 && Low6(w >> 8) == k.g5 && Low6(w >> 16) == k.g3 && Low6(w >> 24) == k.g1
  {
  }

  predicate HoldsEven(w: bv32, k: Fips46.Groups) {
    && w & 0xc0c0c0c0 == 0
    && Low6(w) == k.g8 && Low6(w >> 8) == k.g6 && Low6(w >> 16) == k.g4 && Low6(w >> 24) == k.g2
  }

  predicate HoldsOdd(w: bv32, k: Fips46.Groups) {
    && w & 0xc0c0c0c0 == 0
    && Low6(w) == k.g7 && Low6(w >> 8) == k.g5 && Low6(w >> 16) == k.g3 && Low6(w >> 24) == k.g1
  }

  lemma HeldIsPacked(w: bv32, k: Fips46.Groups)
    ensures HoldsEven(w, k) ==> w == PackEven(k)
    ensures HoldsOdd(w, k) ==> w == PackOdd(k)
  {
  }

  lemma SubkeysHoldPC2(c: bv32, d: bv32)
    requires Fits28(c) && Fits28(d)
    ensures HoldsEven(EvenSubkey(Halves(c, d)), Fips46.PC2(c, d))
    ensures HoldsOdd(OddSubkey(Halves(c, d)), Fips46.PC2(c, d))
  {
    hide EvenSubkey, OddSubkey, Low6, Fips46.PC2, Fits28;
    EvenSubkeyGroups(c, d);
    OddSubkeyGroups(c, d);
  }

  /** The two words of a round hold the bits permuted choice 2 selects. */
  lemma SubkeysPackPC2(c: bv32, d: bv32)
    requires Fits28(c) && Fits28(d)
    ensures EvenSubkey(Halves(c, d)) == PackEven(Fips46.PC2(c, d))
    ensures OddSubkey(Halves(c, d)) == PackOdd(Fips46.PC2(c, d))
  {
    hide EvenSubkey, OddSubkey, Fips46.PC2, PackEven, PackOdd, Fits28, HoldsEven, HoldsOdd;
    SubkeysHoldPC2(c, d);
    HeldIsPacked(EvenSubkey(Halves(c, d)), Fips46.PC2(c, d));
    HeldIsPacked(OddSubkey(Halves(c, d)), Fips46.PC2(c, d));
  }

  // ---------- the whole cipher ----------

  lemma SameShifts(n: nat)
    requires n < 16
    ensures RotateAmount(n) == if Fips46.SingleShift(n + 1) then 1 else 2
  {
  }

  /** The key words of round n are C(n + 1) and D(n + 1). */
  lemma {:induction false} RoundKeyHalvesAreShifted(key: Bytes8, n: nat)
    requires n < 16
    ensures var c, d := Fips46.Shifted(Fips46.C0(Bits(key)), n + 1), Fips46.Shifted(Fips46.D0(Bits(key)), n + 1);
            RoundKeyHalves(key, n) == Halves(c, d) && Fits28(c) && Fits28(d)
  {
    hide KeyHalves, Rotate28, Fits28, Fips46.C0, Fips46.D0, Fips46.LeftShift, Bits, RotateAmount, Fips46.SingleShift;
    SameShifts(n);
    KeyHalvesArePC1(key);
    var c, d := Fips46.C0(Bits(key)), Fips46.D0(Bits(key));
    if n == 0 {
      PC1Is28Bits(Bits(key));
    } else {
      RoundKeyHalvesAreShifted(key, n - 1);
    }
    var pc, pd := Fips46.Shifted(c, n), Fips46.Shifted(d, n);
    RotateIsLeftShift(pc);
    RotateIsLeftShift(pd);
    RotateIsLeftShift(Fips46.LeftShift(pc));
    RotateIsLeftShift(Fips46.LeftShift(pd));
  }

  lemma PC1Is28Bits(key: bv64)
    ensures Fits28(Fips46.C0(key)) && Fits28(Fips46.D0(key))
  {
  }

  /** The subkey words of every round are the packed round key of the standard. */
  lemma ScheduleIsStandard(key: Bytes8, n: nat)
    requires n < 16
    ensures Schedule(key)[2 * n] == PackEven(Fips46.RoundKey(Bits(key), n + 1))
    ensures Schedule(key)[2 * n + 1] == PackOdd(Fips46.RoundKey(Bits(key), n + 1))
  {
    hide EvenSubkey, OddSubkey, PackEven, PackOdd, Fips46.PC2, Fips46.C0, Fips46.D0, Fips46.Shifted, RoundKeyHalves,
         Bits, Fits28;
    RoundKeyHalvesAreShifted(key, n);
    var h := RoundKeyHalves(key, n);
    SubkeysPackPC2(h.left, h.right);
  }

  lemma RotatedSum(a: bv32, b: bv32, rotated: bv32)
    requires rotated == Rol1(b)
    ensures Rol1(a) ^ rotated == Rol1(a ^ b)
  {
  }

  ghost predicate Packs(keys: Subkeys, roundKeys: nat -> Fips46.Groups) {
    forall i {:trigger roundKeys(i)} :: 1 <= i <= 16 ==>
      keys[2 * i - 2] == PackEven(roundKeys(i)) && keys[2 * i - 1] == PackOdd(roundKeys(i))
  }

  /** A DES_ROUND on rotated words is a step of the recurrence of the standard. */
  lemma RoundIsStep(l: bv32, r: bv32, k: Fips46.Groups)
    ensures DesRound(TABLES, Rol1(r), Rol1(l), PackEven(k), PackOdd(k)) == Rol1(l ^ Fips46.F(r, k))
  {
    hide Rol1, Mix, Fips46.F, PackEven, PackOdd, TABLES;
    MixIsF(r, k);
    RotatedSum(l, Fips46.F(r, k), Mix(TABLES, Rol1(r), PackEven(k), PackOdd(k)));
  }

  function RotatedLR(p: Fips46.LR): Halves {
    Halves(Rol1(p.l), Rol1(p.r))
  }

  /** Two unswapped rounds are two steps of the swapping recurrence. */
  lemma PairIsTwoSteps(p: Fips46.LR, k: Fips46.Groups, k': Fips46.Groups)
    ensures RoundPair(TABLES, PackEven(k), PackOdd(k), PackEven(k'), PackOdd(k'), RotatedLR(p))
         == RotatedLR(Fips46.Step(Fips46.Step(p, k), k'))
  {
    hide Rol1, DesRound, Fips46.F, PackEven, PackOdd;
    RoundIsStep(p.l, p.r, k);
    var q := Fips46.Step(p, k);
    RoundIsStep(q.l, q.r, k');
  }

  lemma {:induction false} RoundsAreFeistel(keys: Subkeys, roundKeys: nat -> Fips46.Groups, n: nat, start: Fips46.LR)
    requires n <= 8 && Packs(keys, roundKeys)
    ensures Rounds(TABLES, keys, n, RotatedLR(start)) == RotatedLR(Fips46.Feistel(roundKeys, 2 * n, start))
  {
    hide RotatedLR, PackEven, PackOdd, RoundPair, Fips46.Step;
    if n > 0 {
      RoundsAreFeistel(keys, roundKeys, n - 1, start);
      PairIsTwoSteps(Fips46.Feistel(roundKeys, 2 * n - 2, start), roundKeys(2 * n - 1), roundKeys(2 * n));
    }
  }

  lemma SplitJoin(left: bv32, right: bv32, x: bv64)
    requires x == Join(Halves(left, right))
    ensures Fips46.LeftHalf(x) == left && Fips46.RightHalf(x) == right
  {
  }

  lemma CipherOfHalves(roundKeys: nat -> Fips46.Groups, start: Fips46.LR, x: bv64)
    requires Fips46.IP(x) == Join(Halves(start.l, start.r))
    ensures var end := Fips46.Feistel(roundKeys, 16, start);
            Fips46.Cipher(roundKeys, x) == Fips46.InverseIP(Join(Halves(end.r, end.l)))
  {
    hide Fips46.IP, Fips46.InverseIP, Fips46.Feistel, Fips46.LeftHalf, Fips46.RightHalf, Fips46.Concat;
    SplitJoin(start.l, start.r, Fips46.IP(x));
  }

  lemma CryptOfHalves(keys: Subkeys, block: Bytes8, start: Fips46.LR, end: Fips46.LR)
    requires InitialPermutation(Read64(block)) == RotatedLR(start)
    requires Rounds(TABLES, keys, 8, RotatedLR(start)) == RotatedLR(end)
    ensures Bits(Crypt(TABLES, keys, block)) == Fips46.InverseIP(Join(Halves(end.r, end.l)))
  {
    hide InitialPermutation, FinalPermutation, Rounds, Rol1, Join, Read64, Write64, Fips46.InverseIP;
    PermutationsAreIP(Halves(end.r, end.l));
    ReadWriteRoundTrip(block, FinalPermutation(Halves(Rol1(end.r), Rol1(end.l))));
  }

  lemma CryptIsCipher(keys: Subkeys, roundKeys: nat -> Fips46.Groups, block: Bytes8)
    requires Packs(keys, roundKeys)
    ensures Bits(Crypt(TABLES, keys, block)) == Fips46.Cipher(roundKeys, Bits(block))
  {
    hide InitialPermutation, FinalPermutation, Rounds, Crypt, Packs, Rol1, Ror1, Join, Read64,
         Fips46.Feistel, Fips46.Cipher, Fips46.IP, Fips46.InverseIP;
    var p := InitialPermutation(Read64(block));
    var start := Fips46.LR(Ror1(p.left), Ror1(p.right));
    PermutationsAreIP(Read64(block));
    RolRor(p.left);
    RolRor(p.right);
    CipherOfHalves(roundKeys, start, Bits(block));
    RoundsAreFeistel(keys, roundKeys, 8, start);
    CryptOfHalves(keys, block, start, Fips46.Feistel(roundKeys, 16, start));
  }

  lemma SchedulePacks(key: Bytes8)
    ensures Packs(Schedule(key), Fips46.EncipherKeys(Bits(key)))
    ensures Packs(Reordered(Schedule(key)), Fips46.DecipherKeys(Bits(key)))
  {
    hide Schedule, PackEven, PackOdd, Fips46.RoundKey, Bits;
    forall i | 1 <= i <= 16
      ensures Schedule(key)[2 * i - 2] == PackEven(Fips46.RoundKey(Bits(key), i))
      ensures Schedule(key)[2 * i - 1] == PackOdd(Fips46.RoundKey(Bits(key), i))
    {
      ScheduleIsStandard(key, i - 1);
    }
    forall i {:trigger Fips46.DecipherKeys(Bits(key))(i)} | 1 <= i <= 16
      ensures Reordered(Schedule(key))[2 * i - 2] == PackEven(Fips46.RoundKey(Bits(key), 17 - i))
      ensures Reordered(Schedule(key))[2 * i - 1] == PackOdd(Fips46.RoundKey(Bits(key), 17 - i))
    {
      ScheduleIsStandard(key, 16 - i);
    }
  }

  /** For every key and block, the implementation enciphers and deciphers as FIPS 46-3 prescribes. */
  lemma ImplementsStandard(key: Bytes8, block: Bytes8)
    ensures Bits(Encrypt(TABLES, key, block)) == Fips46.Cipher(Fips46.EncipherKeys(Bits(key)), Bits(block))
    ensures Bits(Decrypt(TABLES, key, block)) == Fips46.Cipher(Fips46.DecipherKeys(Bits(key)), Bits(block))
  {
    hide Crypt, Schedule, Reordered, Packs, Bits, Fips46.Cipher, Fips46.EncipherKeys, Fips46.DecipherKeys;
    SchedulePacks(key);
    CryptIsCipher(Schedule(key), Fips46.EncipherKeys(Bits(key)), block);
    CryptIsCipher(Reordered(Schedule(key)), Fips46.DecipherKeys(Bits(key)), block);
  }
}
