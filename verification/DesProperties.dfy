/**
 Properties of the DES implementation that hold for any contents of the substitution
 tables: decryption, complementation, parity bits and the weak keys.
 */
module DesProperties {
  import opened Des
  import opened DesRouting
  import DesTables

  // ---------- decryption undoes encryption ----------

  lemma XorTwice(a: bv32, m: bv32)
    ensures (a ^ m) ^ m == a
  {
  }

  lemma RoundReverses(sb: SBoxes, from: bv32, to: bv32, k0: bv32, k1: bv32)
    ensures DesRound(sb, from, DesRound(sb, from, to, k0, k1), k0, k1) == to
  {
    hide Mix;
    XorTwice(to, Mix(sb, from, k0, k1));
  }

  /** The same two rounds with their subkeys in the opposite order, on exchanged words, undo a pair of rounds. */
  lemma RoundPairReverses(sb: SBoxes, k0: bv32, k1: bv32, k2: bv32, k3: bv32, h: Halves)
    ensures RoundPair(sb, k2, k3, k0, k1, Swap(RoundPair(sb, k0, k1, k2, k3, h))) == Swap(h)
  {
    hide DesRound;
    var left := DesRound(sb, h.right, h.left, k0, k1);
    RoundReverses(sb, left, h.right, k2, k3);
    RoundReverses(sb, h.right, h.left, k0, k1);
  }

  lemma ReorderedPair(keys: Subkeys, n: nat)
    requires n < 8
    ensures var r, m := Reordered(keys), 7 - n;
            && r[4 * n] == keys[4 * m + 2] && r[4 * n + 1] == keys[4 * m + 3]
            && r[4 * n + 2] == keys[4 * m] && r[4 * n + 3] == keys[4 * m + 1]
  {
  }

  /** After n pairs of decryption rounds the words are those n pairs before the end of encryption, exchanged. */
  lemma {:induction false} RoundsReverse(sb: SBoxes, keys: Subkeys, n: nat, h: Halves)
    requires n <= 8
    ensures Rounds(sb, Reordered(keys), n, Swap(Rounds(sb, keys, 8, h))) == Swap(Rounds(sb, keys, 8 - n, h))
  {
    hide RoundPair, Reordered;
    if n > 0 {
      RoundsReverse(sb, keys, n - 1, h);
      var m := 8 - n;
      ReorderedPair(keys, n - 1);
      RoundPairReverses(sb, keys[4 * m], keys[4 * m + 1], keys[4 * m + 2], keys[4 * m + 3], Rounds(sb, keys, m, h));
    }
  }

  lemma CryptReverses(sb: SBoxes, keys: Subkeys, block: Bytes8)
    ensures Crypt(sb, Reordered(keys), Crypt(sb, keys, block)) == block
  {
    hide InitialPermutation, FinalPermutation, Read64, Write64, Rounds, Reordered;
    var start := InitialPermutation(Read64(block));
    var end := Swap(Rounds(sb, keys, 8, start));
    ReadWriteRoundTrip(block, FinalPermutation(end));
    PermutationsInverse(end);
    RoundsReverse(sb, keys, 8, start);
    assert Rounds(sb, keys, 0, start) == start by { RoundsZero(sb, keys, start); }
    PermutationsInverse(Read64(block));
  }

  lemma RoundsZero(sb: SBoxes, keys: Subkeys, h: Halves)
    ensures Rounds(sb, keys, 0, h) == h
  {
  }

  lemma ReorderedTwice(keys: Subkeys)
    ensures Reordered(Reordered(keys)) == keys
  {
  }

  /** Decrypting undoes encrypting, and encrypting undoes decrypting, for every key and block. */
  lemma DecryptInvertsEncrypt(sb: SBoxes, key: Bytes8, block: Bytes8)
    ensures Decrypt(sb, key, Encrypt(sb, key, block)) == block
    ensures Encrypt(sb, key, Decrypt(sb, key, block)) == block
  {
    hide Crypt, Schedule, Reordered;
    CryptReverses(sb, Schedule(key), block);
    CryptReverses(sb, Reordered(Schedule(key)), block);
    ReorderedTwice(Schedule(key));
  }

  // ---------- complementation ----------

  function Neg(w: bv32): bv32 {
    !w
  }

  function Complement(b: Bytes8): Bytes8 {
    [!b[0], !b[1], !b[2], !b[3], !b[4], !b[5], !b[6], !b[7]]
  }

  function Not(h: Halves): Halves {
    Halves(Neg(h.left), Neg(h.right))
  }

  lemma ComplementWord(b0: bv8, b1: bv8, b2: bv8, b3: bv8)
    ensures Word(!b0, !b1, !b2, !b3) == Neg(Word(b0, b1, b2, b3))
  {
  }

  lemma ComplementByte(w: bv32)
    ensures ByteAt(Neg(w), 24) == !ByteAt(w, 24) && ByteAt(Neg(w), 16) == !ByteAt(w, 16)
    ensures ByteAt(Neg(w), 8) == !ByteAt(w, 8) && ByteAt(Neg(w), 0) == !ByteAt(w, 0)
  {
  }

  lemma ComplementWords(b: Bytes8, h: Halves)
    ensures Read64(Complement(b)) == Not(Read64(b))
    ensures Write64(Not(h)) == Complement(Write64(h))
  {
    hide Word, ByteAt, Neg;
    ComplementWord(b[0], b[1], b[2], b[3]);
    ComplementWord(b[4], b[5], b[6], b[7]);
    ComplementByte(h.left);
    ComplementByte(h.right);
  }

  lemma InitialRoutedComplement(h: Halves)
    ensures InitialRouted(Not(h)) == Not(InitialRouted(h))
  {
  }

  lemma FinalRoutedComplement(h: Halves)
    ensures FinalRouted(Not(h)) == Not(FinalRouted(h))
  {
  }

  lemma PermutationsComplement(h: Halves)
    ensures InitialPermutation(Not(h)) == Not(InitialPermutation(h))
    ensures FinalPermutation(Not(h)) == Not(FinalPermutation(h))
  {
    hide InitialPermutation, FinalPermutation, InitialRouted, FinalRouted, Not;
    PermutationsRoute(h);
    PermutationsRoute(Not(h));
    InitialRoutedComplement(h);
    FinalRoutedComplement(h);
  }

  /** What complementing the key does to a subkey word: the 24 bits a round looks at are inverted. */
  function Flip(k: bv32): bv32 {
    k ^ 0x3f3f3f3f
  }

  /** Two words select the same table entries. */
  predicate SameLookups(w: bv32, w': bv32) {
    && Low6(w') == Low6(w) && Low6(w' >> 8) == Low6(w >> 8)
    && Low6(w' >> 16) == Low6(w >> 16) && Low6(w' >> 24) == Low6(w >> 24)
  }

  /** The words differ exactly in the bits that no table index uses. */
  predicate StrayDifference(w: bv32, w': bv32) {
    w' == w ^ 0xc0c0c0c0
  }

  lemma StrayGroups(w: bv32, w': bv32)
    requires StrayDifference(w, w')
    ensures Low6(w') == Low6(w) && Low6(w' >> 8) == Low6(w >> 8)
    ensures Low6(w' >> 16) == Low6(w >> 16) && Low6(w' >> 24) == Low6(w >> 24)
  {
  }

  lemma StrayBitsIgnored(w: bv32, w': bv32)
    requires StrayDifference(w, w')
    ensures SameLookups(w, w')
  {
    hide Low6, StrayDifference;
    StrayGroups(w, w');
  }

  lemma IndicesFlip(from: bv32, k: bv32)
    ensures StrayDifference(EvenIndices(from, k), EvenIndices(Neg(from), Flip(k)))
    ensures StrayDifference(OddIndices(from, k), OddIndices(Neg(from), Flip(k)))
  {
  }

  lemma IndicesComplement(from: bv32, k: bv32)
    ensures SameLookups(EvenIndices(from, k), EvenIndices(Neg(from), Flip(k)))
    ensures SameLookups(OddIndices(from, k), OddIndices(Neg(from), Flip(k)))
  {
    hide EvenIndices, OddIndices, Neg, Flip, SameLookups, StrayDifference;
    IndicesFlip(from, k);
    StrayBitsIgnored(EvenIndices(from, k), EvenIndices(Neg(from), Flip(k)));
    StrayBitsIgnored(OddIndices(from, k), OddIndices(Neg(from), Flip(k)));
  }

  lemma LookupsAgree(sb: SBoxes, even: bv32, odd: bv32, even': bv32, odd': bv32)
    requires SameLookups(even, even') && SameLookups(odd, odd')
    ensures Lookups(sb, even', odd') == Lookups(sb, even, odd)
  {
    hide Sum, Low6;
  }

  lemma MixComplement(sb: SBoxes, from: bv32, k0: bv32, k1: bv32)
    ensures Mix(sb, Neg(from), Flip(k0), Flip(k1)) == Mix(sb, from, k0, k1)
  {
    hide EvenIndices, OddIndices, Lookups, Flip, Neg, SameLookups;
    IndicesComplement(from, k0);
    IndicesComplement(from, k1);
    LookupsAgree(sb, EvenIndices(from, k0), OddIndices(from, k1),
                 EvenIndices(Neg(from), Flip(k0)), OddIndices(Neg(from), Flip(k1)));
  }

  lemma XorComplement(a: bv32, m: bv32)
    ensures Neg(a) ^ m == Neg(a ^ m)
  {
  }

  lemma RoundComplement(sb: SBoxes, from: bv32, to: bv32, k0: bv32, k1: bv32)
    ensures DesRound(sb, Neg(from), Neg(to), Flip(k0), Flip(k1)) == Neg(DesRound(sb, from, to, k0, k1))
  {
    hide Mix, Flip, Neg;
    MixComplement(sb, from, k0, k1);
    XorComplement(to, Mix(sb, from, k0, k1));
  }

  lemma RoundPairComplement(sb: SBoxes, k0: bv32, k1: bv32, k2: bv32, k3: bv32, h: Halves)
    ensures RoundPair(sb, Flip(k0), Flip(k1), Flip(k2), Flip(k3), Not(h)) == Not(RoundPair(sb, k0, k1, k2, k3, h))
  {
    hide DesRound, Flip, Neg;
    RoundComplement(sb, h.right, h.left, k0, k1);
    RoundComplement(sb, DesRound(sb, h.right, h.left, k0, k1), h.right, k2, k3);
  }

  ghost predicate Flipped(keys: Subkeys, keys': Subkeys) {
    forall i :: 0 <= i < 32 ==> keys'[i] == Flip(keys[i])
  }

  lemma {:induction false} RoundsComplement(sb: SBoxes, keys: Subkeys, keys': Subkeys, n: nat, h: Halves)
    requires n <= 8 && Flipped(keys, keys')
    ensures Rounds(sb, keys', n, Not(h)) == Not(Rounds(sb, keys, n, h))
  {
    hide RoundPair, Flip, Not;
    if n > 0 {
      RoundsComplement(sb, keys, keys', n - 1, h);
      RoundPairComplement(sb, keys[4 * n - 4], keys[4 * n - 3], keys[4 * n - 2], keys[4 * n - 1],
                          Rounds(sb, keys, n - 1, h));
    }
  }

  lemma CryptComplement(sb: SBoxes, keys: Subkeys, keys': Subkeys, block: Bytes8)
    requires Flipped(keys, keys')
    ensures Crypt(sb, keys', Complement(block)) == Complement(Crypt(sb, keys, block))
  {
    hide InitialPermutation, FinalPermutation, Read64, Write64, Rounds, Flipped, Neg, Complement;
    var start := InitialPermutation(Read64(block));
    var end := Swap(Rounds(sb, keys, 8, start));
    ComplementWords(block, FinalPermutation(end));
    PermutationsComplement(Read64(block));
    RoundsComplement(sb, keys, keys', 8, start);
    PermutationsComplement(end);
  }

  function Neg28(w: bv32): bv32 {
    w ^ 0x0fffffff
  }

  function Not28(h: Halves): Halves {
    Halves(Neg28(h.left), Neg28(h.right))
  }

  /** Two words use only the 24 bits of their four groups, and every group of one is the complement of the other's. */
  predicate OppositeGroups(w: bv32, w': bv32) {
    && w & 0xc0c0c0c0 == 0 && w' & 0xc0c0c0c0 == 0
    && Low6(w') == !Low6(w) && Low6(w' >> 8) == !Low6(w >> 8)
    && Low6(w' >> 16) == !Low6(w >> 16) && Low6(w' >> 24) == !Low6(w >> 24)
  }

  lemma OppositeIsFlip(w: bv32, w': bv32)
    requires OppositeGroups(w, w')
    ensures w' == Flip(w)
  {
  }

  lemma EvenSubkeyBits(h: Halves)
    ensures var w, w' := EvenSubkey(h), EvenSubkey(Not28(h));
            && w & 0xc0c0c0c0 == 0 && w' & 0xc0c0c0c0 == 0
            && Low6(w') == !Low6(w) && Low6(w' >> 8) == !Low6(w >> 8)
            && Low6(w' >> 16) == !Low6(w >> 16) && Low6(w' >> 24) == !Low6(w >> 24)
  {
  }

  lemma OddSubkeyBits(h: Halves)
    ensures var w, w' := OddSubkey(h), OddSubkey(Not28(h));
            && w & 0xc0c0c0c0 == 0 && w' & 0xc0c0c0c0 == 0
            && Low6(w') == !Low6(w) && Low6(w' >> 8) == !Low6(w >> 8)
            && Low6(w' >> 16) == !Low6(w >> 16) && Low6(w' >> 24) == !Low6(w >> 24)
  {
  }

  lemma OppositeSubkeys(h: Halves)
    ensures OppositeGroups(EvenSubkey(h), EvenSubkey(Not28(h)))
    ensures OppositeGroups(OddSubkey(h), OddSubkey(Not28(h)))
  {
    hide EvenSubkey, OddSubkey, Not28, Low6;
    EvenSubkeyBits(h);
    OddSubkeyBits(h);
  }

  /** Inverting the 56 bits of the two key words inverts exactly the group bits of both subkey words. */
  lemma SubkeysComplement(h: Halves)
    ensures EvenSubkey(Not28(h)) == Flip(EvenSubkey(h))
    ensures OddSubkey(Not28(h)) == Flip(OddSubkey(h))
  {
    hide EvenSubkey, OddSubkey, Not28, Flip, OppositeGroups;
    OppositeSubkeys(h);
    OppositeIsFlip(EvenSubkey(h), EvenSubkey(Not28(h)));
    OppositeIsFlip(OddSubkey(h), OddSubkey(Not28(h)));
  }

  predicate BothFit28(h: Halves) {
    Fits28(h.left) && Fits28(h.right)
  }

  lemma RotateComplement(w: bv32)
    requires Fits28(w)
    ensures Rotate28(Neg28(w), 1) == Neg28(Rotate28(w, 1)) && Rotate28(Neg28(w), 2) == Neg28(Rotate28(w, 2))
    ensures Fits28(Rotate28(w, 1)) && Fits28(Rotate28(w, 2))
  {
  }

  lemma RotateHalvesComplement(h: Halves, n: bv6)
    requires BothFit28(h) && (n == 1 || n == 2)
    ensures RotateHalves(Not28(h), n) == Not28(RotateHalves(h, n)) && BothFit28(RotateHalves(h, n))
  {
    hide Rotate28, Fits28, Neg28;
    RotateComplement(h.left);
    RotateComplement(h.right);
  }

  lemma KeyRoutedComplement(h: Halves)
    ensures KeyRouted(Not(h)) == Not28(KeyRouted(h)) && BothFit28(KeyRouted(h))
  {
  }

  lemma KeyHalvesComplement(key: Bytes8)
    ensures KeyHalves(Complement(key)) == Not28(KeyHalves(key)) && BothFit28(KeyHalves(key))
  {
    hide KeyHalves, KeyRouted, Read64, Write64, Not, Complement, Not28, BothFit28;
    KeyHalvesRoute(key);
    KeyHalvesRoute(Complement(key));
    ComplementWords(key, Read64(key));
    KeyRoutedComplement(Read64(key));
  }

  lemma {:induction false} RoundKeyHalvesComplement(key: Bytes8, n: nat)
    requires n < 16
    ensures RoundKeyHalves(Complement(key), n) == Not28(RoundKeyHalves(key, n)) && BothFit28(RoundKeyHalves(key, n))
  {
    hide KeyHalves, RotateHalves, Complement, Not28, BothFit28;
    KeyHalvesComplement(key);
    if n > 0 {
      RoundKeyHalvesComplement(key, n - 1);
    }
    RotateHalvesComplement(if n == 0 then KeyHalves(key) else RoundKeyHalves(key, n - 1), RotateAmount(n));
  }

  lemma ScheduleComplement(key: Bytes8)
    ensures Flipped(Schedule(key), Schedule(Complement(key)))
    ensures Flipped(Reordered(Schedule(key)), Reordered(Schedule(Complement(key))))
  {
    hide RoundKeyHalves, EvenSubkey, OddSubkey, Flip, Complement, Not28;
    forall i | 0 <= i < 32
      ensures Schedule(Complement(key))[i] == Flip(Schedule(key)[i])
    {
      RoundKeyHalvesComplement(key, i / 2);
      SubkeysComplement(RoundKeyHalves(key, i / 2));
    }
  }

  /** Complementing every bit of the key and of the block complements every bit of the output. */
  lemma Complementation(sb: SBoxes, key: Bytes8, block: Bytes8)
    ensures Encrypt(sb, Complement(key), Complement(block)) == Complement(Encrypt(sb, key, block))
    ensures Decrypt(sb, Complement(key), Complement(block)) == Complement(Decrypt(sb, key, block))
  {
    hide Crypt, Schedule, Reordered, Complement, Flipped;
    ScheduleComplement(key);
    CryptComplement(sb, Schedule(key), Schedule(Complement(key)), block);
    CryptComplement(sb, Reordered(Schedule(key)), Reordered(Schedule(Complement(key))), block);
  }

  // ---------- parity bits ----------

  function UpperBits(w: bv32): bv32 {
    w & 0xfefefefe
  }

  /** The halves of a key without the low bit of each byte. */
  function Unparitied(h: Halves): Halves {
    Halves(UpperBits(h.left), UpperBits(h.right))
  }

  lemma KeyRoutedIgnoresParity(h: Halves)
    ensures KeyRouted(h) == KeyRouted(Unparitied(h))
  {
  }

  lemma {:induction false} SameRoundKeys(key: Bytes8, key': Bytes8, n: nat)
    requires n < 16 && KeyHalves(key) == KeyHalves(key')
    ensures RoundKeyHalves(key, n) == RoundKeyHalves(key', n)
  {
    hide KeyHalves, RotateHalves;
    if n > 0 {
      SameRoundKeys(key, key', n - 1);
    }
  }

  lemma SameSchedule(key: Bytes8, key': Bytes8)
    requires KeyHalves(key) == KeyHalves(key')
    ensures Schedule(key) == Schedule(key')
  {
    hide KeyHalves, EvenSubkey, OddSubkey, RoundKeyHalves;
    forall i | 0 <= i < 32
      ensures SubkeyWord(key, i) == SubkeyWord(key', i)
    {
      SameRoundKeys(key, key', i / 2);
    }
  }

  /** Keys that differ only in the low bit of each byte have the same subkeys. */
  lemma ParityIgnored(key: Bytes8, key': Bytes8)
    requires Unparitied(Read64(key)) == Unparitied(Read64(key'))
    ensures Schedule(key) == Schedule(key')
  {
    hide KeyHalves, KeyRouted, Unparitied, Schedule, Read64;
    KeyHalvesRoute(key);
    KeyHalvesRoute(key');
    KeyRoutedIgnoresParity(Read64(key));
    KeyRoutedIgnoresParity(Read64(key'));
    SameSchedule(key, key');
  }

  // ---------- weak keys ----------

  /** The key is the given table entry, whatever its parity bits. */
  predicate IsTableKey(key: Bytes8, i: bv6) {
    Unparitied(Read64(key)) == TableHalves(i)
  }

  function TableHalves(i: bv6): Halves {
    var k := DesTables.WeakKey(i);
    Halves((k >> 32) as bv32, (k & 0xffff_ffff) as bv32)
  }

  /** Two bits of the index decide the five high and the five low bits of a byte of the entry. */
  function DigitByte(d: bv6, low: bv32, high: bv32): bv32 {
    (if d & 1 != 0 then low else 0) | (if d & 2 != 0 then high else 0)
  }

  /** Rows are in ascending order: three base-4 digits, and a fourth that is their sum without carry. */
  function Digits(i: bv6, low: bv32, high: bv32): bv32 {
    (DigitByte(i >> 4, low, high) << 24) | (DigitByte(i >> 2, low, high) << 16) | (DigitByte(i, low, high) << 8)
    | DigitByte((i >> 4) ^ (i >> 2) ^ i, low, high)
  }

  lemma TableByDigits(i: bv6)
    ensures TableHalves(i).left == Digits(i, 0x1e, 0xe0)
    ensures TableHalves(i).right == Digits(i, 0x0e, 0xf0)
  {
  }

  /**
   The nibble that, repeated seven times, is a key word of a table entry; it depends on every second bit of the index.
   */
  function WeakNibble(i: bv6): bv32 {
    (if i & 1 != 0 then 0xc else 0) ^ (if i & 4 != 0 then 0xa else 0) ^ (if i & 16 != 0 then 0x9 else 0)
  }

  function Repeated(nibble: bv32): bv32 {
    nibble | (nibble << 4) | (nibble << 8) | (nibble << 12) | (nibble << 16) | (nibble << 20) | (nibble << 24)
  }

  lemma DigitsRepeat(i: bv6)
    ensures var k := KeyRouted(Halves(Digits(i, 0x1e, 0xe0), Digits(i, 0x0e, 0xf0)));
            k.left == Repeated(WeakNibble(i >> 1)) && k.right == Repeated(WeakNibble(i))
  {
  }

  lemma TableKeyHalves(key: Bytes8, i: bv6)
    requires IsTableKey(key, i)
    ensures KeyHalves(key) == Halves(Repeated(WeakNibble(i >> 1)), Repeated(WeakNibble(i)))
  {
    hide KeyHalves, KeyRouted, Unparitied, TableHalves, Read64, Repeated, WeakNibble, Digits;
    KeyHalvesRoute(key);
    KeyRoutedIgnoresParity(Read64(key));
    TableByDigits(i);
    DigitsRepeat(i);
  }

  /** How far the key words stand rotated in each round, modulo four. */
  function Turn(round: nat): (turn: nat)
    requires round < 16
    ensures turn < 4
  {
    [1, 2, 0, 2, 0, 2, 0, 2, 3, 1, 3, 1, 3, 1, 3, 0][round]
  }

  lemma TurnsAddUp(n: nat)
    requires n < 16
    ensures var before := if n == 0 then 0 else Turn(n - 1);
            Turn(n) == (before + if RotateAmount(n) == 1 then 1 else 2) % 4
  {
  }

  /** A table key's word turned by 0, 1, 2 or 3 places. */
  function TurnedWord(w: bv32, turn: nat): bv32
    requires turn < 4
  {
    if turn == 0 then w else if turn == 1 then Rotate28(w, 1)
    else if turn == 2 then Rotate28(w, 2) else Rotate28(Rotate28(w, 2), 1)
  }

  function TurnedTableWords(i: bv6, turn: nat): Halves
    requires turn < 4
  {
    Halves(TurnedWord(Repeated(WeakNibble(i >> 1)), turn), TurnedWord(Repeated(WeakNibble(i)), turn))
  }

  lemma RepeatedPeriod4(i: bv6)
    ensures var w := Repeated(WeakNibble(i));
            var w1, w2 := Rotate28(w, 1), Rotate28(w, 2);
            var w3 := Rotate28(w2, 1);
            && Rotate28(w1, 1) == w2 && Rotate28(w1, 2) == w3
            && Rotate28(w2, 2) == w && Rotate28(w3, 1) == w && Rotate28(w3, 2) == w1
  {
  }

  lemma TurnedWordStep(i: bv6, turn: nat)
    requires turn < 4
    ensures var w := Repeated(WeakNibble(i));
            && Rotate28(TurnedWord(w, turn), 1) == TurnedWord(w, (turn + 1) % 4)
            && Rotate28(TurnedWord(w, turn), 2) == TurnedWord(w, (turn + 2) % 4)
  {
    hide Rotate28, Repeated, WeakNibble;
    RepeatedPeriod4(i);
  }

  lemma TurnedStep(i: bv6, turn: nat)
    requires turn < 4
    ensures RotateHalves(TurnedTableWords(i, turn), 1) == TurnedTableWords(i, (turn + 1) % 4)
    ensures RotateHalves(TurnedTableWords(i, turn), 2) == TurnedTableWords(i, (turn + 2) % 4)
  {
    hide Rotate28, Repeated, WeakNibble, TurnedWord;
    TurnedWordStep(i, turn);
    TurnedWordStep(i >> 1, turn);
  }

  lemma TableStart(key: Bytes8, i: bv6)
    requires IsTableKey(key, i)
    ensures KeyHalves(key) == TurnedTableWords(i, 0)
  {
    hide KeyHalves, IsTableKey, Repeated, WeakNibble;
    TableKeyHalves(key, i);
  }

  lemma {:induction false} TableRoundKeys(key: Bytes8, i: bv6, n: nat)
    requires n < 16 && IsTableKey(key, i)
    ensures RoundKeyHalves(key, n) == TurnedTableWords(i, Turn(n))
  {
    hide KeyHalves, RotateHalves, IsTableKey, TurnedTableWords, RotateAmount, Turn;
    TurnsAddUp(n);
    if n == 0 {
      TableStart(key, i);
      TurnedStep(i, 0);
    } else {
      TableRoundKeys(key, i, n - 1);
      TurnedStep(i, Turn(n - 1));
    }
  }

  /** The first round in which the key words stand as in round n. */
  function Representative(n: nat): (m: nat)
    requires n < 16
    ensures m == 0 || m == 1 || m == 2 || m == 8
  {
    match Turn(n) case 1 => 0 case 2 => 1 case 0 => 2 case _ => 8
  }

  lemma RepresentativeTurn(n: nat)
    requires n < 16
    ensures Turn(Representative(n)) == Turn(n)
  {
  }

  /** Every key of the table has at most four different pairs of subkey words: those of rounds 0, 1, 2 and 8. */
  lemma TableKeysHaveFewSubkeys(key: Bytes8, i: bv6, n: nat)
    requires n < 16 && IsTableKey(key, i)
    ensures var keys, m := Schedule(key), Representative(n);
            keys[2 * n] == keys[2 * m] && keys[2 * n + 1] == keys[2 * m + 1]
  {
    hide RoundKeyHalves, EvenSubkey, OddSubkey, IsTableKey, TurnedTableWords, Turn, Representative;
    RepresentativeTurn(n);
    TableRoundKeys(key, i, n);
    TableRoundKeys(key, i, Representative(n));
  }

  /** The table entry with the digits a b a b. */
  function Alternating(a: bv2, b: bv2): bv6 {
    ((a as bv6) << 4) | ((b as bv6) << 2) | (a as bv6)
  }

  lemma AlternatingTurns(a: bv2, b: bv2)
    ensures var w, w' := Repeated(WeakNibble(Alternating(a, b))), Repeated(WeakNibble(Alternating(b, a)));
            Rotate28(w, 2) == w && w' == Rotate28(w, 1)
    ensures var w, w' := Repeated(WeakNibble(Alternating(a, b) >> 1)), Repeated(WeakNibble(Alternating(b, a) >> 1));
            Rotate28(w, 2) == w && w' == Rotate28(w, 1)
  {
  }

  /** The entries with digits a b a b, marked w or sw, and among them those with a equal to b, marked w. */
  predicate IsAlternating(i: bv6) {
    i >> 4 == i & 3
  }

  predicate IsConstant(i: bv6) {
    IsAlternating(i) && (i >> 2) & 3 == i & 3
  }

  lemma AlternatingEntries(a: bv2, b: bv2)
    ensures IsAlternating(Alternating(a, b)) && (IsConstant(Alternating(a, b)) <==> a == b)
  {
  }

  predicate SameSubkeys(h: Halves, h': Halves) {
    EvenSubkey(h) == EvenSubkey(h') && OddSubkey(h) == OddSubkey(h')
  }

  lemma OneTurnApart(i: bv6, turn: nat)
    requires turn < 3
    ensures SameSubkeys(TurnedTableWords(i, turn), TurnedTableWords(i, turn + 1)) <==> IsConstant(i)
  {
  }

  lemma TwoTurnsApart(i: bv6, turn: nat)
    requires turn < 2
    ensures SameSubkeys(TurnedTableWords(i, turn), TurnedTableWords(i, turn + 2)) <==> IsAlternating(i)
  {
  }

  lemma ThreeTurnsApart(i: bv6)
    ensures SameSubkeys(TurnedTableWords(i, 0), TurnedTableWords(i, 3)) <==> IsConstant(i)
  {
  }

  /** When the subkey words of two turned entries are the same. */
  lemma TurnedPairs(i: bv6, turn: nat, turn': nat)
    requires turn <= turn' < 4
    ensures SameSubkeys(TurnedTableWords(i, turn), TurnedTableWords(i, turn'))
            <==> turn == turn' || IsConstant(i) || (IsAlternating(i) && turn % 2 == turn' % 2)
  {
    hide EvenSubkey, OddSubkey, TurnedTableWords, IsAlternating;
    ConstantAlternates(i);
    if turn' == turn + 1 {
      OneTurnApart(i, turn);
    } else if turn' == turn + 2 {
      TwoTurnsApart(i, turn);
    } else if turn' == turn + 3 {
      ThreeTurnsApart(i);
    }
  }

  lemma ConstantAlternates(i: bv6)
    ensures IsConstant(i) ==> IsAlternating(i)
  {
  }

  /** Two rounds have the same pair of subkey words. */
  predicate SamePair(keys: Subkeys, n: nat, m: nat)
    requires n < 16 && m < 16
  {
    keys[2 * n] == keys[2 * m] && keys[2 * n + 1] == keys[2 * m + 1]
  }

  lemma PairOfRound(key: Bytes8, n: nat)
    requires n < 16
    ensures Schedule(key)[2 * n] == EvenSubkey(RoundKeyHalves(key, n))
    ensures Schedule(key)[2 * n + 1] == OddSubkey(RoundKeyHalves(key, n))
  {
    hide RoundKeyHalves, EvenSubkey, OddSubkey;
  }

  /**
   Which rounds of a table key share their subkeys, exactly: all of them for a key marked w, those that stand turned
   by an even number of places for one marked sw, and otherwise only those that stand in the same place. As all four
   turns occur in the 16 rounds, a key of the table has one, two or four different pairs.
   */
  lemma TableKeysShareSubkeysWhen(key: Bytes8, i: bv6, n: nat, m: nat)
    requires n < 16 && m < 16 && IsTableKey(key, i)
    ensures SamePair(Schedule(key), n, m)
            <==> Turn(n) == Turn(m) || IsConstant(i) || (IsAlternating(i) && Turn(n) % 2 == Turn(m) % 2)
    ensures Turn(8) == 3 && Turn(0) == 1 && Turn(1) == 2 && Turn(2) == 0
  {
    hide Schedule, RoundKeyHalves, EvenSubkey, OddSubkey, IsTableKey, TurnedTableWords, IsConstant, IsAlternating;
    TableRoundKeys(key, i, n);
    TableRoundKeys(key, i, m);
    PairOfRound(key, n);
    PairOfRound(key, m);
    if Turn(n) <= Turn(m) {
      TurnedPairs(i, Turn(n), Turn(m));
    } else {
      TurnedPairs(i, Turn(m), Turn(n));
    }
  }

  /** A key marked sw has the two pairs of rounds 0 and 1, which differ. */
  lemma SemiWeakKeysHaveTwoSubkeyPairs(key: Bytes8, a: bv2, b: bv2, n: nat)
    requires n < 16 && IsTableKey(key, Alternating(a, b)) && a != b
    ensures SamePair(Schedule(key), n, 0) <==> !SamePair(Schedule(key), n, 1)
    ensures !SamePair(Schedule(key), 0, 1)
  {
    hide Schedule, IsTableKey, Alternating, IsConstant, IsAlternating, SamePair, Turn;
    AlternatingEntries(a, b);
    TableKeysShareSubkeysWhen(key, Alternating(a, b), n, 0);
    TableKeysShareSubkeysWhen(key, Alternating(a, b), n, 1);
    TableKeysShareSubkeysWhen(key, Alternating(a, b), 0, 1);
  }

  lemma OddTurns(w: bv32, w': bv32, turn: nat, turn': nat)
    requires turn < 4 && turn' < 4 && (turn + turn') % 2 == 1
    requires Rotate28(w, 2) == w && Rotate28(w', 2) == w' && w' == Rotate28(w, 1) && w == Rotate28(w', 1)
    ensures TurnedWord(w', turn') == TurnedWord(w, turn)
  {
    hide Rotate28;
  }

  /** A key marked w has the same pair of subkey words in all 16 rounds. */
  lemma WeakKeysHaveOneSubkeyPair(key: Bytes8, a: bv2, n: nat)
    requires n < 16 && IsTableKey(key, Alternating(a, a))
    ensures Schedule(key)[2 * n] == Schedule(key)[0] && Schedule(key)[2 * n + 1] == Schedule(key)[1]
  {
    hide Schedule, IsTableKey, Alternating, IsConstant, Turn;
    AlternatingEntries(a, a);
    TableKeysShareSubkeysWhen(key, Alternating(a, a), n, 0);
  }

  lemma AlternatingWords(a: bv2, b: bv2, turn: nat, turn': nat)
    requires turn < 4 && turn' < 4 && (turn + turn') % 2 == 1
    ensures TurnedTableWords(Alternating(b, a), turn') == TurnedTableWords(Alternating(a, b), turn)
  {
    hide Repeated, WeakNibble, Rotate28, Alternating, TurnedWord;
    var i, i' := Alternating(a, b), Alternating(b, a);
    AlternatingTurns(a, b);
    AlternatingTurns(b, a);
    OddTurns(Repeated(WeakNibble(i)), Repeated(WeakNibble(i')), turn, turn');
    OddTurns(Repeated(WeakNibble(i >> 1)), Repeated(WeakNibble(i' >> 1)), turn, turn');
  }

  lemma TurnsMirror(n: nat)
    requires n < 16
    ensures (Turn(n) + Turn(15 - n)) % 2 == 1
  {
  }

  lemma MirroredRound(key: Bytes8, key': Bytes8, a: bv2, b: bv2, n: nat)
    requires n < 16 && IsTableKey(key, Alternating(a, b)) && IsTableKey(key', Alternating(b, a))
    ensures RoundKeyHalves(key', n) == RoundKeyHalves(key, 15 - n)
  {
    hide RoundKeyHalves, IsTableKey, TurnedTableWords, Alternating, Turn;
    TableRoundKeys(key, Alternating(a, b), 15 - n);
    TableRoundKeys(key', Alternating(b, a), n);
    TurnsMirror(n);
    AlternatingWords(a, b, Turn(15 - n), Turn(n));
  }

  /** Exchanging the two digits of an alternating entry reverses the order of its subkeys. */
  lemma MirroredSchedule(key: Bytes8, key': Bytes8, a: bv2, b: bv2)
    requires IsTableKey(key, Alternating(a, b)) && IsTableKey(key', Alternating(b, a))
    ensures Schedule(key') == Reordered(Schedule(key))
  {
    hide RoundKeyHalves, EvenSubkey, OddSubkey, IsTableKey, Alternating;
    forall i | 0 <= i < 32
      ensures SubkeyWord(key', i) == Reordered(Schedule(key))[i]
    {
      MirroredRound(key, key', a, b, i / 2);
    }
  }

  /**
   The weak (a == b) and semi-weak (a != b) keys of the table, which have the digits a b a b:
   encrypting under one and then under the one with a and b exchanged gives the block back.
   */
  lemma SemiWeakPairs(sb: SBoxes, key: Bytes8, key': Bytes8, a: bv2, b: bv2, block: Bytes8)
    requires IsTableKey(key, Alternating(a, b)) && IsTableKey(key', Alternating(b, a))
    ensures Encrypt(sb, key', Encrypt(sb, key, block)) == block
  {
    hide Crypt, Schedule, Reordered, IsTableKey, Alternating;
    MirroredSchedule(key, key', a, b);
    CryptReverses(sb, Schedule(key), block);
  }
}
