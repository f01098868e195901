/**
 The DES implementation of cntlm-0.92.3/xcrypt.c: bit permutations done by swapping
 masked bits between two words, table-driven rounds on words that stay rotated one
 bit to the left, and a key schedule that emits two pre-rotated words a round.

 Everything below holds for any contents of the eight substitution tables, so they
 are a parameter; TABLES is the instance the C file defines.
 */
module Des {
  import DesTables

  datatype Halves = Halves(left: bv32, right: bv32)

  datatype SBoxes = SBoxes(s1: bv6 -> bv32, s2: bv6 -> bv32, s3: bv6 -> bv32, s4: bv6 -> bv32,
                           s5: bv6 -> bv32, s6: bv6 -> bv32, s7: bv6 -> bv32, s8: bv6 -> bv32)

  const TABLES := SBoxes(DesTables.Sbox1, DesTables.Sbox2, DesTables.Sbox3, DesTables.Sbox4,
                         DesTables.Sbox5, DesTables.Sbox6, DesTables.Sbox7, DesTables.Sbox8)

  type Bytes8 = b: seq<bv8> | |b| == 8 witness [0, 0, 0, 0, 0, 0, 0, 0]
  type Subkeys = k: seq<bv32> | |k| == 32 witness seq(32, _ => 0)

  // ---------- bytes and words ----------

  function Word(b0: bv8, b1: bv8, b2: bv8, b3: bv8): bv32 {
    ((b0 as bv32) << 24) | ((b1 as bv32) << 16) | ((b2 as bv32) << 8) | (b3 as bv32)
  }

  function Read64(data: Bytes8): Halves {
    Halves(Word(data[0], data[1], data[2], data[3]), Word(data[4], data[5], data[6], data[7]))
  }

  function ByteAt(w: bv32, shift: bv6): bv8
    requires shift <= 24
  {
    ((w >> shift) & 0xff) as bv8
  }

  function Write64(h: Halves): Bytes8 {
    [ByteAt(h.left, 24), ByteAt(h.left, 16), ByteAt(h.left, 8), ByteAt(h.left, 0),
     ByteAt(h.right, 24), ByteAt(h.right, 16), ByteAt(h.right, 8), ByteAt(h.right, 0)]
  }

  lemma WordBytes(w: bv32)
    ensures Word(ByteAt(w, 24), ByteAt(w, 16), ByteAt(w, 8), ByteAt(w, 0)) == w
  {
  }

  lemma BytesWord(b0: bv8, b1: bv8, b2: bv8, b3: bv8)
    ensures var w := Word(b0, b1, b2, b3);
            ByteAt(w, 24) == b0 && ByteAt(w, 16) == b1 && ByteAt(w, 8) == b2 && ByteAt(w, 0) == b3
  {
  }

  /** The byte reading and writing macros undo each other. */
  lemma ReadWriteRoundTrip(data: Bytes8, h: Halves)
    ensures Write64(Read64(data)) == data
    ensures Read64(Write64(h)) == h
  {
    BytesWord(data[0], data[1], data[2], data[3]);
    BytesWord(data[4], data[5], data[6], data[7]);
    WordBytes(h.left);
    WordBytes(h.right);
  }

  // ---------- permutations ----------

  function Swap(h: Halves): Halves {
    Halves(h.right, h.left)
  }

  /**
   DO_PERMUTATION: exchange the bits of the left word selected by mask << offset with those of the right word selected
   by mask.
   */
  function Exchange(h: Halves, offset: bv6, mask: bv32): Halves
    requires offset <= 32
  {
    var temp := ((h.left >> offset) ^ h.right) & mask;
    Halves(h.left ^ (temp << offset), h.right ^ temp)
  }

  function InitialPermutation(h: Halves): Halves {
    var h := Swap(Exchange(Exchange(h, 4, 0x0f0f0f0f), 16, 0x0000ffff));
    var h := Swap(Exchange(Exchange(h, 2, 0x33333333), 8, 0x00ff00ff));
    Stagger(h)
  }

  function FinalPermutation(h: Halves): Halves {
    var h := Swap(Unstagger(h));
    var h := Swap(Exchange(Exchange(h, 8, 0x00ff00ff), 2, 0x33333333));
    Exchange(Exchange(h, 16, 0x0000ffff), 4, 0x0f0f0f0f)
  }

  /** The last steps of the initial permutation: rotate, exchange the odd bits, rotate the other word. */
  function Stagger(h: Halves): Halves {
    var right := (h.right << 1) | (h.right >> 31);
    var temp := (h.left ^ right) & 0xaaaaaaaa;
    var right := right ^ temp;
    var left := h.left ^ temp;
    Halves((left << 1) | (left >> 31), right)
  }

  function Unstagger(h: Halves): Halves {
    var left := (h.left << 31) | (h.left >> 1);
    var temp := (left ^ h.right) & 0xaaaaaaaa;
    var left := left ^ temp;
    var right := h.right ^ temp;
    Halves(left, (right << 31) | (right >> 1))
  }

  // ---------- rounds ----------

  function Low6(w: bv32): bv6 {
    (w & 0x3f) as bv6
  }

  function Sum(a: bv32, b: bv32, c: bv32, d: bv32, e: bv32, f: bv32, g: bv32, h: bv32): bv32 {
    a ^ b ^ c ^ d ^ e ^ f ^ g ^ h
  }

  /** The eight table lookups of a round: four six-bit indices out of each of two words. */
  function Lookups(sb: SBoxes, even: bv32, odd: bv32): bv32 {
    Sum(sb.s8(Low6(even)), sb.s6(Low6(even >> 8)), sb.s4(Low6(even >> 16)), sb.s2(Low6(even >> 24)),
        sb.s7(Low6(odd)), sb.s5(Low6(odd >> 8)), sb.s3(Low6(odd >> 16)), sb.s1(Low6(odd >> 24)))
  }

  function EvenIndices(from: bv32, k0: bv32): bv32 {
    from ^ k0
  }

  function OddIndices(from: bv32, k1: bv32): bv32 {
    ((from << 28) | (from >> 4)) ^ k1
  }

  /** What DES_ROUND xors into its target word. */
  function Mix(sb: SBoxes, from: bv32, k0: bv32, k1: bv32): bv32 {
    Lookups(sb, EvenIndices(from, k0), OddIndices(from, k1))
  }

  /** DES_ROUND: the new value of the target word. */
  function DesRound(sb: SBoxes, from: bv32, to: bv32, k0: bv32, k1: bv32): bv32 {
    to ^ Mix(sb, from, k0, k1)
  }

  /** Rounds 2n and 2n + 1: the first changes the left word, the second the right one; the words are never swapped. */
  function RoundPair(sb: SBoxes, k0: bv32, k1: bv32, k2: bv32, k3: bv32, h: Halves): Halves {
    var left := DesRound(sb, h.right, h.left, k0, k1);
    Halves(left, DesRound(sb, left, h.right, k2, k3))
  }

  /** The first 2n rounds. */
  function Rounds(sb: SBoxes, keys: Subkeys, n: nat, h: Halves): Halves
    requires n <= 8
  {
    if n == 0 then h
    else
      RoundPair(sb, keys[4 * n - 4], keys[4 * n - 3], keys[4 * n - 2], keys[4 * n - 1], Rounds(sb, keys, n - 1, h))
  }

  /** One block through the cipher with the given 32 subkeys. */
  function Crypt(sb: SBoxes, keys: Subkeys, block: Bytes8): Bytes8 {
    Write64(FinalPermutation(Swap(Rounds(sb, keys, 8, InitialPermutation(Read64(block))))))
  }

  // ---------- key schedule ----------

  function Nibble(w: bv32, shift: bv6): bv4
    requires shift <= 32
  {
    ((w >> shift) & 0xf) as bv4
  }

  function Low28(w: bv32): bv32 {
    w & 0x0fffffff
  }

  /** The part of des_key_schedule before the rounds: permuted choice 1 into two 28-bit words. */
  function KeyHalves(key: Bytes8): Halves {
    var h := Exchange(Exchange(Swap(Read64(key)), 4, 0x0f0f0f0f), 0, 0x10101010);
    Halves(Low28(SpreadLeft(h.right)), Low28(SpreadRight(h.left)))
  }

  /** The eight looked-up nibbles, shifted so that their bits interleave. */
  function Interleave(a: bv32, b: bv32, c: bv32, d: bv32, e: bv32, f: bv32, g: bv32, h: bv32): bv32 {
    (a << 3) | (b << 2) | (c << 1) | d | (e << 7) | (f << 6) | (g << 5) | (h << 4)
  }

  function SpreadLeft(left: bv32): bv32 {
    Interleave(DesTables.LeftKeySwap(Nibble(left, 0)), DesTables.LeftKeySwap(Nibble(left, 8)),
               DesTables.LeftKeySwap(Nibble(left, 16)), DesTables.LeftKeySwap(Nibble(left, 24)),
               DesTables.LeftKeySwap(Nibble(left, 5)), DesTables.LeftKeySwap(Nibble(left, 13)),
               DesTables.LeftKeySwap(Nibble(left, 21)), DesTables.LeftKeySwap(Nibble(left, 29)))
  }

  function SpreadRight(right: bv32): bv32 {
    Interleave(DesTables.RightKeySwap(Nibble(right, 1)), DesTables.RightKeySwap(Nibble(right, 9)),
               DesTables.RightKeySwap(Nibble(right, 17)), DesTables.RightKeySwap(Nibble(right, 25)),
               DesTables.RightKeySwap(Nibble(right, 4)), DesTables.RightKeySwap(Nibble(right, 12)),
               DesTables.RightKeySwap(Nibble(right, 20)), DesTables.RightKeySwap(Nibble(right, 28)))
  }

  function Rotate28(w: bv32, n: bv6): bv32
    requires n <= 28
  {
    Low28((w << n) | (w >> (28 - n)))
  }

  function RotateHalves(h: Halves, n: bv6): Halves
    requires n <= 28
  {
    Halves(Rotate28(h.left, n), Rotate28(h.right, n))
  }

  function RotateAmount(round: nat): (amount: bv6)
    requires round < 16
    ensures amount == 1 || amount == 2
  {
    DesTables.ENCRYPT_ROTATE_TAB[round]
  }

  /** The two key words as they stand in round n, after the rotation of that round. */
  function RoundKeyHalves(key: Bytes8, n: nat): Halves
    requires n < 16
  {
    var h := if n == 0 then KeyHalves(key) else RoundKeyHalves(key, n - 1);
    RotateHalves(h, RotateAmount(n))
  }

  function EvenSubkey(h: Halves): bv32 {
    var Halves(left, right) := h;
    ((left << 4) & 0x24000000)
    | ((left << 28) & 0x10000000)
    | ((left << 14) & 0x08000000)
    | ((left << 18) & 0x02080000)
    | ((left << 6) & 0x01000000)
    | ((left << 9) & 0x00200000)
    | ((left >> 1) & 0x00100000)
    | ((left << 10) & 0x00040000)
    | ((left << 2) & 0x00020000)
    | ((left >> 10) & 0x00010000)
    | ((right >> 13) & 0x00002000)
    | ((right >> 4) & 0x00001000)
    | ((right << 6) & 0x00000800)
    | ((right >> 1) & 0x00000400)
    | ((right >> 14) & 0x00000200)
    | (right & 0x00000100)
    | ((right >> 5) & 0x00000020)
    | ((right >> 10) & 0x00000010)
    | ((right >> 3) & 0x00000008)
    | ((right >> 18) & 0x00000004)
    | ((right >> 26) & 0x00000002)
    | ((right >> 24) & 0x00000001)
  }

  function OddSubkey(h: Halves): bv32 {
    var Halves(left, right) := h;
    ((left << 15) & 0x20000000)
    | ((left << 17) & 0x10000000)
    | ((left << 10) & 0x08000000)
    | ((left << 22) & 0x04000000)
    | ((left >> 2) & 0x02000000)
    | ((left << 1) & 0x01000000)
    | ((left << 16) & 0x00200000)
    | ((left << 11) & 0x00100000)
    | ((left << 3) & 0x00080000)
    | ((left >> 6) & 0x00040000)
    | ((left << 15) & 0x00020000)
    | ((left >> 4) & 0x00010000)
    | ((right >> 2) & 0x00002000)
    | ((right << 8) & 0x00001000)
    | ((right >> 14) & 0x00000808)
    | ((right >> 9) & 0x00000400)
    | (right & 0x00000200)
    | ((right << 7) & 0x00000100)
    | ((right >> 7) & 0x00000020)
    | ((right >> 3) & 0x00000011)
    | ((right << 2) & 0x00000004)
    | ((right >> 21) & 0x00000002)
  }

  function SubkeyWord(key: Bytes8, i: nat): bv32
    requires i < 32
  {
    var h := RoundKeyHalves(key, i / 2);
    if i % 2 == 0 then EvenSubkey(h) else OddSubkey(h)
  }

  /** The 32 words des_key_schedule stores: an even and an odd one for each round. */
  function Schedule(key: Bytes8): Subkeys {
    seq(32, i requires 0 <= i < 32 => SubkeyWord(key, i))
  }

  /** The order in which gl_des_setkey stores the same words for decryption. */
  function Reordered(keys: Subkeys): Subkeys {
    seq(32, i requires 0 <= i < 32 => if i % 2 == 0 then keys[30 - i] else keys[32 - i])
  }

  function Encrypt(sb: SBoxes, key: Bytes8, block: Bytes8): Bytes8 {
    Crypt(sb, Schedule(key), block)
  }

  function Decrypt(sb: SBoxes, key: Bytes8, block: Bytes8): Bytes8 {
    Crypt(sb, Reordered(Schedule(key)), block)
  }

  // ---------- the context that holds the subkeys ----------

  class Context {
    const sb: SBoxes
    var encryptSubkeys: array<bv32>
    var decryptSubkeys: array<bv32>

    ghost predicate Valid()
      reads this
    {
      encryptSubkeys.Length == 32 && decryptSubkeys.Length == 32 && encryptSubkeys != decryptSubkeys
    }

    /** The context is loaded with the subkeys of key. */
    ghost predicate Keyed(key: Bytes8)
      reads this, encryptSubkeys, decryptSubkeys
    {
      Valid() && encryptSubkeys[..] == Schedule(key) && decryptSubkeys[..] == Reordered(Schedule(key))
    }

    constructor (sb: SBoxes)
      ensures Valid() && this.sb == sb && fresh(encryptSubkeys) && fresh(decryptSubkeys)
    {
      this.sb := sb;
      encryptSubkeys := new bv32[32];
      decryptSubkeys := new bv32[32];
    }

    method SetKey(key: Bytes8)
      requires Valid()
      modifies encryptSubkeys, decryptSubkeys
      ensures Keyed(key)
    {
      hide Schedule;
      KeySchedule(key, encryptSubkeys);
      var i := 0;
      while i < 32
        invariant 0 <= i <= 32 && i % 2 == 0
        invariant encryptSubkeys[..] == Schedule(key)
        invariant forall j :: 0 <= j < i ==> decryptSubkeys[j] == Reordered(Schedule(key))[j]
      {
        decryptSubkeys[i] := encryptSubkeys[30 - i];
        decryptSubkeys[i + 1] := encryptSubkeys[31 - i];
        i := i + 2;
      }
    }

    /** gl_des_ecb_crypt: from is the 8-byte input, the result is written to `to` at the given offset. */
    method EcbCrypt(from: Bytes8, to: array<bv8>, offset: nat, decrypt: bool, ghost key: Bytes8)
      requires Keyed(key)
      requires offset + 8 <= to.Length
      modifies to
      ensures to[offset..offset + 8] == if decrypt then Decrypt(sb, key, from) else Encrypt(sb, key, from)
      ensures forall i :: 0 <= i < to.Length && !(offset <= i < offset + 8) ==> to[i] == old(to[i])
    {
      hide Crypt, Schedule, Reordered;
      var out := CryptBlock(sb, if decrypt then decryptSubkeys[..] else encryptSubkeys[..], from);
      for i := 0 to 8
        invariant to[offset..offset + i] == out[..i]
        invariant forall j :: 0 <= j < to.Length && !(offset <= j < offset + i) ==> to[j] == old(to[j])
      {
        to[offset + i] := out[i];
      }
    }
  }

  /** The body of gl_des_ecb_crypt: two DES_ROUNDs to a line. */
  method CryptBlock(sb: SBoxes, keys: Subkeys, from: Bytes8) returns (out: Bytes8)
    ensures out == Crypt(sb, keys, from)
  {
    hide DesRound, InitialPermutation, FinalPermutation, Read64, Write64;
    ghost var start, n: nat := InitialPermutation(Read64(from)), 0;
    var Halves(left, right) := InitialPermutation(Read64(from));
    left := DesRound(sb, right, left, keys[0], keys[1]); right := DesRound(sb, left, right, keys[2], keys[3]);
    n := n + 1; assert Halves(left, right) == Rounds(sb, keys, n, start);
    left := DesRound(sb, right, left, keys[4], keys[5]); right := DesRound(sb, left, right, keys[6], keys[7]);
    n := n + 1; assert Halves(left, right) == Rounds(sb, keys, n, start);
    left := DesRound(sb, right, left, keys[8], keys[9]); right := DesRound(sb, left, right, keys[10], keys[11]);
    n := n + 1; assert Halves(left, right) == Rounds(sb, keys, n, start);
    left := DesRound(sb, right, left, keys[12], keys[13]); right := DesRound(sb, left, right, keys[14], keys[15]);
    n := n + 1; assert Halves(left, right) == Rounds(sb, keys, n, start);
    left := DesRound(sb, right, left, keys[16], keys[17]); right := DesRound(sb, left, right, keys[18], keys[19]);
    n := n + 1; assert Halves(left, right) == Rounds(sb, keys, n, start);
    left := DesRound(sb, right, left, keys[20], keys[21]); right := DesRound(sb, left, right, keys[22], keys[23]);
    n := n + 1; assert Halves(left, right) == Rounds(sb, keys, n, start);
    left := DesRound(sb, right, left, keys[24], keys[25]); right := DesRound(sb, left, right, keys[26], keys[27]);
    n := n + 1; assert Halves(left, right) == Rounds(sb, keys, n, start);
    left := DesRound(sb, right, left, keys[28], keys[29]); right := DesRound(sb, left, right, keys[30], keys[31]);
    n := n + 1; assert Halves(left, right) == Rounds(sb, keys, n, start);
    out := Write64(FinalPermutation(Halves(right, left)));
  }

  /** des_key_schedule: fill the 32 words round by round. */
  method KeySchedule(rawkey: Bytes8, subkey: array<bv32>)
    requires subkey.Length == 32
    modifies subkey
    ensures subkey[..] == Schedule(rawkey)
  {
    hide EvenSubkey, OddSubkey, Rotate28, KeyHalves, RotateAmount;
    var Halves(left, right) := KeyHalves(rawkey);
    for round := 0 to 16
      invariant Halves(left, right) == if round == 0 then KeyHalves(rawkey) else RoundKeyHalves(rawkey, round - 1)
      invariant forall j :: 0 <= j < 2 * round ==> subkey[j] == SubkeyWord(rawkey, j)
    {
      left := Rotate28(left, RotateAmount(round));
      right := Rotate28(right, RotateAmount(round));
      subkey[2 * round] := EvenSubkey(Halves(left, right));
      subkey[2 * round + 1] := OddSubkey(Halves(left, right));
    }
  }
}
