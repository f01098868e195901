/**
 How cntlm-0.92.3/ntlm.c feeds 7-byte slices of a password hash to DES, and the 24-byte
 response it makes of a challenge.
 */
module NtlmKey {
  import opened Des
  import opened DesProperties

  type Slice = s: seq<bv8> | |s| == 7 witness [0, 0, 0, 0, 0, 0, 0]

  /**
   The low bits of one byte of the slice, followed by the high bits of the next, as they go into key byte number i.
   */
  function Overlap(a: bv8, b: bv8, i: bv4): bv8
    requires 1 <= i <= 7
  {
    ((a << (8 - i)) & 0xff) | (b >> i)
  }

  /** ntlm_set_key: the 56 bits of the slice, with room for a parity bit after every seven. */
  function SpreadKey(src: Slice): Bytes8 {
    [src[0], Overlap(src[0], src[1], 1), Overlap(src[1], src[2], 2), Overlap(src[2], src[3], 3),
     Overlap(src[3], src[4], 4), Overlap(src[4], src[5], 5), Overlap(src[5], src[6], 6), Overlap(src[6], 0, 7)]
  }

  /** Byte number i of the 56 key bits that are not parity bits, out of two neighbouring key bytes. */
  function Joint(a: bv8, b: bv8, i: bv4): bv8
    requires i <= 6
  {
    ((a & 0xfe) << i) | (b >> (7 - i))
  }

  /** The 56 bits of a key that are not parity bits. */
  function KeyBits(key: Bytes8): Slice {
    [Joint(key[0], key[1], 0), Joint(key[1], key[2], 1), Joint(key[2], key[3], 2), Joint(key[3], key[4], 3),
     Joint(key[4], key[5], 4), Joint(key[5], key[6], 5), Joint(key[6], key[7], 6)]
  }

  lemma Joint0(b: bv8, c: bv8) ensures Joint(b, Overlap(b, c, 1), 0) == b {}
  lemma Joint1(a: bv8, b: bv8, c: bv8) ensures Joint(Overlap(a, b, 1), Overlap(b, c, 2), 1) == b {}
  lemma Joint2(a: bv8, b: bv8, c: bv8) ensures Joint(Overlap(a, b, 2), Overlap(b, c, 3), 2) == b {}
  lemma Joint3(a: bv8, b: bv8, c: bv8) ensures Joint(Overlap(a, b, 3), Overlap(b, c, 4), 3) == b {}
  lemma Joint4(a: bv8, b: bv8, c: bv8) ensures Joint(Overlap(a, b, 4), Overlap(b, c, 5), 4) == b {}
  lemma Joint5(a: bv8, b: bv8, c: bv8) ensures Joint(Overlap(a, b, 5), Overlap(b, c, 6), 5) == b {}
  lemma Joint6(a: bv8, b: bv8, c: bv8) ensures Joint(Overlap(a, b, 6), Overlap(b, c, 7), 6) == b {}

  /** Nothing of the slice is lost: the key's 56 bits are the slice. */
  lemma SpreadLosesNothing(src: Slice)
    ensures KeyBits(SpreadKey(src)) == src
  {
    hide Joint, Overlap;
    Joint0(src[0], src[1]);
    Joint1(src[0], src[1], src[2]);
    Joint2(src[1], src[2], src[3]);
    Joint3(src[2], src[3], src[4]);
    Joint4(src[3], src[4], src[5]);
    Joint5(src[4], src[5], src[6]);
    Joint6(src[5], src[6], 0);
  }

  predicate SameUpper7(a: bv8, a': bv8) {
    a & 0xfe == a' & 0xfe
  }

  predicate SameTop(a: bv8, a': bv8, n: bv4)
    requires n <= 7
  {
    a >> (8 - n) == a' >> (8 - n)
  }

  /** The upper seven bits of the first key byte, and then of each next one, can be read off the joints. */
  lemma JointDetermines(a: bv8, b: bv8, a': bv8, b': bv8, i: bv4)
    requires i <= 6 && SameTop(a, a', i) && Joint(a, b, i) == Joint(a', b', i)
    ensures SameUpper7(a, a') && SameTop(b, b', i + 1)
  {
  }

  lemma TopEnds(a: bv8, a': bv8)
    ensures SameTop(a, a', 0)
    ensures SameTop(a, a', 7) ==> SameUpper7(a, a')
  {
  }

  ghost predicate SameUpper(key: Bytes8, key': Bytes8) {
    forall i {:trigger key[i]} :: 0 <= i < 8 ==> SameUpper7(key[i], key'[i])
  }

  lemma SameUpperBits(key: Bytes8, key': Bytes8)
    requires KeyBits(key) == KeyBits(key')
    ensures SameUpper(key, key')
  {
    hide Joint, SameUpper7, SameTop;
    var k, k' := KeyBits(key), KeyBits(key');
    assert k[0] == k'[0] && k[1] == k'[1] && k[2] == k'[2] && k[3] == k'[3] && k[4] == k'[4] && k[5] == k'[5]
           && k[6] == k'[6];
    TopEnds(key[0], key'[0]);
    JointDetermines(key[0], key[1], key'[0], key'[1], 0);
    JointDetermines(key[1], key[2], key'[1], key'[2], 1);
    JointDetermines(key[2], key[3], key'[2], key'[3], 2);
    JointDetermines(key[3], key[4], key'[3], key'[4], 3);
    JointDetermines(key[4], key[5], key'[4], key'[5], 4);
    JointDetermines(key[5], key[6], key'[5], key'[6], 5);
    JointDetermines(key[6], key[7], key'[6], key'[7], 6);
    TopEnds(key[7], key'[7]);
  }

  lemma UpperBitsOfWord(b0: bv8, b1: bv8, b2: bv8, b3: bv8)
    ensures UpperBits(Word(b0, b1, b2, b3)) == Word(b0 & 0xfe, b1 & 0xfe, b2 & 0xfe, b3 & 0xfe)
  {
  }

  lemma WordOfUpperBits(b0: bv8, b1: bv8, b2: bv8, b3: bv8, b0': bv8, b1': bv8, b2': bv8, b3': bv8)
    requires SameUpper7(b0, b0') && SameUpper7(b1, b1') && SameUpper7(b2, b2') && SameUpper7(b3, b3')
    ensures UpperBits(Word(b0, b1, b2, b3)) == UpperBits(Word(b0', b1', b2', b3'))
  {
    hide Word, UpperBits;
    UpperBitsOfWord(b0, b1, b2, b3);
    UpperBitsOfWord(b0', b1', b2', b3');
  }

  lemma SameUpperUnparitied(key: Bytes8, key': Bytes8)
    requires SameUpper(key, key')
    ensures Unparitied(Read64(key)) == Unparitied(Read64(key'))
  {
    hide Word, SameUpper7, UpperBits;
    WordOfUpperBits(key[0], key[1], key[2], key[3], key'[0], key'[1], key'[2], key'[3]);
    WordOfUpperBits(key[4], key[5], key[6], key[7], key'[4], key'[5], key'[6], key'[7]);
  }

  /** Keys with the same 56 bits have the same subkeys, whatever stands in the parity bits. */
  lemma KeyBitsDecideSchedule(key: Bytes8, key': Bytes8)
    requires KeyBits(key) == KeyBits(key')
    ensures Schedule(key) == Schedule(key')
  {
    hide KeyBits, Unparitied, Read64, Schedule, SameUpper;
    SameUpperBits(key, key');
    SameUpperUnparitied(key, key');
    ParityIgnored(key, key');
  }

  // ---------- the response ----------

  /** The challenge enciphered under each third of the 21-byte hash. */
  function CalcResp(sb: SBoxes, keys: seq<bv8>, challenge: Bytes8): (response: seq<bv8>)
    requires |keys| >= 21
    ensures |response| == 24
  {
    Encrypt(sb, SpreadKey(Third(keys, 0)), challenge)
    + Encrypt(sb, SpreadKey(Third(keys, 1)), challenge)
    + Encrypt(sb, SpreadKey(Third(keys, 2)), challenge)
  }

  function Third(keys: seq<bv8>, third: nat): Slice
    requires |keys| >= 21 && third < 3
  {
    keys[7 * third..7 * third + 7]
  }

  /** ntlm_calc_resp: one context, keyed three times over. */
  method NtlmCalcResp(sb: SBoxes, keys: seq<bv8>, challenge: Bytes8) returns (dst: array<bv8>)
    requires |keys| >= 21
    ensures fresh(dst) && dst.Length == 25
    ensures dst[..24] == CalcResp(sb, keys, challenge) && dst[24] == 0
  {
    hide Encrypt, SpreadKey, Decrypt;
    dst := new bv8[25](_ => 0);
    var context := new Context(sb);
    NtlmSetKey(Third(keys, 0), context);
    context.EcbCrypt(challenge, dst, 0, false, SpreadKey(Third(keys, 0)));
    ghost var first := dst[0..8];
    NtlmSetKey(Third(keys, 1), context);
    context.EcbCrypt(challenge, dst, 8, false, SpreadKey(Third(keys, 1)));
    assert dst[0..8] == first;
    ghost var second := dst[8..16];
    NtlmSetKey(Third(keys, 2), context);
    context.EcbCrypt(challenge, dst, 16, false, SpreadKey(Third(keys, 2)));
    assert dst[0..8] == first && dst[8..16] == second;
    assert dst[..24] == dst[0..8] + dst[8..16] + dst[16..24];
  }

  method NtlmSetKey(src: Slice, context: Context)
    requires context.Valid()
    modifies context.encryptSubkeys, context.decryptSubkeys
    ensures context.Keyed(SpreadKey(src))
  {
    context.SetKey(SpreadKey(src));
  }

  /**
   Whoever holds one third of the hash can check one third of the response: under any
   8-byte key with those 56 bits, whatever its parity bits, that slice deciphers to the challenge.
   */
  lemma ResponseDecrypts(sb: SBoxes, keys: seq<bv8>, challenge: Bytes8, third: nat, key: Bytes8)
    requires |keys| >= 21 && third < 3
    requires KeyBits(key) == Third(keys, third)
    ensures Decrypt(sb, key, CalcResp(sb, keys, challenge)[8 * third..8 * third + 8]) == challenge
  {
    hide Schedule, Reordered, Crypt, SpreadKey, KeyBits, Third;
    var slice := Third(keys, third);
    SpreadLosesNothing(slice);
    KeyBitsDecideSchedule(key, SpreadKey(slice));
    assert CalcResp(sb, keys, challenge)[8 * third..8 * third + 8] == Encrypt(sb, SpreadKey(slice), challenge);
    DecryptInvertsEncrypt(sb, SpreadKey(slice), challenge);
  }
}
