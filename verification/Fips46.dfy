/**
 The Data Encryption Standard as FIPS 46-3 writes it: bit strings numbered from 1 at
 the most significant end, selection tables, eight 4-by-16 substitution tables, and
 the recurrence L(n) = R(n-1), R(n) = L(n-1) xor f(R(n-1), K(n)).
 */
module Fips46 {

  /** Bit number n of the width-bit string x, as 0 or 1. */
  function Bit(x: bv64, width: bv8, n: bv8): bv64
    requires 1 <= n <= width <= 64
  {
    (x >> (width - n)) & 1
  }

  function Octet(x: bv64, width: bv8, n1: bv8, n2: bv8, n3: bv8, n4: bv8, n5: bv8, n6: bv8, n7: bv8, n8: bv8): bv64
    requires 1 <= n1 <= width && 1 <= n2 <= width && 1 <= n3 <= width && 1 <= n4 <= width
    requires 1 <= n5 <= width && 1 <= n6 <= width && 1 <= n7 <= width && 1 <= n8 <= width <= 64
  {
    (Bit(x, width, n1) << 7) | (Bit(x, width, n2) << 6) | (Bit(x, width, n3) << 5) | (Bit(x, width, n4) << 4)
    | (Bit(x, width, n5) << 3) | (Bit(x, width, n6) << 2) | (Bit(x, width, n7) << 1) | Bit(x, width, n8)
  }

  function Septet(x: bv64, n1: bv8, n2: bv8, n3: bv8, n4: bv8, n5: bv8, n6: bv8, n7: bv8): bv32
    requires 1 <= n1 <= 64 && 1 <= n2 <= 64 && 1 <= n3 <= 64 && 1 <= n4 <= 64
    requires 1 <= n5 <= 64 && 1 <= n6 <= 64 && 1 <= n7 <= 64
  {
    ((Bit(x, 64, n1) << 6) | (Bit(x, 64, n2) << 5) | (Bit(x, 64, n3) << 4) | (Bit(x, 64, n4) << 3)
     | (Bit(x, 64, n5) << 2) | (Bit(x, 64, n6) << 1) | Bit(x, 64, n7)) as bv32
  }

  function Sextet(x: bv64, width: bv8, n1: bv8, n2: bv8, n3: bv8, n4: bv8, n5: bv8, n6: bv8): bv6
    requires 1 <= n1 <= width && 1 <= n2 <= width && 1 <= n3 <= width
    requires 1 <= n4 <= width && 1 <= n5 <= width && 1 <= n6 <= width <= 64
  {
    ((Bit(x, width, n1) << 5) | (Bit(x, width, n2) << 4) | (Bit(x, width, n3) << 3)
     | (Bit(x, width, n4) << 2) | (Bit(x, width, n5) << 1) | Bit(x, width, n6)) as bv6
  }

  // ---------- the permutations of a block ----------

  function IP(x: bv64): bv64 {
    (Octet(x, 64, 58, 50, 42, 34, 26, 18, 10, 2) << 56)
    | (Octet(x, 64, 60, 52, 44, 36, 28, 20, 12, 4) << 48)
    | (Octet(x, 64, 62, 54, 46, 38, 30, 22, 14, 6) << 40)
    | (Octet(x, 64, 64, 56, 48, 40, 32, 24, 16, 8) << 32)
    | (Octet(x, 64, 57, 49, 41, 33, 25, 17, 9, 1) << 24)
    | (Octet(x, 64, 59, 51, 43, 35, 27, 19, 11, 3) << 16)
    | (Octet(x, 64, 61, 53, 45, 37, 29, 21, 13, 5) << 8)
    | (Octet(x, 64, 63, 55, 47, 39, 31, 23, 15, 7) << 0)
  }

  function InverseIP(x: bv64): bv64 {
    (Octet(x, 64, 40, 8, 48, 16, 56, 24, 64, 32) << 56)
    | (Octet(x, 64, 39, 7, 47, 15, 55, 23, 63, 31) << 48)
    | (Octet(x, 64, 38, 6, 46, 14, 54, 22, 62, 30) << 40)
    | (Octet(x, 64, 37, 5, 45, 13, 53, 21, 61, 29) << 32)
    | (Octet(x, 64, 36, 4, 44, 12, 52, 20, 60, 28) << 24)
    | (Octet(x, 64, 35, 3, 43, 11, 51, 19, 59, 27) << 16)
    | (Octet(x, 64, 34, 2, 42, 10, 50, 18, 58, 26) << 8)
    | (Octet(x, 64, 33, 1, 41, 9, 49, 17, 57, 25) << 0)
  }

  // ---------- the function f ----------

  /** Eight groups of six bits: a round key, or the expansion E of a half block. */
  datatype Groups = Groups(g1: bv6, g2: bv6, g3: bv6, g4: bv6, g5: bv6, g6: bv6, g7: bv6, g8: bv6)

  function E(r: bv32): Groups {
    var x := r as bv64;
    Groups(Sextet(x, 32, 32, 1, 2, 3, 4, 5),
           Sextet(x, 32, 4, 5, 6, 7, 8, 9),
           Sextet(x, 32, 8, 9, 10, 11, 12, 13),
           Sextet(x, 32, 12, 13, 14, 15, 16, 17),
           Sextet(x, 32, 16, 17, 18, 19, 20, 21),
           Sextet(x, 32, 20, 21, 22, 23, 24, 25),
           Sextet(x, 32, 24, 25, 26, 27, 28, 29),
           Sextet(x, 32, 28, 29, 30, 31, 32, 1))
  }

  /**
   The entry of a substitution table selected by a group b1..b6: row b1 b6, column b2..b5. A row holds 16 four-bit
   entries.
   */
  function Select(i: bv6, row0: bv64, row1: bv64, row2: bv64, row3: bv64): bv4 {
    var row := if i & 0x20 == 0 then (if i & 1 == 0 then row0 else row1) else (if i & 1 == 0 then row2 else row3);
    ((row >> (60 - 4 * (((i >> 1) & 0xf) as bv8))) & 0xf) as bv4
  }

  function S1(i: bv6): bv4 { Select(i, 0xE4D12FB83A6C5907, 0x0F74E2D1A6CB9538, 0x41E8D62BFC973A50, 0xFC8249175B3EA06D) }

  function S2(i: bv6): bv4 { Select(i, 0xF18E6B34972DC05A, 0x3D47F28EC01A69B5, 0x0E7BA4D158C6932F, 0xD8A13F42B67C05E9) }

  function S3(i: bv6): bv4 { Select(i, 0xA09E63F51DC7B428, 0xD709346A285ECBF1, 0xD6498F30B12C5AE7, 0x1AD069874FE3B52C) }

  function S4(i: bv6): bv4 { Select(i, 0x7DE3069A1285BC4F, 0xD8B56F03472C1AE9, 0xA690CB7DF13E5284, 0x3F06A1D8945BC72E) }

  function S5(i: bv6): bv4 { Select(i, 0x2C417AB6853FD0E9, 0xEB2C47D150FA3986, 0x421BAD78F9C5630E, 0xB8C71E2D6F09A453) }

  function S6(i: bv6): bv4 { Select(i, 0xC1AF92680D34E75B, 0xAF427C9561DE0B38, 0x9EF528C3704A1DB6, 0x432C95FABE17608D) }

  function S7(i: bv6): bv4 { Select(i, 0x4B2EF08D3C975A61, 0xD0B7491AE35C2F86, 0x14BDC37EAF680592, 0x6BD814A7950FE23C) }

  function S8(i: bv6): bv4 { Select(i, 0xD2846FB1A93E50C7, 0x1FD8A374C56B0E92, 0x7B419CE206ADF358, 0x21E74A8DFC90356B) }

  function P(r: bv32): bv32 {
    var x := r as bv64;
    (
      (Octet(x, 32, 16, 7, 20, 21, 29, 12, 28, 17) << 24)
      | (Octet(x, 32, 1, 15, 23, 26, 5, 18, 31, 10) << 16)
      | (Octet(x, 32, 2, 8, 24, 14, 32, 27, 3, 9) << 8)
      | (Octet(x, 32, 19, 13, 30, 6, 22, 11, 4, 25) << 0)
    ) as bv32
  }

  function Joined(v1: bv4, v2: bv4, v3: bv4, v4: bv4, v5: bv4, v6: bv4, v7: bv4, v8: bv4): bv32 {
    ((v1 as bv32) << 28) | ((v2 as bv32) << 24) | ((v3 as bv32) << 20) | ((v4 as bv32) << 16)
    | ((v5 as bv32) << 12) | ((v6 as bv32) << 8) | ((v7 as bv32) << 4) | (v8 as bv32)
  }

  function Xor(e: Groups, k: Groups): Groups {
    Groups(e.g1 ^ k.g1, e.g2 ^ k.g2, e.g3 ^ k.g3, e.g4 ^ k.g4, e.g5 ^ k.g5, e.g6 ^ k.g6, e.g7 ^ k.g7, e.g8 ^ k.g8)
  }

  function Substitute(b: Groups): bv32 {
    Joined(S1(b.g1), S2(b.g2), S3(b.g3), S4(b.g4), S5(b.g5), S6(b.g6), S7(b.g7), S8(b.g8))
  }

  function F(r: bv32, k: Groups): bv32 {
    P(Substitute(Xor(E(r), k)))
  }

  // ---------- the key schedule ----------

  /** Permuted choice 1: the 28-bit strings C(0) and D(0). */
  function C0(key: bv64): bv32 {
    (Septet(key, 57, 49, 41, 33, 25, 17, 9) << 21)
    | (Septet(key, 1, 58, 50, 42, 34, 26, 18) << 14)
    | (Septet(key, 10, 2, 59, 51, 43, 35, 27) << 7)
    | (Septet(key, 19, 11, 3, 60, 52, 44, 36) << 0)
  }

  function D0(key: bv64): bv32 {
    (Septet(key, 63, 55, 47, 39, 31, 23, 15) << 21)
    | (Septet(key, 7, 62, 54, 46, 38, 30, 22) << 14)
    | (Septet(key, 14, 6, 61, 53, 45, 37, 29) << 7)
    | (Septet(key, 21, 13, 5, 28, 20, 12, 4) << 0)
  }

  /** Permuted choice 2 of the 56 bits of C followed by D. */
  function PC2(c: bv32, d: bv32): Groups {
    var x := ((c as bv64) << 28) | (d as bv64);
    Groups(Sextet(x, 56, 14, 17, 11, 24, 1, 5),
           Sextet(x, 56, 3, 28, 15, 6, 21, 10),
           Sextet(x, 56, 23, 19, 12, 4, 26, 8),
           Sextet(x, 56, 16, 7, 27, 20, 13, 2),
           Sextet(x, 56, 41, 52, 31, 37, 47, 55),
           Sextet(x, 56, 30, 40, 51, 45, 33, 48),
           Sextet(x, 56, 44, 49, 39, 56, 34, 53),
           Sextet(x, 56, 46, 42, 50, 36, 29, 32))
  }

  function LeftShift(x: bv32): bv32 {
    ((x << 1) | (x >> 27)) & 0x0fffffff
  }

  predicate SingleShift(n: nat) {
    n == 1 || n == 2 || n == 9 || n == 16
  }

  /** C(n) or D(n) from C(0) or D(0). */
  function Shifted(x: bv32, n: nat): bv32
    requires n <= 16
  {
    if n == 0 then x
    else if SingleShift(n) then LeftShift(Shifted(x, n - 1))
    else LeftShift(LeftShift(Shifted(x, n - 1)))
  }

  /** K(n), 1 <= n <= 16. */
  function RoundKey(key: bv64, n: nat): Groups
    requires 1 <= n <= 16
  {
    PC2(Shifted(C0(key), n), Shifted(D0(key), n))
  }

  // ---------- the cipher ----------

  datatype LR = LR(l: bv32, r: bv32)

  function Step(p: LR, k: Groups): LR {
    LR(p.r, p.l ^ F(p.r, k))
  }

  /** L(n) and R(n), where round i uses key keys(i). */
  function Feistel(keys: nat -> Groups, n: nat, start: LR): LR {
    if n == 0 then start else Step(Feistel(keys, n - 1, start), keys(n))
  }

  function LeftHalf(x: bv64): bv32 { (x >> 32) as bv32 }

  function RightHalf(x: bv64): bv32 { (x & 0xffff_ffff) as bv32 }

  function Concat(l: bv32, r: bv32): bv64 { ((l as bv64) << 32) | (r as bv64) }

  function Cipher(keys: nat -> Groups, block: bv64): bv64 {
    var x := IP(block);
    var end := Feistel(keys, 16, LR(LeftHalf(x), RightHalf(x)));
    InverseIP(Concat(end.r, end.l))
  }

  function EncipherKeys(key: bv64): nat -> Groups {
    n => if 1 <= n <= 16 then RoundKey(key, n) else Groups(0, 0, 0, 0, 0, 0, 0, 0)
  }

  /** Deciphering uses the same keys in the opposite order. */
  function DecipherKeys(key: bv64): nat -> Groups {
    n => if 1 <= n <= 16 then RoundKey(key, 17 - n) else Groups(0, 0, 0, 0, 0, 0, 0, 0)
  }
}
