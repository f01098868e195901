/** The U16LE and U32LE accesses of ntlm.c: numbers stored low byte first. */
module ByteOrder {
  type Bytes = seq<bv8>

  /** The bytes s stand in c from a position on. */
  predicate StandsAt(c: Bytes, pos: nat, s: Bytes) {
    pos + |s| <= |c| && c[pos..pos + |s|] == s
  }

  lemma StandsInside(c: Bytes, pos: nat, s: Bytes)
    requires StandsAt(c, pos, s)
    ensures pos + |s| <= |c|
  {
  }

  lemma BothStand(c: Bytes, pos: nat, s: Bytes, t: Bytes)
    ensures StandsAt(c, pos, s + t) <==> StandsAt(c, pos, s) && StandsAt(c, pos + |s|, t)
  {
    if pos + |s| + |t| <= |c| {
      var all := c[pos..pos + |s| + |t|];
      assert all[..|s|] == c[pos..pos + |s|] && all[|s|..] == c[pos + |s|..pos + |s| + |t|];
      assert all == all[..|s|] + all[|s|..];
      assert (s + t)[..|s|] == s && (s + t)[|s|..] == t;
    }
  }

  lemma StandsBetween(before: Bytes, s: Bytes, after: Bytes)
    ensures StandsAt(before + s + after, |before|, s)
  {
  }

  function Byte(n: nat): bv8
    requires n < 0x100
  {
    n as bv8
  }

  function Number(b: bv8): (n: nat)
    ensures n < 0x100
  {
    b as nat
  }

  lemma NextNumber(b: bv8)
    requires b != 255
    ensures Number(b + 1) == Number(b) + 1
  {
  }

  /** Every number below 256 is the number of a byte. */
  lemma SomeByte(n: nat) returns (b: bv8)
    requires n < 0x100
    ensures Number(b) == n
  {
    if n == 0 {
      b := 0;
    } else {
      b := SomeByte(n - 1);
      NextNumber(b);
      b := b + 1;
    }
  }

  lemma ByteNumber(n: nat)
    requires n < 0x100
    ensures Number(Byte(n)) == n
  {
    var b := SomeByte(n);
    NumberByte(b);
  }

  lemma NumberByte(b: bv8)
    ensures Byte(Number(b)) == b
  {
  }

  function Put16(n: nat): (s: Bytes)
    requires n < 0x1_0000
    ensures |s| == 2
  {
    [Byte(n % 0x100), Byte(n / 0x100)]
  }

  function Put32(n: nat): (s: Bytes)
    requires n < 0x1_0000_0000
    ensures |s| == 4
  {
    Put16(n % 0x1_0000) + Put16(n / 0x1_0000)
  }

  function Get16(s: Bytes, at: nat): (n: nat)
    requires at + 2 <= |s|
    ensures n < 0x1_0000
  {
    Number(s[at]) + 0x100 * Number(s[at + 1])
  }

  function Get32(s: Bytes, at: nat): (n: nat)
    requires at + 4 <= |s|
    ensures n < 0x1_0000_0000
  {
    Get16(s, at) + 0x1_0000 * Get16(s, at + 2)
  }

  /** The low byte stands first. */
  lemma LowByteFirst(n: nat)
    requires n < 0x1_0000
    ensures Number(Put16(n)[0]) == n % 0x100 && Number(Put16(n)[1]) == n / 0x100
  {
    hide Byte, Number;
    ByteNumber(n % 0x100);
    ByteNumber(n / 0x100);
  }

  lemma LowBytesFirst(n: nat)
    requires n < 0x1_0000_0000
    ensures Number(Put32(n)[0]) == n % 0x100 && Number(Put32(n)[1]) == n / 0x100 % 0x100
    ensures Number(Put32(n)[2]) == n / 0x1_0000 % 0x100 && Number(Put32(n)[3]) == n / 0x100_0000
  {
    hide Byte, Number, Put16;
    LowByteFirst(n % 0x1_0000);
    LowByteFirst(n / 0x1_0000);
    Quarters(n);
  }

  lemma Quarters(n: nat)
    ensures n % 0x1_0000 % 0x100 == n % 0x100 && n % 0x1_0000 / 0x100 == n / 0x100 % 0x100
    ensures n / 0x1_0000 / 0x100 == n / 0x100_0000
  {
  }

  /** What was stored is read back. */
  lemma GetPut16(s: Bytes, at: nat, n: nat)
    requires n < 0x1_0000 && StandsAt(s, at, Put16(n))
    ensures Get16(s, at) == n
  {
    hide Byte, Number;
    assert s[at] == s[at..at + 2][0] && s[at + 1] == s[at..at + 2][1];
    ByteNumber(n % 0x100);
    ByteNumber(n / 0x100);
  }

  lemma GetPut32(s: Bytes, at: nat, n: nat)
    requires n < 0x1_0000_0000 && StandsAt(s, at, Put32(n))
    ensures Get32(s, at) == n
  {
    hide Put16, Get16, StandsAt;
    assert at + 4 <= |s| by {
      StandsInside(s, at, Put32(n));
    }
    BothStand(s, at, Put16(n % 0x1_0000), Put16(n / 0x1_0000));
    GetPut16(s, at, n % 0x1_0000);
    GetPut16(s, at + 2, n / 0x1_0000);
  }

  /** Two bytes are the stored form of the number read from them. */
  lemma PutGet16(s: Bytes, at: nat)
    requires at + 2 <= |s|
    ensures StandsAt(s, at, Put16(Get16(s, at)))
  {
    hide Byte, Number;
    NumberByte(s[at]);
    NumberByte(s[at + 1]);
    Digits(Number(s[at]), Number(s[at + 1]));
  }

  lemma Digits(low: nat, high: nat)
    requires low < 0x100
    ensures (low + 0x100 * high) % 0x100 == low && (low + 0x100 * high) / 0x100 == high
  {
  }
}
