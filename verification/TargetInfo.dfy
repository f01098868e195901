/**
 The target-info scan of ntlm_response, cntlm-0.92.3/ntlm.c: a walk over the AV_PAIR records of
 section 2.2.2.1 of MS-NLMP with a 16-bit position and a 16-bit length.
 */
module TargetInfo {
  import opened ByteOrder

  /** One AV_PAIR; the identifier 0 marks the end of a list and belongs to no pair. */
  datatype AvPair = AvPair(id: nat, value: Bytes)

  predicate Storable(p: AvPair) {
    0 < p.id < 0x1_0000 && |p.value| < 0x1_0000
  }

  type Pair = p: AvPair | Storable(p) witness AvPair(1, [])

  /** The records one after the other: identifier, length of the value, value. */
  function Encoding(pairs: seq<Pair>): Bytes {
    if pairs == [] then []
    else Put16(pairs[0].id) + Put16(|pairs[0].value|) + pairs[0].value + Encoding(pairs[1..])
  }

  /** A whole record with a nonzero identifier stands at a position. */
  predicate PairAt(c: Bytes, pos: nat) {
    pos + 4 <= |c| && Get16(c, pos) != 0 && pos + 4 + Get16(c, pos + 2) <= |c|
  }

  /** The mark of the end stands at a position; its length field is not looked at. */
  predicate EndAt(c: Bytes, pos: nat) {
    pos + 4 <= |c| && Get16(c, pos) == 0
  }

  /** The whole records from a position on. */
  function PairsAt(c: Bytes, pos: nat): seq<Pair>
    decreases |c| - pos
  {
    if !PairAt(c, pos) then []
    else
      var n := Get16(c, pos + 2);
      [AvPair(Get16(c, pos), c[pos + 4..pos + 4 + n])] + PairsAt(c, pos + 4 + n)
  }

  /** The bytes taken over: all records, and the mark of the end if it follows at least one record. */
  function InfoLength(c: Bytes, pos: nat): nat {
    var n := |Encoding(PairsAt(c, pos))|;
    if n > 0 && EndAt(c, pos + n) then n + 4 else n
  }

  lemma OnePair(c: Bytes, pos: nat)
    requires PairAt(c, pos)
    ensures var next := pos + 4 + Get16(c, pos + 2);
            && |Encoding(PairsAt(c, pos))| == next - pos + |Encoding(PairsAt(c, next))|
            && next + |Encoding(PairsAt(c, next))| == pos + |Encoding(PairsAt(c, pos))|
  {
    hide Put16, Get16;
    var pairs := PairsAt(c, pos);
    var next := pos + 4 + Get16(c, pos + 2);
    assert pairs[1..] == PairsAt(c, next);
  }

  /**
   The scan of a challenge no longer than 65535 bytes. The position and the length are 16 bits wide; the
   loop ends, neither of them ever wraps, and tblen bytes from tbofs on are the whole records found there.
   */
  method Scan(challenge: Bytes) returns (tbofs: nat, tblen: nat)
    requires |challenge| <= 65535
    ensures |challenge| <= 48 ==> tbofs == tblen == 0
    ensures |challenge| > 48 ==> tbofs == Get16(challenge, 44) && tblen == InfoLength(challenge, tbofs)
  {
    hide Get16, Put16, Encoding;
    tbofs, tblen := 0, 0;
    var ttype := 0xffff;
    if |challenge| > 48 {
      var tpos := Get16(challenge, 44);
      tbofs := tpos;
      EncodingLength();
      while tpos + 4 <= |challenge|
        invariant tpos == tbofs + tblen < 0x1_0000
        invariant tpos + |Encoding(PairsAt(challenge, tpos))| == tbofs + |Encoding(PairsAt(challenge, tbofs))|
        invariant ttype != 0
        decreases |challenge| - tpos
      {
        ttype := Get16(challenge, tpos);
        if ttype == 0 { break; }
        var tlen := Get16(challenge, tpos + 2);
        if tpos + 4 + tlen > |challenge| { break; }
        OnePair(challenge, tpos);
        tpos := (tpos + 4 + tlen) % 0x1_0000;
        tblen := (tblen + 4 + tlen) % 0x1_0000;
      }
      assert !PairAt(challenge, tpos);
      if tblen > 0 && ttype == 0 {
        tblen := (tblen + 4) % 0x1_0000;
      }
    }
  }

  lemma EncodingLength()
    ensures Encoding([]) == []
  {
  }

  // ---------- what was found ----------

  /** The records found are exactly the bytes they were found in. */
  lemma {:induction false} FoundBytes(c: Bytes, pos: nat)
    ensures pos <= |c| ==> StandsAt(c, pos, Encoding(PairsAt(c, pos)))
    ensures pos > |c| ==> Encoding(PairsAt(c, pos)) == []
    ensures !PairAt(c, pos + |Encoding(PairsAt(c, pos))|)
    decreases |c| - pos
  {
    hide Put16, Get16;
    if PairAt(c, pos) {
      var n := Get16(c, pos + 2);
      var next := pos + 4 + n;
      FoundBytes(c, next);
      OnePair(c, pos);
      PutGet16(c, pos);
      PutGet16(c, pos + 2);
      var p, more := PairsAt(c, pos)[0], Encoding(PairsAt(c, next));
      assert PairsAt(c, pos)[1..] == PairsAt(c, next);
      BothStand(c, pos, Put16(p.id), Put16(n));
      BothStand(c, pos, Put16(p.id) + Put16(n), p.value);
      BothStand(c, pos, Put16(p.id) + Put16(n) + p.value, more);
    }
  }

  /**
   The slice that ntlm2_calc_resp copies lies inside the challenge, is a sequence of whole records with or
   without the mark of the end, and cannot be longer: no further record follows, and the mark is left
   behind only when it stands alone.
   */
  lemma SliceIsTargetInfo(c: Bytes, ofs: nat)
    requires InfoLength(c, ofs) > 0
    ensures ofs + InfoLength(c, ofs) <= |c|
    ensures var pairs := PairsAt(c, ofs);
            var n := |Encoding(pairs)|;
            && pairs != []
            && StandsAt(c, ofs, Encoding(pairs))
            && !PairAt(c, ofs + n)
            && (InfoLength(c, ofs) == n <==> !EndAt(c, ofs + n))
            && (InfoLength(c, ofs) != n ==> InfoLength(c, ofs) == n + 4 && Get16(c, ofs + n) == 0)
  {
    hide Put16, Get16;
    FoundBytes(c, ofs);
  }

  lemma ThreeStand(c: Bytes, pos: nat, s: Bytes, t: Bytes, u: Bytes)
    requires StandsAt(c, pos, s + t + u)
    ensures StandsAt(c, pos, s) && StandsAt(c, pos + |s|, t) && StandsAt(c, pos + |s| + |t|, u)
  {
    hide StandsAt;
    BothStand(c, pos, s + t, u);
    BothStand(c, pos, s, t);
  }

  lemma ValueStands(c: Bytes, pos: nat, s: Bytes)
    requires StandsAt(c, pos, s)
    ensures pos + |s| <= |c| && c[pos..pos + |s|] == s
  {
  }

  /** Records placed in front of anything that is not a record are the ones found. */
  lemma {:induction false} PlacedPairsAreFound(pairs: seq<Pair>, c: Bytes, pos: nat)
    requires StandsAt(c, pos, Encoding(pairs))
    requires !PairAt(c, pos + |Encoding(pairs)|)
    ensures PairsAt(c, pos) == pairs
    decreases |pairs|
  {
    hide Put16, Get16, StandsAt;
    if pairs != [] {
      var p, rest := pairs[0], Encoding(pairs[1..]);
      var next := pos + 4 + |p.value|;
      BothStand(c, pos, Put16(p.id) + Put16(|p.value|) + p.value, rest);
      ThreeStand(c, pos, Put16(p.id), Put16(|p.value|), p.value);
      ValueStands(c, pos + 4, p.value);
      GetPut16(c, pos, p.id);
      GetPut16(c, pos + 2, |p.value|);
      PlacedPairsAreFound(pairs[1..], c, next);
      assert pairs == [p] + pairs[1..];
    }
  }

  lemma ZerosStand(c: Bytes, at: nat)
    requires StandsAt(c, at, [0, 0, 0, 0])
    ensures EndAt(c, at)
  {
    assert c[at..at + 4][0] == c[at] && c[at..at + 4][1] == c[at + 1];
  }

  lemma EncodingIsLong(pairs: seq<Pair>)
    requires pairs != []
    ensures |Encoding(pairs)| >= 4
  {
  }

  const ZEROS: Bytes := [0, 0, 0, 0]

  /** A target info written as the standard says is taken over whole, wherever it stands. */
  lemma TargetInfoIsTaken(c: Bytes, pos: nat, pairs: seq<Pair>)
    requires pairs != [] && StandsAt(c, pos, Encoding(pairs) + ZEROS)
    ensures PairsAt(c, pos) == pairs && InfoLength(c, pos) == |Encoding(pairs)| + 4
  {
    hide Put16, Encoding, Get16, PairsAt, StandsAt;
    BothStand(c, pos, Encoding(pairs), ZEROS);
    ZerosStand(c, pos + |Encoding(pairs)|);
    EncodingIsLong(pairs);
    PlacedPairsAreFound(pairs, c, pos);
  }

  // ---------- longer challenges ----------

  /** The next position as a 16-bit number. */
  function NextPosition(c: Bytes, pos: nat): nat
    requires PairAt(c, pos)
  {
    (pos + 4 + Get16(c, pos + 2)) % 0x1_0000
  }

  /** The walk moves forward at every record of a challenge of this length. */
  ghost predicate AlwaysAdvances(len: nat) {
    forall c: Bytes, pos: nat | |c| == len && pos < 0x1_0000 && PairAt(c, pos) :: NextPosition(c, pos) > pos
  }

  /** Some challenge of this length sends the walk, at its very first record, back to that record. */
  ghost predicate SomeWalkLoops(len: nat)
    requires len > 48
  {
    exists c: Bytes | |c| == len :: PairAt(c, Get16(c, 44)) && NextPosition(c, Get16(c, 44)) == Get16(c, 44)
  }

  /** The only record of this challenge fills 65536 bytes, beginning at its start, and the offset field points there. */
  function Looping(len: nat): (c: Bytes)
    requires len > 65535
    ensures |c| == len
  {
    seq(len, i requires 0 <= i < len => if i == 0 then 1 else if i == 2 then 252 else if i == 3 then 255 else 0)
  }

  /**
   The walk is sure to advance at every record exactly up to 65535 bytes. From there on a scan may begin at a record
   that leads back to itself, and not end.
   */
  lemma AdvancesExactlyUpTo65535(len: nat)
    ensures AlwaysAdvances(len) <==> len <= 65535
    ensures len > 48 ==> (SomeWalkLoops(len) <==> len > 65535)
  {
    if len > 65535 {
      var c := Looping(len);
      assert Get16(c, 0) == 1 && Get16(c, 2) == 65532 && Get16(c, 44) == 0;
      assert PairAt(c, 0) && NextPosition(c, 0) == 0;
    }
  }
}
