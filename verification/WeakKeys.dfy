/** gl_des_is_weak_key of cntlm-0.92.3/xcrypt.c: a binary search in the table of weak keys. */
module WeakKeys {
  import opened Des
  import opened DesProperties
  import DesTables

  /** Eight bytes as one big-endian number. */
  function Packed(h: Halves): bv64 {
    ((h.left as bv64) << 32) | (h.right as bv64)
  }

  /** memcmp finds the first eight bytes smaller: it orders them like the big-endian numbers. */
  predicate Less(a: bv64, b: bv64) {
    a < b
  }

  lemma LessIsOrder(a: bv64, b: bv64, c: bv64)
    ensures Less(a, b) && Less(b, c) ==> Less(a, c)
  {
  }

  lemma LessIsStrict(a: bv64)
    ensures !Less(a, a)
  {
  }

  function Index(n: nat): bv6
    requires n < 64
  {
    n as bv6
  }

  /** Row n of the table. */
  function Row(n: nat): bv64
    requires n < 64
  {
    DesTables.WeakKey(Index(n))
  }

  lemma NextRow(i: bv6)
    requires i != 63
    ensures Less(DesTables.WeakKey(i), DesTables.WeakKey(i + 1))
  {
  }

  lemma IndexStep(i: bv6)
    requires i != 63
    ensures (i + 1) as nat == i as nat + 1
  {
  }

  lemma IndexOfNumber(i: bv6)
    ensures i as nat < 64 && Index(i as nat) == i
  {
  }

  /** Every row number is the number of an index. */
  lemma SomeIndex(n: nat) returns (i: bv6)
    requires n < 64
    ensures i as nat == n
  {
    if n == 0 {
      i := 0;
    } else {
      i := SomeIndex(n - 1);
      IndexStep(i);
      i := i + 1;
    }
  }

  lemma NeighboursAscend(n: nat)
    requires n < 63
    ensures Less(Row(n), Row(n + 1))
  {
    hide DesTables.WeakKey, Less, Index;
    var i := SomeIndex(n);
    IndexStep(i);
    NextRow(i);
    IndexOfNumber(i);
    IndexOfNumber(i + 1);
  }

  lemma {:induction false} RowsAscend(m: nat, n: nat)
    requires m < n < 64
    ensures Less(Row(m), Row(n))
  {
    hide Row, Less;
    NeighboursAscend(n - 1);
    if m < n - 1 {
      RowsAscend(m, n - 1);
      LessIsOrder(Row(m), Row(n - 1), Row(n));
    }
  }

  /** The key with its parity bits cleared is a row of the table. */
  ghost predicate IsWeak(key: Bytes8) {
    exists i: bv6 :: IsTableKey(key, i)
  }

  function High(k: bv64): bv32 { (k >> 32) as bv32 }
  function Low(k: bv64): bv32 { (k & 0xffff_ffff) as bv32 }

  lemma PackedHalves(h: Halves)
    ensures High(Packed(h)) == h.left && Low(Packed(h)) == h.right
  {
    HalvesOfPair(h.left, h.right);
  }

  lemma HalvesOfPair(l: bv32, r: bv32)
    ensures High(((l as bv64) << 32) | (r as bv64)) == l && Low(((l as bv64) << 32) | (r as bv64)) == r
  {
  }

  lemma HalvesPacked(k: bv64)
    ensures Packed(Halves(High(k), Low(k))) == k
  {
  }

  lemma TableHalvesOf(i: bv6)
    ensures TableHalves(i) == Halves(High(DesTables.WeakKey(i)), Low(DesTables.WeakKey(i)))
  {
    hide DesTables.WeakKey;
  }

  lemma RowIsTableKey(key: Bytes8, i: bv6)
    ensures Packed(Unparitied(Read64(key))) == DesTables.WeakKey(i) <==> IsTableKey(key, i)
  {
    hide DesTables.WeakKey, Unparitied, Read64, Packed, High, Low, TableHalves;
    TableHalvesOf(i);
    PackedHalves(Unparitied(Read64(key)));
    HalvesPacked(DesTables.WeakKey(i));
  }

  /** gl_des_is_weak_key answers exactly whether the key is in the table, whatever its parity bits. */
  method IsWeakKey(key: Bytes8) returns (weak: bool)
    ensures weak <==> IsWeak(key)
  {
    hide *;
    var work := Packed(Unparitied(Read64(key)));
    var left, right := 0, 63;
    while left <= right
      invariant 0 <= left <= 64 && -1 <= right <= 63
      invariant forall n | 0 <= n < left :: Row(n) != work
      invariant forall n | right < n < 64 :: Row(n) != work
      decreases right - left
    {
      var middle := (left + right) / 2;
      if work == Row(middle) {
        RowFound(key, middle);
        return true;
      }
      LessIsStrict(work);
      if Less(Row(middle), work) {
        forall n | 0 <= n < middle ensures Row(n) != work {
          RowsAscend(n, middle);
          LessIsOrder(Row(n), Row(middle), work);
        }
        left := middle + 1;
      } else {
        forall n | middle < n < 64 ensures Row(n) != work {
          RowsAscend(middle, n);
        }
        right := middle - 1;
      }
    }
    NoRowFound(key);
    weak := false;
  }

  lemma RowFound(key: Bytes8, n: nat)
    requires n < 64 && Row(n) == Packed(Unparitied(Read64(key)))
    ensures IsWeak(key)
  {
    hide IsTableKey, DesTables.WeakKey, Packed, Unparitied, Read64, Index;
    RowIsTableKey(key, Index(n));
  }

  lemma NoRowFound(key: Bytes8)
    requires forall n | 0 <= n < 64 :: Row(n) != Packed(Unparitied(Read64(key)))
    ensures !IsWeak(key)
  {
    hide IsTableKey, DesTables.WeakKey, Packed, Unparitied, Read64, Index;
    forall i: bv6
      ensures !IsTableKey(key, i)
    {
      RowIsTableKey(key, i);
      IndexOfNumber(i);
      assert Row(i as nat) == DesTables.WeakKey(i);
    }
  }
}
