/**
 Access rules: cntlm-0.92.3/acl.c with the byte swap of cntlm-0.92.3/swap.h.
 */
module Acl {
  import opened Plist

  /** acl_t: the verdicts, stored as list keys. */
  const ALLOW := 0
  const DENY := 1

  /** network_t: an address in network byte order and the length of its prefix. */
  datatype Network = Network(ip: bv32, mask: bv8)

  /** swap32 */
  function Swap32(x: bv32): bv32 {
    ((x & 0x000000ff) << 24) | ((x & 0x0000ff00) << 8) | ((x & 0x00ff0000) >> 8) | ((x & 0xff000000) >> 24)
  }

  /** ~(((uint64_t)1 << (32-mask)) - 1), converted to 32 bits. */
  function HighBits(mask: bv8): bv32
    requires mask <= 32
  {
    (!(((1 as bv64) << (32 - mask)) - 1) & 0xffff_ffff) as bv32
  }

  function NetMask(mask: bv8): bv32
    requires mask <= 32
  {
    Swap32(HighBits(mask))
  }

  /** The test of acl_check. */
  predicate Matches(net: Network, naddr: bv32)
    requires net.mask <= 32
  {
    Masked(naddr, NetMask(net.mask)) == Masked(net.ip, NetMask(net.mask))
  }

  function Masked(addr: bv32, mask: bv32): bv32 {
    addr & mask
  }

  /** The leading mask bits of two addresses in host order are the same. */
  predicate SamePrefix(a: bv32, b: bv32, mask: bv8)
    requires mask <= 32
  {
    Down(a, 32 - mask) == Down(b, 32 - mask)
  }

  lemma HighBitsShifted(mask: bv8)
    requires mask <= 32
    ensures HighBits(mask) == (0xffff_ffff as bv32) << (32 - mask)
  {
  }

  function Up(a: bv32, n: bv8): bv32
    requires n <= 32
  {
    a << n
  }

  function Down(a: bv32, n: bv8): bv32
    requires n <= 32
  {
    a >> n
  }

  lemma MaskClearsLowBits(a: bv32, n: bv8)
    requires n <= 32
    ensures Masked(a, (0xffff_ffff as bv32) << n) == Up(Down(a, n), n)
  {
  }

  lemma DownUpDown(a: bv32, n: bv8)
    requires n <= 32
    ensures Down(Up(Down(a, n), n), n) == Down(a, n)
  {
  }

  lemma HighBitsSelect(a: bv32, b: bv32, mask: bv8)
    requires mask <= 32
    ensures Masked(a, HighBits(mask)) == Masked(b, HighBits(mask)) <==> SamePrefix(a, b, mask)
  {
    hide HighBits, Masked, Up, Down;
    var n := 32 - mask;
    HighBitsShifted(mask);
    MaskClearsLowBits(a, n);
    MaskClearsLowBits(b, n);
    DownUpDown(a, n);
    DownUpDown(b, n);
  }

  lemma SwapTwice(x: bv32)
    ensures Swap32(Swap32(x)) == x
  {
  }

  lemma SwapMasked(x: bv32, y: bv32)
    ensures Masked(x, Swap32(y)) == Swap32(Masked(Swap32(x), y))
  {
  }

  /** On a little-endian host the masked comparison of network-order words compares leading bits in host order. */
  lemma MatchesIsPrefix(net: Network, naddr: bv32)
    requires net.mask <= 32
    ensures Matches(net, naddr) <==> SamePrefix(Swap32(naddr), Swap32(net.ip), net.mask)
  {
    hide Swap32, HighBits, Masked, SamePrefix;
    var a, b, high := Swap32(naddr), Swap32(net.ip), HighBits(net.mask);
    SwapMasked(naddr, high);
    SwapMasked(net.ip, high);
    SwapTwice(Masked(a, high));
    SwapTwice(Masked(b, high));
    HighBitsSelect(a, b, net.mask);
  }

  // ---------- octets ----------

  /** The octets of an address in the order in which it is written. */
  datatype Address = Address(a: bv8, b: bv8, c: bv8, d: bv8)

  /** The number that an address is: a * 2^24 + b * 2^16 + c * 2^8 + d. */
  function HostOrder(x: Address): bv32 {
    (x.a as bv32) * 0x100_0000 + (x.b as bv32) * 0x1_0000 + (x.c as bv32) * 0x100 + (x.d as bv32)
  }

  /** Network order on a little-endian host: the first octet is the lowest byte of the word. */
  function Stored(x: Address): bv32 {
    (x.a as bv32) + (x.b as bv32) * 0x100 + (x.c as bv32) * 0x1_0000 + (x.d as bv32) * 0x100_0000
  }

  /** The octets of a word, in the order of their places in memory. */
  function AddressOf(word: bv32): Address {
    Address((word % 0x100) as bv8, (word / 0x100 % 0x100) as bv8,
            (word / 0x1_0000 % 0x100) as bv8, (word / 0x100_0000) as bv8)
  }

  lemma StoredAddress(x: Address, word: bv32)
    ensures AddressOf(Stored(x)) == x
    ensures Stored(AddressOf(word)) == word
  {
  }

  lemma SwappedOctets(x: Address)
    ensures Swap32(Stored(x)) == HostOrder(x)
  {
  }

  /**
   On a little-endian host an address is covered by a network exactly if the leading bits of the two numbers, as many as
   the prefix has, are the same.
   */
  lemma MatchesWhen(net: Address, mask: bv8, addr: Address)
    requires mask <= 32
    ensures Matches(Network(Stored(net), mask), Stored(addr)) <==> SamePrefix(HostOrder(addr), HostOrder(net), mask)
  {
    hide Swap32, Matches, SamePrefix, Stored, HostOrder;
    MatchesIsPrefix(Network(Stored(net), mask), Stored(addr));
    SwappedOctets(net);
    SwappedOctets(addr);
  }

  // Two addresses for which the swapped mask and the prefix disagree when nothing else is swapped.

  lemma TopBitLost(mask: bv8)
    requires 0 < mask < 25
    ensures Masked(0x80000000, NetMask(mask)) == Masked(0, NetMask(mask)) && !SamePrefix(0x80000000, 0, mask)
  {
  }

  lemma LowBitGained(mask: bv8)
    requires 25 <= mask < 32
    ensures Masked(1, NetMask(mask)) != Masked(0, NetMask(mask)) && SamePrefix(1, 0, mask)
  {
  }

  lemma SameEitherWay(mask: bv8)
    requires mask == 0 || mask == 32
    ensures NetMask(mask) == HighBits(mask)
  {
  }

  ghost predicate BigEndianRight(mask: bv8)
    requires mask <= 32
  {
    forall ip, naddr :: Matches(Network(ip, mask), naddr) <==> SamePrefix(naddr, ip, mask)
  }

  /**
   On a big-endian host, where both orders are the same, the swapped mask is right for the shortest and the longest
   prefix only.
   */
  lemma BigEndianRightWhen(mask: bv8)
    requires mask <= 32
    ensures BigEndianRight(mask) <==> (mask == 0 || mask == 32)
  {
    hide NetMask, HighBits, Masked, SamePrefix;
    if mask == 0 || mask == 32 {
      SameEitherWay(mask);
      forall ip, naddr
        ensures Matches(Network(ip, mask), naddr) <==> SamePrefix(naddr, ip, mask)
      {
        HighBitsSelect(naddr, ip, mask);
      }
    } else if mask < 25 {
      TopBitLost(mask);
      assert Matches(Network(0, mask), 0x80000000);
    } else {
      LowBitGained(mask);
      assert !Matches(Network(0, mask), 1);
    }
  }

  // ---------- the rule list ----------

  /** Every rule has a prefix length that acl_add accepts. */
  ghost predicate ValidRules(rules: seq<Node<Network>>)
    reads rules
  {
    forall i :: 0 <= i < |rules| ==> rules[i].aux.mask <= 32
  }

  /** The rule covers the address: the numbers made of their octets agree in their leading bits. */
  predicate Covers(net: Network, naddr: bv32)
    requires net.mask <= 32
  {
    SamePrefix(HostOrder(AddressOf(naddr)), HostOrder(AddressOf(net.ip)), net.mask)
  }

  ghost predicate FirstCovering(rules: seq<Node<Network>>, naddr: bv32, i: int)
    requires ValidRules(rules)
    reads rules
  {
    && 0 <= i < |rules| && Covers(rules[i].aux, naddr)
    && forall j :: 0 <= j < i ==> !Covers(rules[j].aux, naddr)
  }

  /** acl_check: the verdict of the first rule that covers the address, ALLOW if none does. */
  method AclCheck(rules: Node?<Network>, naddr: bv32, ghost nodes: seq<Node<Network>>) returns (verdict: int)
    requires IsList(rules, nodes) && ValidRules(nodes)
    ensures (forall i :: 0 <= i < |nodes| ==> !Covers(nodes[i].aux, naddr)) ==> verdict == ALLOW
    ensures forall i :: FirstCovering(nodes, naddr, i) ==> verdict == nodes[i].key
  {
    hide Matches, Covers;
    var t := rules;
    ghost var i := 0;
    while t != null
      invariant 0 <= i <= |nodes| && t == if i < |nodes| then nodes[i] else null
      invariant forall j :: 0 <= j < i ==> !Covers(nodes[j].aux, naddr)
      decreases |nodes| - i
    {
      CoversIfMatches(t.aux, naddr);
      if Matches(t.aux, naddr) {
        return t.key;
      }
      t := t.next;
      i := i + 1;
    }
    return ALLOW;
  }

  lemma CoversIfMatches(net: Network, naddr: bv32)
    requires net.mask <= 32
    ensures Covers(net, naddr) <==> Matches(net, naddr)
  {
    hide Matches, SamePrefix, HostOrder, Stored, AddressOf;
    StoredAddress(AddressOf(naddr), naddr);
    StoredAddress(AddressOf(net.ip), net.ip);
    MatchesWhen(AddressOf(net.ip), net.mask, AddressOf(naddr));
  }
}
