/**
 The bit permutations of the DES implementation as plain routing of bits: masks and
 shifts only, without the xor trick and without tables.
 */
module DesRouting {
  import opened Des
  import DesTables

  /** Exchange as plain routing of bits, without the xor trick. */
  function Route(h: Halves, offset: bv6, mask: bv32): Halves
    requires offset <= 16
  {
    Halves((h.left & !(mask << offset)) | ((h.right & mask) << offset),
           (h.right & !mask) | ((h.left >> offset) & mask))
  }

  function RouteStagger(h: Halves): Halves {
    var right := (h.right << 1) | (h.right >> 31);
    var left := (h.left & 0x55555555) | (right & 0xaaaaaaaa);
    Halves((left << 1) | (left >> 31), (right & 0x55555555) | (h.left & 0xaaaaaaaa))
  }

  function RouteUnstagger(h: Halves): Halves {
    var left := (h.left << 31) | (h.left >> 1);
    var right := (h.right & 0x55555555) | (left & 0xaaaaaaaa);
    Halves((left & 0x55555555) | (h.right & 0xaaaaaaaa), (right << 31) | (right >> 1))
  }

  lemma ExchangeRoutes4(h: Halves)
    ensures Exchange(h, 4, 0x0f0f0f0f) == Route(h, 4, 0x0f0f0f0f)
  {
  }

  lemma ExchangeRoutes16(h: Halves)
    ensures Exchange(h, 16, 0x0000ffff) == Route(h, 16, 0x0000ffff)
  {
  }

  lemma ExchangeRoutes2(h: Halves)
    ensures Exchange(h, 2, 0x33333333) == Route(h, 2, 0x33333333)
  {
  }

  lemma ExchangeRoutes8(h: Halves)
    ensures Exchange(h, 8, 0x00ff00ff) == Route(h, 8, 0x00ff00ff)
  {
  }

  lemma StaggerRoutes(h: Halves)
    ensures Stagger(h) == RouteStagger(h)
  {
  }

  lemma UnstaggerRoutes(h: Halves)
    ensures Unstagger(h) == RouteUnstagger(h)
  {
  }

  function InitialRouted(h: Halves): Halves {
    var h := Swap(Route(Route(h, 4, 0x0f0f0f0f), 16, 0x0000ffff));
    var h := Swap(Route(Route(h, 2, 0x33333333), 8, 0x00ff00ff));
    RouteStagger(h)
  }

  function FinalRouted(h: Halves): Halves {
    var h := Swap(RouteUnstagger(h));
    var h := Swap(Route(Route(h, 8, 0x00ff00ff), 2, 0x33333333));
    Route(Route(h, 16, 0x0000ffff), 4, 0x0f0f0f0f)
  }

  /** Both permutations only move bits. */
  lemma PermutationsRoute(h: Halves)
    ensures InitialPermutation(h) == InitialRouted(h)
    ensures FinalPermutation(h) == FinalRouted(h)
  {
    hide Exchange, Stagger, Unstagger, Route, RouteStagger, RouteUnstagger;
    ExchangeRoutes4(h);
    var h1 := Exchange(h, 4, 0x0f0f0f0f);
    ExchangeRoutes16(h1);
    var h2 := Swap(Exchange(h1, 16, 0x0000ffff));
    ExchangeRoutes2(h2);
    var h3 := Exchange(h2, 2, 0x33333333);
    ExchangeRoutes8(h3);
    StaggerRoutes(Swap(Exchange(h3, 8, 0x00ff00ff)));

    UnstaggerRoutes(h);
    var g1 := Swap(Unstagger(h));
    ExchangeRoutes8(g1);
    var g2 := Exchange(g1, 8, 0x00ff00ff);
    ExchangeRoutes2(g2);
    var g3 := Swap(Exchange(g2, 2, 0x33333333));
    ExchangeRoutes16(g3);
    ExchangeRoutes4(Exchange(g3, 16, 0x0000ffff));
  }

  lemma FinalUndoesInitial(h: Halves)
    ensures FinalRouted(InitialRouted(h)) == h
  {
  }

  lemma InitialUndoesFinal(h: Halves)
    ensures InitialRouted(FinalRouted(h)) == h
  {
  }

  /** FINAL_PERMUTATION is the inverse of INITIAL_PERMUTATION, on both sides. */
  lemma PermutationsInverse(h: Halves)
    ensures FinalPermutation(InitialPermutation(h)) == h
    ensures InitialPermutation(FinalPermutation(h)) == h
  {
    hide InitialPermutation, FinalPermutation, InitialRouted, FinalRouted;
    PermutationsRoute(h);
    PermutationsRoute(InitialPermutation(h));
    PermutationsRoute(FinalPermutation(h));
    FinalUndoesInitial(h);
    InitialUndoesFinal(h);
  }

  // ---------- permuted choice 1 ----------

  /** Entry i of leftkey_swap spreads the bits of i over four bytes; rightkey_swap does so in the opposite order. */
  lemma KeySwapTables(w: bv32, shift: bv6)
    requires shift <= 29
    ensures DesTables.LeftKeySwap(Nibble(w, shift)) == SpreadUp(w, shift)
    ensures DesTables.RightKeySwap(Nibble(w, shift)) == SpreadDown(w, shift)
  {
  }

  function SpreadUp(w: bv32, shift: bv6): bv32
    requires shift <= 29
  {
    var i := w >> shift;
    (i & 1) | ((i & 2) << 7) | ((i & 4) << 14) | ((i & 8) << 21)
  }

  function SpreadDown(w: bv32, shift: bv6): bv32
    requires shift <= 29
  {
    var i := w >> shift;
    ((i & 1) << 24) | ((i & 2) << 15) | ((i & 4) << 6) | ((i & 8) >> 3)
  }

  function RoutedLeft(w: bv32): bv32 {
    Interleave(SpreadUp(w, 0), SpreadUp(w, 8), SpreadUp(w, 16), SpreadUp(w, 24),
               SpreadUp(w, 5), SpreadUp(w, 13), SpreadUp(w, 21), SpreadUp(w, 29))
  }

  function RoutedRight(w: bv32): bv32 {
    Interleave(SpreadDown(w, 1), SpreadDown(w, 9), SpreadDown(w, 17), SpreadDown(w, 25),
               SpreadDown(w, 4), SpreadDown(w, 12), SpreadDown(w, 20), SpreadDown(w, 28))
  }

  lemma SpreadsInBits(w: bv32)
    ensures SpreadLeft(w) == RoutedLeft(w) && SpreadRight(w) == RoutedRight(w)
  {
    hide DesTables.LeftKeySwap, DesTables.RightKeySwap, Nibble, SpreadUp, SpreadDown, Interleave;
    KeySwapTables(w, 0); KeySwapTables(w, 8); KeySwapTables(w, 16); KeySwapTables(w, 24);
    KeySwapTables(w, 5); KeySwapTables(w, 13); KeySwapTables(w, 21); KeySwapTables(w, 29);
    KeySwapTables(w, 1); KeySwapTables(w, 9); KeySwapTables(w, 17); KeySwapTables(w, 25);
    KeySwapTables(w, 4); KeySwapTables(w, 12); KeySwapTables(w, 20); KeySwapTables(w, 28);
  }

  lemma ExchangeRoutes0(h: Halves)
    ensures Exchange(h, 0, 0x10101010) == Route(h, 0, 0x10101010)
  {
  }

  /** The two key words as routed bits of the two halves of the key. */
  function KeyRouted(h: Halves): Halves {
    var h := Route(Route(Swap(h), 4, 0x0f0f0f0f), 0, 0x10101010);
    Halves(Low28(RoutedLeft(h.right)), Low28(RoutedRight(h.left)))
  }

  lemma KeyHalvesRoute(key: Bytes8)
    ensures KeyHalves(key) == KeyRouted(Read64(key))
  {
    hide Exchange, Route, SpreadLeft, SpreadRight, RoutedLeft, RoutedRight, Low28, Read64;
    var h := Swap(Read64(key));
    ExchangeRoutes4(h);
    ExchangeRoutes0(Exchange(h, 4, 0x0f0f0f0f));
    var x := Exchange(Exchange(h, 4, 0x0f0f0f0f), 0, 0x10101010);
    SpreadsInBits(x.right);
    SpreadsInBits(x.left);
  }

  predicate Fits28(w: bv32) {
    w < 0x10000000
  }
}
