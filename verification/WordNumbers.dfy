/** 32-bit words as bits and as numbers: what the shifts at the end of the padding do to a number. */
module WordNumbers {
  function Number(x: bv32): nat {
    x as nat
  }

  function Word(n: nat): bv32
    requires n < 0x1_0000_0000
  {
    n as bv32
  }

  // ---------- a number becomes a word and a number again ----------

  function Even(x: bv32): bv32 {
    x << 1
  }

  function Odd(x: bv32): bv32 {
    (x << 1) | 1
  }

  lemma ShiftedByOne(x: bv32)
    ensures (x << 1) as int == if x as int >= 0x8000_0000 then 2 * (x as int) - 0x1_0000_0000 else 2 * (x as int)
  {
  }

  lemma OneMore(x: bv32, even: bv32, odd: bv32)
    requires even == x << 1 && odd == (x << 1) | 1
    ensures odd as int == even as int + 1
  {
  }

  lemma NumberOfEven(x: bv32)
    requires Number(x) < 0x8000_0000
    ensures Number(Even(x)) == 2 * Number(x)
  {
    ShiftedByOne(x);
  }

  lemma NumberOfOdd(x: bv32)
    ensures Number(Odd(x)) == Number(Even(x)) + 1
  {
    OneMore(x, Even(x), Odd(x));
  }

  lemma NumberOfZero()
    ensures Number(0) == 0
  {
  }

  /** Every number below 2^32 is the number of a word. */
  lemma SomeWord(n: nat) returns (w: bv32)
    requires n < 0x1_0000_0000
    ensures Number(w) == n
  {
    hide *;
    if n == 0 {
      w := 0;
      NumberOfZero();
    } else {
      var half := SomeWord(n / 2);
      NumberOfEven(half);
      NumberOfOdd(half);
      w := if n % 2 == 1 then Odd(half) else Even(half);
    }
  }

  lemma WordOfNumber(w: bv32)
    ensures Number(w) < 0x1_0000_0000 && Word(Number(w)) == w
  {
  }

  lemma NumberOfWord(n: nat)
    requires n < 0x1_0000_0000
    ensures Number(Word(n)) == n
  {
    hide *;
    var w := SomeWord(n);
    WordOfNumber(w);
  }

  // ---------- eight times a number of two words ----------

  function Shifted(x: bv32): bv32 {
    x << 3
  }

  function Top(x: bv32): bv32 {
    x >> 29
  }

  function Rest(x: bv32): bv32 {
    x & 0x1fff_ffff
  }

  function ShiftedWith(high: bv32, low: bv32): bv32 {
    (high << 3) | (low >> 29)
  }

  lemma ShiftDropsTop(x: bv32)
    ensures (x << 3) as int == 8 * ((x & 0x1fff_ffff) as int)
  {
  }

  lemma Parts(x: bv32)
    ensures x as int == 0x2000_0000 * ((x >> 29) as int) + (x & 0x1fff_ffff) as int
  {
  }

  lemma OrIsSum(high: bv32, low: bv32)
    ensures ((high << 3) | (low >> 29)) as int == (high << 3) as int + (low >> 29) as int
  {
  }

  lemma NumberOfShifted(x: bv32)
    ensures Number(Shifted(x)) == 8 * Number(Rest(x))
  {
    ShiftDropsTop(x);
  }

  lemma NumberOfParts(x: bv32)
    ensures Number(x) == 0x2000_0000 * Number(Top(x)) + Number(Rest(x))
  {
    Parts(x);
  }

  lemma NumberOfShiftedWith(high: bv32, low: bv32)
    ensures Number(ShiftedWith(high, low)) == Number(Shifted(high)) + Number(Top(low))
  {
    OrIsSum(high, low);
  }

  lemma EightTimesParts(n: nat, top: nat, rest: nat)
    requires n == 0x2000_0000 * top + rest && 8 * rest < 0x1_0000_0000
    ensures n * 8 % 0x1_0000_0000 == 8 * rest && n / 0x2000_0000 == top
  {
  }

  /**
   Shifting two words left by three, with the bits that leave the low word, multiplies each by eight and adds the
   carry.
   */
  lemma ShiftedWords(low: nat, high: nat)
    requires low < 0x1_0000_0000 && high < 0x1_0000_0000
    ensures Number(Shifted(Word(low))) == low * 8 % 0x1_0000_0000
    ensures Number(ShiftedWith(Word(high), Word(low))) == high * 8 % 0x1_0000_0000 + low / 0x2000_0000
  {
    hide *;
    var l, h := Word(low), Word(high);
    NumberOfWord(low);
    NumberOfWord(high);
    NumberOfShifted(l);
    NumberOfShifted(h);
    NumberOfParts(l);
    NumberOfParts(h);
    WordOfNumber(Shifted(l));
    WordOfNumber(Shifted(h));
    NumberOfShiftedWith(h, l);
    EightTimesParts(low, Number(Top(l)), Number(Rest(l)));
    EightTimesParts(high, Number(Top(h)), Number(Rest(h)));
  }
}
