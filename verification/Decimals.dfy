/** Numbers as they are written in decimal digits, and what atoll and atoi of cntlm-0.92.3 read. */
module Decimals {
  import opened HeaderText
  import opened Messages

  predicate AllDigits(s: string) {
    forall i :: 0 <= i < |s| ==> IsDigit(s[i])
  }

  /** The ten digits, and what they stand for. */
  lemma DigitIs(n: nat)
    requires n < 10
    ensures Digit(n) == "0123456789"[n] && IsDigit(Digit(n))
    ensures Digit(n) as int - '0' as int == n && !IsSpace(Digit(n)) && Digit(n) != '-' && Digit(n) != '+'
    ensures Digit(n) != '/' && Digit(n) != ':' && Digit(n) as int != 0 && Digit(n) != '\n'
  {
  }

  lemma {:induction false} DigitsAre(n: nat)
    ensures AllDigits(Digits(n))
  {
    DigitIs(n % 10);
    if n >= 10 {
      DigitsAre(n / 10);
    }
  }

  /** The value of digits, one more at the end, and what is no digit behind them. */
  lemma {:induction false} OneMoreDigit(s: string, sum: nat, d: nat)
    requires AllDigits(s) && d < 10
    ensures DigitsFrom(s + [Digit(d)], sum) == 10 * DigitsFrom(s, sum) + d
    decreases |s|
  {
    hide Digit;
    DigitIs(d);
    var all := s + [Digit(d)];
    if s == [] {
      assert all[1..] == [];
    } else {
      assert all[1..] == s[1..] + [Digit(d)] && all[0] == s[0];
      OneMoreDigit(s[1..], 10 * sum + (s[0] as int - '0' as int), d);
    }
  }

  lemma {:induction false} DigitsAreRead(n: nat)
    ensures DigitsFrom(Digits(n), 0) == n
  {
    hide Digit;
    if n < 10 {
      DigitIs(n);
      assert Digits(n)[1..] == [];
    } else {
      DigitsAre(n / 10);
      DigitsAreRead(n / 10);
      OneMoreDigit(Digits(n / 10), 0, n % 10);
    }
  }

  /** What is written in decimal digits is read. */
  lemma DecimalIsRead(n: nat)
    ensures Atoll(Digits(n)) == n
  {
    hide Digit, Digits, DigitsFrom;
    DigitsAre(n);
    DigitsAreRead(n);
    FirstOfDigits(n);
  }

  lemma FirstOfDigits(n: nat)
    ensures var c := Digits(n)[0]; IsDigit(c) && !IsSpace(c) && c != '-' && c != '+'
  {
    DigitsAre(n);
  }

  /** No character of a decimal number ends a line, a host name or a header value early. */
  lemma DigitsStand(n: nat)
    ensures forall i :: 0 <= i < |Digits(n)| ==>
            var c := Digits(n)[i]; c != '/' && c != ':' && c != '\n' && c as int != 0
    ensures forall i :: 0 <= i < |Digits(n)| ==> !IsSpace(Digits(n)[i])
  {
    DigitsAre(n);
  }
}
