/**
 to_base64 and from_base64 of cntlm-0.92.3/utils.c: encoding into a buffer of limited size,
 and decoding, with section 4 of RFC 4648 as the reference.
 */
module Base64 {
  import opened Options

  /** The alphabet, as bytes. */
  function Digit(v: bv6): bv8 {
    if v < 26 then 65 + (v as bv8)
    else if v < 52 then 71 + (v as bv8)
    else if v < 62 then (v as bv8) - 4
    else if v == 62 then 43 else 47
  }

  /** index64 with the test for bytes above 127: the value of a digit, none for every other byte. */
  function Value(c: bv8): Option<bv6> {
    if 65 <= c <= 90 then Some((c - 65) as bv6)
    else if 97 <= c <= 122 then Some((c - 71) as bv6)
    else if 48 <= c <= 57 then Some((c + 4) as bv6)
    else if c == 43 then Some(62)
    else if c == 47 then Some(63)
    else None
  }

  /** The alphabet begins with A, goes on letter by letter and digit by digit, and ends with + and /. */
  lemma AlphabetIs(v: bv6, c: bv8)
    ensures Digit(0) == 65 && Digit(26) == 97 && Digit(52) == 48 && Digit(62) == 43 && Digit(63) == 47
    ensures v < 61 && v != 25 && v != 51 ==> Digit(v + 1) == Digit(v) + 1
    ensures Value(Digit(v)) == Some(v) && (Value(c).Some? ==> Digit(Value(c).value) == c)
  {
  }

  const PAD: bv8 := 61  // '='

  // ---------- section 4 of RFC 4648 ----------

  /** The n-th group of six bits, counted from the left, of 24 bits. */
  function Sextet(group: bv32, n: bv4): bv6
    requires n < 4
  {
    ((group >> (18 - 6 * (n as bv8))) & 0x3f) as bv6
  }

  function Group(a: bv8, b: bv8, c: bv8): bv32 {
    ((a as bv32) << 16) | ((b as bv32) << 8) | (c as bv32)
  }

  /** Three bytes make four digits; a last one or two are filled up with zero bits and the missing digits marked. */
  function Standard(data: seq<bv8>): seq<bv8> {
    if |data| == 0 then []
    else if |data| == 1 then
      var g := Group(data[0], 0, 0);
      [Digit(Sextet(g, 0)), Digit(Sextet(g, 1)), PAD, PAD]
    else if |data| == 2 then
      var g := Group(data[0], data[1], 0);
      [Digit(Sextet(g, 0)), Digit(Sextet(g, 1)), Digit(Sextet(g, 2)), PAD]
    else
      var g := Group(data[0], data[1], data[2]);
      [Digit(Sextet(g, 0)), Digit(Sextet(g, 1)), Digit(Sextet(g, 2)), Digit(Sextet(g, 3))] + Standard(data[3..])
  }

  // ---------- what the implementation writes ----------

  function Six1(a: bv8): bv6 { (a >> 2) as bv6 }
  function Six2(a: bv8, b: bv8): bv6 { (((a << 4) & 0x30) | (b >> 4)) as bv6 }
  function Six3(b: bv8, c: bv8): bv6 { (((b << 2) & 0x3c) | (c >> 6)) as bv6 }
  function Six4(c: bv8): bv6 { (c & 0x3f) as bv6 }

  function Quad(a: bv8, b: bv8, c: bv8): seq<bv8> {
    [Digit(Six1(a)), Digit(Six2(a, b)), Digit(Six3(b, c)), Digit(Six4(c))]
  }

  /** The digits of the remainder: at most two bytes of what is left, even if more is. */
  function Remainder(data: seq<bv8>): seq<bv8>
    requires |data| > 0
  {
    var b := if |data| > 1 then data[1] else 0;
    [Digit(Six1(data[0])), Digit(Six2(data[0], b)), if |data| < 2 then PAD else Digit(Six3(b, 0)), PAD]
  }

  /** Everything to_base64 writes before the terminator. */
  function Encode(data: seq<bv8>, olen: nat): (text: seq<bv8>)
    ensures |text| + 1 <= if olen == 0 then 1 else olen
    ensures |text| % 4 == 0
  {
    if |data| >= 3 && olen > 10 then Quad(data[0], data[1], data[2]) + Encode(data[3..], olen - 4)
    else if |data| > 0 && olen > 4 then Remainder(data)
    else []
  }

  /** *out++ four times over. */
  method Write4(out: array<bv8>, o: nat, digits: seq<bv8>)
    requires |digits| == 4 && o + 4 <= out.Length
    modifies out
    ensures out[..o + 4] == old(out[..o]) + digits
    ensures forall i :: o + 4 <= i < out.Length ==> out[i] == old(out[i])
  {
    out[o], out[o + 1], out[o + 2], out[o + 3] := digits[0], digits[1], digits[2], digits[3];
  }

  lemma EncodeStep(data: seq<bv8>, olen: nat, before: seq<bv8>)
    requires |data| >= 3 && olen > 10
    ensures before + Encode(data, olen) == (before + Quad(data[0], data[1], data[2])) + Encode(data[3..], olen - 4)
  {
  }

  /** to_base64: the text and a terminator at the start of out, whose size is olen. */
  method ToBase64(out: array<bv8>, data: seq<bv8>, olen: nat)
    requires olen <= out.Length && 1 <= out.Length
    modifies out
    ensures |Encode(data, olen)| < out.Length
    ensures out[..|Encode(data, olen)| + 1] == Encode(data, olen) + [0]
    ensures forall i :: |Encode(data, olen)| < i < out.Length ==> out[i] == old(out[i])
  {
    var o, left, room := WriteGroups(out, data, olen);
    if |left| > 0 && room > 4 {
      Write4(out, o, Remainder(left));
      o := o + 4;
    }
    assert out[..o] == Encode(data, olen);
    out[o] := 0;
  }

  /** The loop of to_base64: whole groups, as long as ten bytes stay free. */
  method WriteGroups(out: array<bv8>, data: seq<bv8>, olen: nat) returns (o: nat, left: seq<bv8>, room: nat)
    requires olen <= out.Length && 1 <= out.Length
    modifies out
    ensures |left| < 3 || room <= 10
    ensures room + o == olen && (o > 0 ==> room >= 1)
    ensures out[..o] + Encode(left, room) == Encode(data, olen)
    ensures forall i :: o <= i < out.Length ==> out[i] == old(out[i])
  {
    hide Encode, Digit, Six1, Six2, Six3, Six4;
    o, left, room := 0, data, olen;
    assert out[..0] + Encode(data, olen) == Encode(data, olen);
    while |left| >= 3 && room > 10
      invariant room + o == olen && (o > 0 ==> room >= 1)
      invariant out[..o] + Encode(left, room) == Encode(data, olen)
      invariant forall i :: o <= i < out.Length ==> out[i] == old(out[i])
    {
      EncodeStep(left, room, out[..o]);
      Write4(out, o, Quad(left[0], left[1], left[2]));
      o, room, left := o + 4, room - 4, left[3..];
    }
  }

  // ---------- decoding ----------

  function Byte1(v1: bv6, v2: bv6): bv8 { ((v1 as bv8) << 2) | ((v2 as bv8) >> 4) }
  function Byte2(v2: bv6, v3: bv6): bv8 { (((v2 as bv8) << 4) & 0xf0) | ((v3 as bv8) >> 2) }
  function Byte3(v3: bv6, v4: bv6): bv8 { (((v3 as bv8) << 6) & 0xc0) | (v4 as bv8) }

  /** A digit, or the mark that it is missing. */
  predicate DigitOrPad(c: bv8) {
    c == PAD || Value(c).Some?
  }

  /** Four characters are decoded: two digits, and two that may be marked missing. */
  predicate Decodable(d1: bv8, d2: bv8, d3: bv8, d4: bv8) {
    Value(d1).Some? && Value(d2).Some? && DigitOrPad(d3) && DigitOrPad(d4)
  }

  /** The one, two or three bytes of four characters; the fourth is not looked at when the third is missing. */
  function Bytes(d1: bv8, d2: bv8, d3: bv8, d4: bv8): (b: seq<bv8>)
    requires Decodable(d1, d2, d3, d4)
    ensures 1 <= |b| <= 3
  {
    var v1, v2 := Value(d1).value, Value(d2).value;
    if d3 == PAD then [Byte1(v1, v2)]
    else
      var v3 := Value(d3).value;
      if d4 == PAD then [Byte1(v1, v2), Byte2(v2, v3)]
      else [Byte1(v1, v2), Byte2(v2, v3), Byte3(v3, Value(d4).value)]
  }

  /** Character i of a string; past its end stands the terminator. */
  function At(text: seq<bv8>, i: nat): bv8 {
    if i < |text| then text[i] else 0
  }

  function Prepend(bytes: seq<bv8>, rest: Option<seq<bv8>>): Option<seq<bv8>> {
    match rest case Some(r) => Some(bytes + r) case None => None
  }

  /** What from_base64 makes of a string, which a zero byte ends too: bytes, or an error. */
  function Decode(text: seq<bv8>): Option<seq<bv8>> {
    var d1, d2, d3, d4 := At(text, 0), At(text, 1), At(text, 2), At(text, 3);
    if !Decodable(d1, d2, d3, d4) then None
    else if At(text, 4) == 0 || d4 == PAD then Some(Bytes(d1, d2, d3, d4))
    else Prepend(Bytes(d1, d2, d3, d4), Decode(text[4..]))
  }

  /** Nothing behind a zero byte is decoded. */
  lemma {:induction false} ZeroByteEnds(text: seq<bv8>, behind: seq<bv8>)
    ensures Decode(text + [0] + behind) == Decode(text)
    decreases |text|
  {
    hide Bytes;
    TerminatorIsNoDigit();
    var all := text + [0] + behind;
    assert forall i | 0 <= i <= |text| :: At(all, i) == At(text, i);
    if |text| < 4 {
      assert At(all, |text|) == 0 == At(text, |text|);
    } else if |text| > 4 {
      ZeroByteEnds(text[4..], behind);
      assert all[4..] == text[4..] + [0] + behind;
    }
  }

  lemma PrependLaws(a: seq<bv8>, b: seq<bv8>, rest: Option<seq<bv8>>)
    ensures Prepend([], rest) == rest
    ensures Prepend(a, Prepend(b, rest)) == Prepend(a + b, rest)
  {
    match rest
    case Some(r) =>
      assert [] + r == r;
      assert a + (b + r) == (a + b) + r;
    case None =>
  }

  /** One turn of the loop, with the bytes of earlier turns in front. */
  lemma DecodeStep(before: seq<bv8>, text: seq<bv8>, d1: bv8, d2: bv8, d3: bv8, d4: bv8)
    requires d1 == At(text, 0) && d2 == At(text, 1) && d3 == At(text, 2) && d4 == At(text, 3)
    ensures !Decodable(d1, d2, d3, d4) ==> Prepend(before, Decode(text)) == None
    ensures Decodable(d1, d2, d3, d4) && (At(text, 4) == 0 || d4 == PAD) ==>
              Prepend(before, Decode(text)) == Some(before + Bytes(d1, d2, d3, d4))
    ensures Decodable(d1, d2, d3, d4) && At(text, 4) != 0 && d4 != PAD ==>
              Prepend(before, Decode(text)) == Prepend(before + Bytes(d1, d2, d3, d4), Decode(text[4..]))
  {
    hide Decodable, Bytes;
    if Decodable(d1, d2, d3, d4) && At(text, 4) != 0 && d4 != PAD {
      PrependLaws(before, Bytes(d1, d2, d3, d4), Decode(text[4..]));
    }
  }

  /** Reading a string stops at its terminator: no character is read before all earlier ones are known to be digits. */
  function CharAt(text: seq<bv8>, i: nat): bv8
    requires i <= |text|
  {
    At(text, i)
  }

  /** from_base64: the decoded bytes at the start of out and their number, or -1. */
  method FromBase64(out: array<bv8>, text: seq<bv8>) returns (len: int)
    requires |text| <= out.Length
    modifies out
    ensures match Decode(text)
            case Some(bytes) => len == |bytes| <= |text| && out[..len] == bytes
            case None => len == -1
  {
    hide Value, Byte1, Byte2, Byte3, Decode, Prepend;
    TerminatorIsNoDigit();
    PrependLaws([], [], Decode(text));
    len := 0;
    var i: nat := 0;
    var more := true;
    assert text[0..] == text && out[..0] == [];
    while more
      invariant 0 <= len <= i <= |text|
      invariant more ==> Decode(text) == Prepend(out[..len], Decode(text[i..]))
      invariant !more ==> Decode(text) == Some(out[..len])
      decreases |text| - i, more
    {
      ghost var before, tail := out[..len], text[i..];
      DecodeStep(before, tail, At(tail, 0), At(tail, 1), At(tail, 2), At(tail, 3));
      var digit1 := CharAt(text, i);
      if Value(digit1) == None { return -1; }
      var digit2 := CharAt(text, i + 1);
      if Value(digit2) == None { return -1; }
      var digit3 := CharAt(text, i + 2);
      if digit3 != PAD && Value(digit3) == None { return -1; }
      var digit4 := CharAt(text, i + 3);
      if digit4 != PAD && Value(digit4) == None { return -1; }
      assert tail[4..] == text[i + 4..];
      i := i + 4;
      len := WriteBytes(out, len, digit1, digit2, digit3, digit4);
      more := CharAt(text, i) != 0 && digit4 != PAD;
    }
  }

  /** The bytes of four characters, written after the len bytes that are there. */
  method WriteBytes(out: array<bv8>, len: nat, digit1: bv8, digit2: bv8, digit3: bv8, digit4: bv8) returns (len': nat)
    requires Decodable(digit1, digit2, digit3, digit4) && len + 4 <= out.Length
    modifies out
    ensures len < len' <= len + 3
    ensures out[..len'] == old(out[..len]) + Bytes(digit1, digit2, digit3, digit4)
  {
    hide Value, Byte1, Byte2, Byte3;
    var v1, v2 := Value(digit1).value, Value(digit2).value;
    out[len] := Byte1(v1, v2);
    len' := len + 1;
    if digit3 != PAD {
      var v3 := Value(digit3).value;
      out[len'] := Byte2(v2, v3);
      len' := len' + 1;
      if digit4 != PAD {
        out[len'] := Byte3(v3, Value(digit4).value);
        len' := len' + 1;
      }
    }
  }

  lemma TerminatorIsNoDigit()
    ensures Value(0) == None && Value(PAD) == None && PAD != 0
  {
  }

  // ---------- round trip ----------

  lemma ValueOfDigit(v: bv6)
    ensures Value(Digit(v)) == Some(v) && Digit(v) != PAD && Digit(v) != 0
  {
  }

  lemma FirstByte(a: bv8, b: bv8)
    ensures Byte1(Six1(a), Six2(a, b)) == a
  {
  }

  lemma SecondByte(a: bv8, b: bv8, c: bv8)
    ensures Byte2(Six2(a, b), Six3(b, c)) == b
  {
  }

  lemma ThirdByte(b: bv8, c: bv8)
    ensures Byte3(Six3(b, c), Six4(c)) == c
  {
  }

  /** How many bytes of the input fit into the text. */
  function Kept(len: nat, olen: nat): (kept: nat)
    ensures kept <= len
  {
    if len >= 3 && olen > 10 then 3 + Kept(len - 3, olen - 4)
    else if len > 0 && olen > 4 then (if len < 2 then len else 2)
    else 0
  }

  lemma QuadDecodes(a: bv8, b: bv8, c: bv8)
    ensures var q := Quad(a, b, c);
            && Decodable(q[0], q[1], q[2], q[3]) && q[3] != PAD && q[0] != 0
            && Bytes(q[0], q[1], q[2], q[3]) == [a, b, c]
  {
    hide Value, Digit, Byte1, Byte2, Byte3, Six1, Six2, Six3, Six4;
    ValueOfDigit(Six1(a)); ValueOfDigit(Six2(a, b)); ValueOfDigit(Six3(b, c)); ValueOfDigit(Six4(c));
    FirstByte(a, b);
    SecondByte(a, b, c);
    ThirdByte(b, c);
  }

  lemma RemainderDecodes(data: seq<bv8>)
    requires |data| > 0
    ensures Decode(Remainder(data)) == Some(if |data| < 2 then data else data[..2])
  {
    hide Value, Digit, Byte1, Byte2, Byte3, Six1, Six2, Six3, Six4;
    var a, b := data[0], if |data| > 1 then data[1] else 0;
    TerminatorIsNoDigit();
    ValueOfDigit(Six1(a)); ValueOfDigit(Six2(a, b)); ValueOfDigit(Six3(b, 0));
    FirstByte(a, b);
    SecondByte(a, b, 0);
    assert |data| < 2 ==> data == [a];
    assert |data| >= 2 ==> data[..2] == [a, b];
    assert Bytes(Remainder(data)[0], Remainder(data)[1], Remainder(data)[2], PAD) == if |data| < 2 then [a] else [a, b];
  }

  /**
   Decoding what was encoded into a buffer of any size gives back the longest prefix that fitted; there is
   nothing to decode, and an error, when nothing was written.
   */
  lemma {:induction false} DecodeEncode(data: seq<bv8>, olen: nat)
    ensures data != [] && olen >= 5 ==>
            Decode(Encode(data, olen)) == Some(data[..Kept(|data|, olen)]) && Kept(|data|, olen) > 0
    ensures data == [] || olen < 5 ==> Decode(Encode(data, olen)) == None
    decreases |data|
  {
    hide Quad, Remainder, Decodable, Bytes;
    if |data| >= 3 && olen > 10 {
      var q, rest := Quad(data[0], data[1], data[2]), Encode(data[3..], olen - 4);
      QuadDecodes(data[0], data[1], data[2]);
      QuadDigitsOnly(data[0], data[1], data[2]);
      var text := q + rest;
      assert text[4..] == rest;
      DecodeEncode(data[3..], olen - 4);
      if |data| == 3 {
        assert text == q;
        assert data[..3] == [data[0], data[1], data[2]];
      } else {
        EncodeIsLong(data[3..], olen - 4);
        assert At(text, 4) == rest[0];
        var bytes, k := [data[0], data[1], data[2]], Kept(|data| - 3, olen - 4);
        assert forall i | 0 <= i < 4 :: At(text, i) == q[i];
        assert Decode(text) == Prepend(bytes, Decode(rest));
        assert bytes + data[3..][..k] == data[..3 + k];
      }
    } else if |data| > 0 && olen > 4 {
      RemainderDecodes(data);
      assert |data| < 2 ==> data[..1] == data;
    } else {
      NothingDecodes();
    }
  }

  lemma EncodeIsLong(data: seq<bv8>, olen: nat)
    requires data != [] && olen >= 5
    ensures |Encode(data, olen)| >= 4 && Encode(data, olen)[0] != 0
  {
    hide Digit;
    ValueOfDigit(Six1(data[0]));
  }

  lemma QuadDigitsOnly(a: bv8, b: bv8, c: bv8)
    ensures |Quad(a, b, c)| == 4
  {
  }

  lemma NothingDecodes()
    ensures Decode([]) == None
  {
    TerminatorIsNoDigit();
  }

  /** The whole input comes back exactly when the buffer has room for it: from n = 3 on, 4 * (n / 3) + 7 bytes. */
  lemma {:induction false} WholeInputWhen(len: nat, olen: nat)
    requires len > 0
    ensures Kept(len, olen) == len <==> if len < 3 then olen >= 5 else olen >= 4 * (len / 3) + 7
    decreases len
  {
    if len >= 3 && olen > 10 {
      if len > 3 {
        WholeInputWhen(len - 3, olen - 4);
      }
    }
  }

  // ---------- agreement with the standard ----------

  lemma FirstSextets(a: bv8, b: bv8, c: bv8)
    ensures Six1(a) == Sextet(Group(a, b, c), 0) && Six4(c) == Sextet(Group(a, b, c), 3)
  {
  }

  lemma MiddleSextets(a: bv8, b: bv8, c: bv8)
    ensures Six2(a, b) == Sextet(Group(a, b, c), 1) && Six3(b, c) == Sextet(Group(a, b, c), 2)
  {
  }

  /** With room for all of it, the text is the standard encoding. */
  lemma {:induction false} EncodeIsStandard(data: seq<bv8>, olen: nat)
    requires Kept(|data|, olen) == |data|
    ensures Encode(data, olen) == Standard(data)
    decreases |data|
  {
    hide Digit, Sextet, Group, Six1, Six2, Six3, Six4;
    if |data| > 0 {
      var a, b, c := data[0], if |data| > 1 then data[1] else 0, if |data| > 2 then data[2] else 0;
      FirstSextets(a, b, c);
      MiddleSextets(a, b, c);
      if |data| >= 3 {
        EncodeIsStandard(data[3..], olen - 4);
      }
    }
  }
}
