/**
 The part of proxy_authenticate, cntlm-0.92.3/forward.c, that makes a Proxy-Authorization header of a Proxy-Authenticate
 header: Base64 to a challenge, the challenge to a message, the message to Base64 again.
 */
module Tokens {
  import opened AuthMessage
  import B = Base64
  import opened ByteOrder
  import Des
  import Hmac
  import N = NtlmResponse
  import opened Options

  const PREFIX := "NTLM "
  const ROOM: nat := 4096 - 5  // what is left of the buffer behind the prefix

  // ---------- strings and bytes ----------

  /** The characters of C are bytes. */
  function ToByte(c: char): bv8 {
    var n := c as int;
    if n < 256 then n as bv8 else 0
  }

  function Raw(s: string): (b: Bytes)
    ensures |b| == |s|
  {
    seq(|s|, i requires 0 <= i < |s| => ToByte(s[i]))
  }

  function Shown(b: Bytes): (s: string)
    ensures |s| == |b|
  {
    seq(|b|, i requires 0 <= i < |b| => b[i] as char)
  }

  lemma ByteShown(b: bv8)
    ensures ToByte(b as char) == b
  {
    var n := b as int;
    assert n as bv8 == b;
    assert (b as char) as int == n;
  }

  lemma RawShown(b: Bytes)
    ensures Raw(Shown(b)) == b
  {
    hide ToByte;
    forall i | 0 <= i < |b| ensures Raw(Shown(b))[i] == b[i] {
      ByteShown(b[i]);
    }
  }

  // ---------- the challenge ----------

  /** What stands behind the name of the scheme, and one blank, in a header value. */
  function ChallengeIn(text: string): Option<Bytes> {
    B.Decode(Raw(text))
  }

  /** A message is made: the challenge is long enough, and has a target info if the profile needs one. */
  predicate Answered(creds: N.Credentials, text: string) {
    var c := ChallengeIn(text);
    c.Some? && |c.value| > 24 && !(creds.profile.ntlm2 && N.InfoOf(c.value) == [])
  }

  /** The scan of the challenge ends, and the message fits its buffer; nothing is said of other challenges. */
  predicate Manageable(creds: N.Credentials, text: string) {
    var c := ChallengeIn(text);
    c.Some? && |c.value| > 24 ==> |c.value| <= 65535 && N.LeavesRoom(creds.profile, N.InfoOf(c.value))
  }

  /** What is read from the sixth character of a header value on; of a shorter one, whatever is in memory behind it. */
  function Behind(value: string, memory: string): string {
    if |value| >= |PREFIX| then value[|PREFIX|..] else memory
  }

  /** The header value that carries a message. */
  function TokenOf(message: Bytes): string {
    PREFIX + Shown(B.Encode(message, ROOM))
  }

  lemma KeptWhole(n: nat)
    requires 0 < n <= 1024
    ensures B.Kept(n, ROOM) == n
  {
    B.WholeInputWhen(n, ROOM);
  }

  /** A server that decodes what stands behind the prefix has the message. */
  lemma TokenIsRead(message: Bytes)
    requires 0 < |message| <= 1024
    ensures var token := TokenOf(message);
            |token| >= 5 && token[..5] == "NTLM " && ChallengeIn(token[5..]) == Some(message)
  {
    hide B.Decode, B.Encode, B.Kept;
    var text := B.Encode(message, ROOM);
    assert TokenOf(message)[|PREFIX|..] == Shown(text);
    RawShown(text);
    B.DecodeEncode(message, ROOM);
    KeptWhole(|message|);
    assert message[..|message|] == message;
  }

  /** A message in the Base64 of the standard is decoded whole. */
  lemma StandardIsDecoded(message: Bytes)
    requires message != []
    ensures ChallengeIn(Shown(B.Standard(message))) == Some(message)
  {
    hide B.Decode, B.Encode, B.Kept, B.Standard;
    var n := |message|;
    var room := 4 * (n / 3) + 7;
    B.WholeInputWhen(n, room);
    B.EncodeIsStandard(message, room);
    B.DecodeEncode(message, room);
    RawShown(B.Standard(message));
    assert message[..n] == message;
  }

  /** The fields of the message that answers a challenge. */
  function Answer(sb: Des.SBoxes, creds: N.Credentials, challenge: Bytes, time: Bytes, nonce: Bytes): Fields
    requires N.Usable(creds) && |challenge| > 24 && |time| == |nonce| == 8
  {
    N.FieldsOf(sb, creds, challenge, nonce, Blob(time, nonce, N.InfoOf(challenge)))
  }

  lemma AnswerFits(sb: Des.SBoxes, creds: N.Credentials, challenge: Bytes, time: Bytes, nonce: Bytes)
    requires N.Usable(creds) && |challenge| > 24 && |time| == |nonce| == 8
    requires N.LeavesRoom(creds.profile, N.InfoOf(challenge))
    ensures Fits(Answer(sb, creds, challenge, time, nonce))
    ensures 64 <= Length(Answer(sb, creds, challenge, time, nonce)) <= 1024
  {
    hide N.LmResponse, N.NtResponse, N.InfoOf;
    N.ResponseLengths(sb, creds, challenge, time, nonce);
  }

  /** The token for a challenge. */
  function Token(sb: Des.SBoxes, creds: N.Credentials, challenge: Bytes, time: Bytes, nonce: Bytes): string
    requires N.Usable(creds) && |challenge| > 24 && N.LeavesRoom(creds.profile, N.InfoOf(challenge))
    requires |time| == |nonce| == 8
  {
    AnswerFits(sb, creds, challenge, time, nonce);
    TokenOf(Sent(Answer(sb, creds, challenge, time, nonce)))
  }

  /** A token for that challenge, made at some time and with some nonce. */
  ghost predicate IsTokenFor(sb: Des.SBoxes, creds: N.Credentials, text: string, token: string) {
    && N.Usable(creds) && Answered(creds, text) && Manageable(creds, text)
    && exists time: Bytes, nonce: Bytes | |time| == |nonce| == 8 ::
         token == Token(sb, creds, ChallengeIn(text).value, time, nonce)
  }

  lemma SentPrefix(f: Fields, buf: Bytes)
    requires Fits(f) && |buf| == 1024 && Filled(buf, Written(f))
    ensures Length(f) <= 1024 && buf[..Length(f)] == Sent(f)
  {
    hide Head;
    assert |Written(f)| >= Length(f);
  }

  /**
   From the text behind the scheme in a Proxy-Authenticate header to a token. One is made exactly of a challenge that
   is Base64 for more than 24 bytes and, for an NTLMv2 profile, has a target info.
   */
  method MakeToken(sb: Des.SBoxes, creds: N.Credentials, text: string, time: Bytes, nonce: Bytes)
      returns (token: Option<string>)
    requires N.Usable(creds) && Manageable(creds, text) && |time| == |nonce| == 8
    ensures token.Some? <==> var c := ChallengeIn(text);
                             c.Some? && |c.value| > 24 && (creds.profile.ntlm2 ==> N.InfoOf(c.value) != [])
    ensures token.Some? ==> token.value == Token(sb, creds, ChallengeIn(text).value, time, nonce)
    ensures token.Some? ==> IsTokenFor(sb, creds, text, token.value)
  {
    hide B.Decode, B.Encode, N.InfoOf, N.LeavesRoom, N.LmResponse, N.NtResponse, N.FieldsOf, Filled, Written, Sent,
         Fits, Length;
    token := None;
    var buffer := new bv8[|text| + 6](_ => 0);
    var len := B.FromBase64(buffer, Raw(text));
    if len <= 24 { return; }
    var challenge := buffer[..len];
    var dst, length := N.NtlmResponse(sb, challenge, creds, time, nonce);
    if dst == null { return; }
    AnswerFits(sb, creds, challenge, time, nonce);
    ghost var f := Answer(sb, creds, challenge, time, nonce);
    SentPrefix(f, dst[..]);
    var message := dst[..length];
    assert message == Sent(f);
    var out := new bv8[ROOM](_ => 0);
    B.ToBase64(out, message, ROOM);
    var n := |B.Encode(message, ROOM)|;
    assert out[..n] == (out[..n + 1])[..n] == B.Encode(message, ROOM);
    token := Some(PREFIX + Shown(out[..n]));
    assert token.value == Token(sb, creds, ChallengeIn(text).value, time, nonce);
  }

  /**
   What stands behind the prefix of a token for an NTLMv2 profile is Base64 for a message whose NT response is a code,
   under the hash that a server shares with cntlm, over its own challenge and the bytes behind the code; the target
   info the server sent stands in them.
   */
  lemma TokenIsAccepted(sb: Des.SBoxes, creds: N.Credentials, challenge: Bytes, time: Bytes, nonce: Bytes)
    requires N.Usable(creds) && |challenge| > 24 && N.LeavesRoom(creds.profile, N.InfoOf(challenge))
    requires |time| == |nonce| == 8 && creds.profile.ntlm2 && creds.profile.nt == 0
    ensures var message := ChallengeIn(Token(sb, creds, challenge, time, nonce)[|PREFIX|..]);
            && message.Some? && |message.value| >= 64
            && var nt := Field(message.value, 20);
            && nt.Some? && |nt.value| >= 44
            && nt.value[..16] == Hmac.Hmac(creds.passntlm2[..16], ServerChallenge(challenge) + nt.value[16..])
            && StandsAt(nt.value, 44, N.InfoOf(challenge))
  {
    hide B.Decode, B.Encode, N.InfoOf, N.LmResponse, N.NtResponse, N.FieldsOf, Sent, Fits, Length, Field, Hmac.Hmac,
         StandsAt, TokenOf;
    AnswerFits(sb, creds, challenge, time, nonce);
    TokenIsRead(Sent(Answer(sb, creds, challenge, time, nonce)));
    N.ServerAccepts(sb, creds, challenge, time, nonce);
  }

  lemma TokenBegins(sb: Des.SBoxes, creds: N.Credentials, challenge: Bytes, time: Bytes, nonce: Bytes)
    requires N.Usable(creds) && |challenge| > 24 && N.LeavesRoom(creds.profile, N.InfoOf(challenge))
    requires |time| == |nonce| == 8
    ensures var token := Token(sb, creds, challenge, time, nonce);
            |token| >= |PREFIX| && Behind(token, []) == token[|PREFIX|..]
  {
    hide N.InfoOf, N.LmResponse, N.NtResponse, N.FieldsOf, Sent, B.Encode;
  }
}
