/** What ntlm_response of cntlm-0.92.3/ntlm.c reads and computes, against the definitions of MS-NLMP. */
module NtlmStandard {
  import A = AuthMessage
  import opened ByteOrder
  import Des
  import DesProperties
  import DesRefinement
  import opened Digest
  import Fips46
  import Hmac
  import K = NtlmKey
  import N = NtlmResponse
  import S = MsNlmp
  import opened Options
  import T = TargetInfo

  // ---------- reading the challenge ----------

  lemma PartsStand(c: S.Challenge)
    requires S.IsChallenge(c)
    ensures var m := S.Message(c);
            && StandsAt(m, 20, c.flags) && StandsAt(m, 24, c.server) && StandsAt(m, 40, S.PlaceBytes(c.targetInfo))
  {
    hide StandsAt, S.PlaceBytes, Put32;
    var m := S.Message(c);
    var p0 := S.MESSAGE_SIGNATURE + Put32(2) + S.PlaceBytes(c.targetName);
    var p1 := p0 + c.flags;
    var p2 := p1 + c.server;
    var p3 := p2 + c.reserved;
    var p4 := p3 + S.PlaceBytes(c.targetInfo);
    assert m == p4 + c.payload;
    WholeStands(m);
    BothStand(m, 0, p4, c.payload);
    BothStand(m, 0, p3, S.PlaceBytes(c.targetInfo));
    BothStand(m, 0, p2, c.reserved);
    BothStand(m, 0, p1, c.server);
    BothStand(m, 0, p0, c.flags);
  }

  lemma WholeStands(m: Bytes)
    ensures StandsAt(m, 0, m)
  {
  }

  /** The server's challenge and the flags of a CHALLENGE message are those that are read. */
  lemma ChallengeIsRead(c: S.Challenge)
    requires S.IsChallenge(c)
    ensures var m := S.Message(c);
            && |m| > 24 && A.ServerChallenge(m) == c.server && m[20..24] == c.flags
  {
    hide S.Message;
    PartsStand(c);
    var m := S.Message(c);
    assert (m + Zeros(8))[24..32] == m[24..32];
  }

  lemma OffsetIsRead(c: S.Challenge)
    requires S.IsChallenge(c) && c.targetInfo.offset < 0x1_0000
    ensures Get16(S.Message(c), 44) == c.targetInfo.offset
  {
    hide S.Message, StandsAt, Put16, Get16;
    PartsStand(c);
    var m, p := S.Message(c), c.targetInfo;
    BothStand(m, 40, Put16(p.len) + Put16(p.maxLen), Put32(p.offset));
    BothStand(m, 44, Put16(p.offset % 0x1_0000), Put16(p.offset / 0x1_0000));
    GetPut16(m, 44, p.offset);
  }

  /** The target info of a CHALLENGE message is the one that is taken. */
  lemma InfoIsRead(c: S.Challenge, pairs: seq<T.Pair>)
    requires S.IsChallenge(c) && S.HasInfo(c, pairs)
    ensures N.InfoOf(S.Message(c)) == S.Info(pairs)
  {
    hide S.Message, T.InfoLength, T.PairsAt, T.Encoding, Get16;
    var m, ofs := S.Message(c), c.targetInfo.offset;
    OffsetIsRead(c);
    T.TargetInfoIsTaken(m, ofs, pairs);
  }

  // ---------- DES ----------

  function Clean(b: bv8): bv8 {
    b & 0xfe
  }

  /** A key without parity bits. */
  function CleanKey(key: Des.Bytes8): Des.Bytes8 {
    [Clean(key[0]), Clean(key[1]), Clean(key[2]), Clean(key[3]), Clean(key[4]), Clean(key[5]), Clean(key[6]),
     Clean(key[7])]
  }

  lemma CleanUpper(b: bv8)
    ensures K.SameUpper7(b, Clean(b))
  {
  }

  lemma CleanSchedule(key: Des.Bytes8)
    ensures Des.Schedule(key) == Des.Schedule(CleanKey(key))
  {
    hide K.SameUpper7, Clean, Des.Schedule;
    CleanUpper(key[0]); CleanUpper(key[1]); CleanUpper(key[2]); CleanUpper(key[3]);
    CleanUpper(key[4]); CleanUpper(key[5]); CleanUpper(key[6]); CleanUpper(key[7]);
    K.SameUpperUnparitied(key, CleanKey(key));
    DesProperties.ParityIgnored(key, CleanKey(key));
  }

  /** The bits of eight bytes, as the table-driven cipher and as the standard reads them. */
  lemma SameBits(b: Des.Bytes8)
    ensures DesRefinement.Bits(b) == S.Bits64(b)
  {
    var x0, x1, x2, x3 := b[0], b[1], b[2], b[3];
    var x4, x5, x6, x7 := b[4], b[5], b[6], b[7];
    BitsOfBytes(x0, x1, x2, x3, x4, x5, x6, x7);
    assert b == [x0, x1, x2, x3, x4, x5, x6, x7];
  }

  lemma BitsOfBytes(x0: bv8, x1: bv8, x2: bv8, x3: bv8, x4: bv8, x5: bv8, x6: bv8, x7: bv8)
    ensures DesRefinement.Bits([x0, x1, x2, x3, x4, x5, x6, x7]) == S.Bits64([x0, x1, x2, x3, x4, x5, x6, x7])
  {
  }

  /** The eight key bytes made of seven are the 56 bits in groups of seven, parity bits aside. */
  lemma SpreadIsWidened(k: K.Slice)
    ensures S.Bits64(CleanKey(K.SpreadKey(k))) == S.Widened(S.Bits56(k))
  {
    SpreadOfBytes(k[0], k[1], k[2], k[3], k[4], k[5], k[6]);
    assert k == [k[0], k[1], k[2], k[3], k[4], k[5], k[6]];
  }

  lemma SpreadOfBytes(x0: bv8, x1: bv8, x2: bv8, x3: bv8, x4: bv8, x5: bv8, x6: bv8)
    ensures var k := [x0, x1, x2, x3, x4, x5, x6];
            S.Bits64(CleanKey(K.SpreadKey(k))) == S.Widened(S.Bits56(k))
  {
  }

  /** One third of a response is the standard's DES of a 56-bit key. */
  lemma ThirdIsDes(k: K.Slice, data: Des.Bytes8)
    ensures S.Bits64(Des.Encrypt(Des.TABLES, K.SpreadKey(k), data)) == S.Des(k, data)
  {
    hide Des.Schedule, Des.Crypt, K.SpreadKey, CleanKey, S.Bits64, S.Bits56, S.Widened, DesRefinement.Bits,
         Fips46.Cipher, Fips46.EncipherKeys;
    var key := K.SpreadKey(k);
    CleanSchedule(key);
    assert Des.Encrypt(Des.TABLES, key, data) == Des.Encrypt(Des.TABLES, CleanKey(key), data);
    DesRefinement.ImplementsStandard(CleanKey(key), data);
    SameBits(Des.Encrypt(Des.TABLES, key, data));
    SameBits(CleanKey(key));
    SameBits(data);
    SpreadIsWidened(k);
  }

  /** The hash of a password is followed by the zeros that fill it up. */
  predicate FilledUp(hash: Bytes) {
    |hash| >= 21 && hash[16..21] == [0, 0, 0, 0, 0]
  }

  /** A 24-byte response is DESL of the 16-byte hash. */
  lemma ResponseIsDesl(hash: Bytes, data: Des.Bytes8)
    requires FilledUp(hash)
    ensures S.IsDesl(hash[..16], data, K.CalcResp(Des.TABLES, hash, data))
  {
    hide Des.Encrypt, K.SpreadKey, S.Bits64, S.Des;
    var key := hash[..16];
    assert K.Third(hash, 0) == key[0..7] && K.Third(hash, 1) == key[7..14];
    assert K.Third(hash, 2) == key[14..16] + [0, 0, 0, 0, 0];
    ThirdIsDes(K.Third(hash, 0), data);
    ThirdIsDes(K.Third(hash, 1), data);
    ThirdIsDes(K.Third(hash, 2), data);
    ThreeSlices(Des.Encrypt(Des.TABLES, K.SpreadKey(K.Third(hash, 0)), data),
                Des.Encrypt(Des.TABLES, K.SpreadKey(K.Third(hash, 1)), data),
                Des.Encrypt(Des.TABLES, K.SpreadKey(K.Third(hash, 2)), data));
  }

  lemma ThreeSlices(a: Bytes, b: Bytes, c: Bytes)
    requires |a| == |b| == |c| == 8
    ensures (a + b + c)[0..8] == a && (a + b + c)[8..16] == b && (a + b + c)[16..24] == c
  {
  }

  // ---------- the responses ----------

  lemma BlobIsTemp(time: Bytes, nonce: Bytes, info: Bytes)
    requires |time| == |nonce| == 8
    ensures A.Blob(time, nonce, info) == S.Temp(time, nonce, info)
  {
    assert Zeros(4) == [0, 0, 0, 0];
    assert A.BLOB_SIGNATURE + Zeros(4) == [1, 1] + [0, 0, 0, 0, 0, 0];
  }

  /** What the LM field of the answer to a server holds, by the profile of the client. */
  predicate IsLm(creds: N.Credentials, server: Bytes, nonce: Bytes, lm: Bytes)
    requires N.Usable(creds)
  {
    var p := creds.profile;
    if p.lm then S.IsDesl(creds.passlm[..16], server, lm)
    else if p.nt == 2 then lm == nonce + [0, 0, 0, 0, 0, 0, 0, 0, 0, 0, 0, 0, 0, 0, 0, 0]
    else if p.ntlm2 then lm == S.LmChallengeResponse(creds.passntlm2[..16], server, nonce)
    else lm == []
  }

  /** What the NT field holds. */
  predicate IsNt(creds: N.Credentials, server: Bytes, time: Bytes, nonce: Bytes, info: Bytes, nt: Bytes)
    requires N.Usable(creds)
  {
    var p := creds.profile;
    if p.nt == 1 then S.IsDesl(creds.passnt[..16], server, nt)
    else if p.nt == 2 then S.IsDesl(creds.passnt[..16], S.SessionNonce(server, nonce), nt)
    else if p.ntlm2 then nt == S.NtChallengeResponse(creds.passntlm2[..16], server, S.Temp(time, nonce, info))
    else nt == []
  }

  predicate Complete(creds: N.Credentials) {
    N.Usable(creds) && FilledUp(creds.passlm) && FilledUp(creds.passnt)
  }

  lemma SixteenZeros()
    ensures Zeros(16) == [0, 0, 0, 0, 0, 0, 0, 0, 0, 0, 0, 0, 0, 0, 0, 0]
  {
  }

  /**
   The LM response to a CHALLENGE message: DESL of the LM hash over the server's challenge, the client's own challenge
   with session security, or a code over both challenges with NTLMv2.
   */
  lemma LmIsStandard(creds: N.Credentials, c: S.Challenge, nonce: Bytes)
    requires Complete(creds) && S.IsChallenge(c) && |nonce| == 8
    ensures |S.Message(c)| > 24 && IsLm(creds, c.server, nonce, N.LmResponse(Des.TABLES, creds, S.Message(c), nonce))
  {
    hide S.Message, S.IsDesl, K.CalcResp, Hash, Hmac.Hmac, A.ServerChallenge, Zeros;
    ChallengeIsRead(c);
    ResponseIsDesl(creds.passlm, c.server);
    SixteenZeros();
  }

  /**
   The NT response: DESL of the NT hash over the server's challenge, or with session security over both challenges
   hashed, or with NTLMv2 a code over the server's challenge and the client's data, with the data behind it.
   */
  lemma NtIsStandard(creds: N.Credentials, c: S.Challenge, time: Bytes, nonce: Bytes, info: Bytes)
    requires Complete(creds) && S.IsChallenge(c) && |time| == |nonce| == 8
    ensures |S.Message(c)| > 24
            && IsNt(creds, c.server, time, nonce, info,
                    N.NtResponse(Des.TABLES, creds, S.Message(c), nonce, A.Blob(time, nonce, info)))
  {
    hide S.Message, S.IsDesl, K.CalcResp, Hash, Hmac.Hmac, A.Blob, S.Temp, A.ServerChallenge, Zeros;
    ChallengeIsRead(c);
    ResponseIsDesl(creds.passnt, c.server);
    ResponseIsDesl(creds.passnt, S.SessionNonce(c.server, nonce));
    BlobIsTemp(time, nonce, info);
  }

  /** An AUTHENTICATE message as section 2.2.1.3 reads it, with these fields. */
  predicate Reads(message: Bytes, domain: Bytes, user: Bytes, host: Bytes, lm: Bytes, nt: Bytes, flags: Bytes) {
    && |message| >= 64
    && StandsAt(message, 0, S.MESSAGE_SIGNATURE) && StandsAt(message, 8, Put32(3))
    && A.Field(message, 12) == Some(lm) && A.Field(message, 20) == Some(nt)
    && A.Field(message, 28) == Some(domain) && A.Field(message, 36) == Some(user) && A.Field(message, 44) == Some(host)
    && StandsAt(message, 60, flags)
  }

  lemma SignatureStands(f: A.Fields)
    requires A.Fits(f)
    ensures |A.Sent(f)| >= 64 && StandsAt(A.Sent(f), 0, S.MESSAGE_SIGNATURE) && StandsAt(A.Sent(f), 8, Put32(3))
  {
    hide A.Head, A.Sent, StandsAt, Put32;
    A.NamesStand(f);
    A.HeadStands(A.Sent(f), f);
  }

  /** The NT response alone, without LM and NTLMv2, is the one that gets lost; see AuthMessage.FaithfulProfiles. */
  predicate KeepsNt(p: A.Profile) {
    !(p.nt == 1 && !p.lm && !p.ntlm2)
  }

  /** Some answer of this client to the server's challenge, at some time and with some challenge of its own. */
  ghost predicate Answers(message: Bytes, creds: N.Credentials, c: S.Challenge, info: Bytes) {
    && N.Usable(creds)
    && exists time: Bytes, nonce: Bytes, lm: Bytes, nt: Bytes | |time| == |nonce| == 8 ::
         && Reads(message, creds.domain, creds.user, creds.host, lm, nt, c.flags)
         && IsLm(creds, c.server, nonce, lm) && IsNt(creds, c.server, time, nonce, info, nt)
  }

  /**
   For every CHALLENGE message and every profile but one, the message that is sent back reads, by the standard, as an
   AUTHENTICATE message with the client's names, the server's flags, and the responses that the standard defines for the
   eight bytes the server chose.
   */
  lemma ServerReadsAnswer(creds: N.Credentials, c: S.Challenge, time: Bytes, nonce: Bytes)
    requires Complete(creds) && KeepsNt(creds.profile) && S.IsChallenge(c) && |time| == |nonce| == 8
    requires N.LeavesRoom(creds.profile, N.InfoOf(S.Message(c)))
    ensures var m := S.Message(c);
            var info := N.InfoOf(m);
            && |m| > 24
            && var f := N.FieldsOf(Des.TABLES, creds, m, nonce, A.Blob(time, nonce, info));
            && A.Fits(f) && Answers(A.Sent(f), creds, c, info)
  {
    hide S.Message, N.InfoOf, N.LeavesRoom, N.LmResponse, N.NtResponse, A.Blob, A.Sent, A.Field, IsLm, IsNt, StandsAt,
         FilledUp, N.Usable;
    var m, info := S.Message(c), N.InfoOf(S.Message(c));
    LmIsStandard(creds, c, nonce);
    NtIsStandard(creds, c, time, nonce, info);
    ChallengeIsRead(c);
    N.ResponseLengths(Des.TABLES, creds, m, time, nonce);
    N.ServerReadsResponses(Des.TABLES, creds, m, time, nonce);
    var f := N.FieldsOf(Des.TABLES, creds, m, nonce, A.Blob(time, nonce, info));
    NamesAreRead(f);
    SignatureStands(f);
    assert Reads(A.Sent(f), creds.domain, creds.user, creds.host, f.lm, f.nt, c.flags);
  }

  lemma NamesAreRead(f: A.Fields)
    requires A.Fits(f)
    ensures |A.Sent(f)| >= 64
    ensures A.Field(A.Sent(f), 28) == Some(f.domain) && A.Field(A.Sent(f), 36) == Some(f.user)
    ensures A.Field(A.Sent(f), 44) == Some(f.host)
  {
    hide A.Field, A.Sent, StandsAt;
    A.ReadNames(f);
  }

  /**
   A server that shares the NTLMv2 hash accepts the answer: the NT response is a code, under that hash, over the eight
   bytes the server chose and what stands behind the code, and the target info the server sent stands in that.
   */
  lemma ServerAccepts(message: Bytes, creds: N.Credentials, c: S.Challenge, pairs: seq<T.Pair>)
    requires S.IsChallenge(c) && S.HasInfo(c, pairs) && Answers(message, creds, c, S.Info(pairs))
    requires creds.profile.ntlm2 && creds.profile.nt != 1 && creds.profile.nt != 2
    ensures |message| >= 64 && A.Field(message, 20).Some?
    ensures var nt := A.Field(message, 20).value;
            && |nt| >= 44 && nt[..16] == Hmac.Hmac(creds.passntlm2[..16], c.server + nt[16..])
            && StandsAt(nt, 44, S.Info(pairs))
  {
    hide S.Message, S.HasInfo, IsLm, A.Field, Hmac.Hmac, S.Info, S.Temp;
    var info := S.Info(pairs);
    var time: Bytes, nonce: Bytes, lm: Bytes, nt: Bytes :| |time| == |nonce| == 8
      && Reads(message, creds.domain, creds.user, creds.host, lm, nt, c.flags)
      && IsLm(creds, c.server, nonce, lm) && IsNt(creds, c.server, time, nonce, info, nt);
    var temp := S.Temp(time, nonce, info);
    var code := Hmac.Hmac(creds.passntlm2[..16], c.server + temp);
    assert nt == code + temp && nt[..16] == code && nt[16..] == temp;
    InfoInTemp(time, nonce, info);
    N.BehindCode(code, temp, 28, info);
  }

  lemma InfoInTemp(time: Bytes, nonce: Bytes, info: Bytes)
    requires |time| == |nonce| == 8
    ensures |S.Temp(time, nonce, info)| >= 28 && StandsAt(S.Temp(time, nonce, info), 28, info)
  {
    StandsBetween([1, 1] + [0, 0, 0, 0, 0, 0] + time + nonce + [0, 0, 0, 0], info, [0, 0, 0, 0]);
  }
}
