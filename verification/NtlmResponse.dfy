/** ntlm_response of cntlm-0.92.3/ntlm.c as a whole: from a CHALLENGE message to an AUTHENTICATE message. */
module NtlmResponse {
  import opened ByteOrder
  import opened Options
  import opened AuthMessage
  import opened Digest
  import Des
  import Hmac
  import HashContext
  import NtlmKey
  import TargetInfo

  /** What auth_s holds; names as they are put into a message, hashes with the fill-up bytes of their buffers. */
  datatype Credentials = Credentials(profile: Profile, domain: Bytes, user: Bytes, host: Bytes,
                                     passlm: Bytes, passnt: Bytes, passntlm2: Bytes)

  predicate Usable(creds: Credentials) {
    && |creds.domain| <= 98 && |creds.user| <= 98 && |creds.host| <= 98
    && |creds.passlm| >= 21 && |creds.passnt| >= 21 && |creds.passntlm2| >= 16
  }

  /** A code over the server's challenge and the data, and the data. */
  function Signed(creds: Credentials, challenge: Bytes, data: Bytes): (r: Bytes)
    requires Usable(creds) && |challenge| > 24
    ensures |r| == 16 + |data|
  {
    Hmac.Hmac(creds.passntlm2[..16], ServerChallenge(challenge) + data) + data
  }

  /** The challenge of an NTLM2 session: the server's and the client's eight bytes, hashed. */
  function SessionChallenge(challenge: Bytes, nonce: Bytes): (c: Des.Bytes8)
    requires |challenge| > 24
  {
    Hash(MD5, ServerChallenge(challenge) + nonce)[..8]
  }

  function LmResponse(sb: Des.SBoxes, creds: Credentials, challenge: Bytes, nonce: Bytes): Bytes
    requires Usable(creds) && |challenge| > 24
  {
    if creds.profile.lm then NtlmKey.CalcResp(sb, creds.passlm, ServerChallenge(challenge))
    else if creds.profile.nt == 2 then nonce + Zeros(16)
    else if creds.profile.ntlm2 then Signed(creds, challenge, nonce)
    else []
  }

  function NtResponse(sb: Des.SBoxes, creds: Credentials, challenge: Bytes, nonce: Bytes, blob: Bytes): Bytes
    requires Usable(creds) && |challenge| > 24
  {
    if creds.profile.nt == 1 then NtlmKey.CalcResp(sb, creds.passnt, ServerChallenge(challenge))
    else if creds.profile.nt == 2 then NtlmKey.CalcResp(sb, creds.passnt, SessionChallenge(challenge, nonce))
    else if creds.profile.ntlm2 then Signed(creds, challenge, blob)
    else []
  }

  function FieldsOf(sb: Des.SBoxes, creds: Credentials, challenge: Bytes, nonce: Bytes, blob: Bytes): Fields
    requires Usable(creds) && |challenge| > 24
  {
    Fields(creds.domain, creds.user, creds.host, LmResponse(sb, creds, challenge, nonce),
           NtResponse(sb, creds, challenge, nonce, blob), challenge[20..24])
  }

  /** The target info the scan takes from the challenge. */
  function InfoOf(challenge: Bytes): (info: Bytes) {
    if |challenge| <= 48 then []
    else
      var ofs := Get16(challenge, 44);
      var len := TargetInfo.InfoLength(challenge, ofs);
      if ofs + len <= |challenge| then challenge[ofs..ofs + len] else []
  }

  /** The target info leaves room for the rest of the message, if it is sent at all; see AuthMessage.AllMessagesFit. */
  predicate LeavesRoom(profile: Profile, info: Bytes) {
    |info| <= 594 || !profile.ntlm2 || profile.nt in {1, 2}
  }

  /** A 24-byte response under a DES key hash. */
  method DesResponse(sb: Des.SBoxes, hash: Bytes, challenge: Des.Bytes8) returns (response: Bytes)
    requires |hash| >= 21
    ensures response == NtlmKey.CalcResp(sb, hash, challenge)
  {
    hide NtlmKey.CalcResp;
    var dst := NtlmKey.NtlmCalcResp(sb, hash, challenge);
    response := dst[..24];
  }

  /** ntlm2sr_calc_rest: the client's own eight bytes, and a response to both challenges hashed together. */
  method SessionResponse(sb: Des.SBoxes, passnt: Bytes, challenge: Bytes, nonce: Bytes) returns (nt: Bytes, lm: Bytes)
    requires |passnt| >= 21 && |challenge| > 24 && |nonce| == 8
    ensures lm == nonce + Zeros(16)
    ensures nt == NtlmKey.CalcResp(sb, passnt, SessionChallenge(challenge, nonce))
  {
    hide NtlmKey.CalcResp, Hash;
    lm := nonce + Zeros(16);
    var unaligned: bool := *;
    var sess := HashContext.HashBuffer(MD5, ServerChallenge(challenge) + nonce, unaligned);
    nt := DesResponse(sb, passnt, sess[..8]);
  }

  /** The responses, in the order in which ntlm_response fills them in. */
  method CalcResponses(sb: Des.SBoxes, creds: Credentials, challenge: Bytes, tbofs: nat, tblen: nat,
                       time: Bytes, nonce: Bytes) returns (nt: Bytes, lm: Bytes)
    requires Usable(creds) && 24 < |challenge| <= 65535 && |time| == |nonce| == 8
    requires creds.profile.ntlm2 ==>
             tbofs + tblen <= |challenge| && challenge[tbofs..tbofs + tblen] == InfoOf(challenge)
    ensures lm == LmResponse(sb, creds, challenge, nonce)
    ensures nt == NtResponse(sb, creds, challenge, nonce, Blob(time, nonce, InfoOf(challenge)))
  {
    hide NtlmKey.CalcResp, Hash, Hmac.Hmac, SessionChallenge, Blob, InfoOf, Zeros;
    nt, lm := [], [];
    if creds.profile.ntlm2 {
      nt, lm := Ntlm2CalcResp(creds.passntlm2, challenge, tbofs, tblen, time, nonce);
    }
    if creds.profile.nt == 2 {
      nt, lm := SessionResponse(sb, creds.passnt, challenge, nonce);
    }
    if creds.profile.nt == 1 {
      nt := DesResponse(sb, creds.passnt, ServerChallenge(challenge));
    }
    if creds.profile.lm {
      lm := DesResponse(sb, creds.passlm, ServerChallenge(challenge));
    }
  }

  lemma SliceInside(challenge: Bytes)
    requires |challenge| > 48
    requires TargetInfo.InfoLength(challenge, Get16(challenge, 44)) > 0
    ensures var ofs, len := Get16(challenge, 44), TargetInfo.InfoLength(challenge, Get16(challenge, 44));
            ofs + len <= |challenge| && challenge[ofs..ofs + len] == InfoOf(challenge)
  {
    hide TargetInfo.InfoLength, Get16;
    TargetInfo.SliceIsTargetInfo(challenge, Get16(challenge, 44));
  }

  /**
   ntlm_response. The client's time and nonce are arbitrary. There is no message for an NTLMv2 profile when
   the challenge carries no target info. The caller has made sure that there are more than 24 bytes.
   */
  method NtlmResponse(sb: Des.SBoxes, challenge: Bytes, creds: Credentials, time: Bytes, nonce: Bytes)
      returns (dst: array?<bv8>, len: nat)
    requires Usable(creds) && 24 < |challenge| <= 65535 && |time| == |nonce| == 8
    requires LeavesRoom(creds.profile, InfoOf(challenge))
    ensures dst == null <==> creds.profile.ntlm2 && InfoOf(challenge) == []
    ensures dst == null ==> len == 0
    ensures dst != null ==>
              var f := FieldsOf(sb, creds, challenge, nonce, Blob(time, nonce, InfoOf(challenge)));
              Fits(f) && len == Length(f) && dst.Length == BUFSIZE && Filled(dst[..], Written(f))
  {
    hide TargetInfo.InfoLength, Get16, Written, Filled, LmResponse, NtResponse, Blob;
    var tbofs, tblen := TargetInfo.Scan(challenge);
    if tblen > 0 {
      SliceInside(challenge);
    }
    NoInfo(challenge);
    if creds.profile.ntlm2 && tblen == 0 {
      return null, 0;
    }
    var nt, lm := CalcResponses(sb, creds, challenge, tbofs, tblen, time, nonce);
    ResponseLengths(sb, creds, challenge, time, nonce);
    dst, len := BuildMessage(Fields(creds.domain, creds.user, creds.host, lm, nt, challenge[20..24]));
  }

  lemma NoInfo(challenge: Bytes)
    ensures |challenge| <= 48 || TargetInfo.InfoLength(challenge, Get16(challenge, 44)) == 0 ==> InfoOf(challenge) == []
  {
  }

  lemma ResponseLengths(sb: Des.SBoxes, creds: Credentials, challenge: Bytes, time: Bytes, nonce: Bytes)
    requires Usable(creds) && |challenge| > 24 && |time| == |nonce| == 8
    ensures |LmResponse(sb, creds, challenge, nonce)| == LmLength(creds.profile)
    ensures |NtResponse(sb, creds, challenge, nonce, Blob(time, nonce, InfoOf(challenge)))|
            == NtLength(creds.profile, |InfoOf(challenge)|)
  {
    hide InfoOf, Hash, Hmac.Hmac, NtlmKey.CalcResp;
  }

  /** What a server finds in the message, for every profile but the one with an NT response alone. */
  lemma ServerReadsResponses(sb: Des.SBoxes, creds: Credentials, challenge: Bytes, time: Bytes, nonce: Bytes)
    requires Usable(creds) && |challenge| > 24 && |time| == |nonce| == 8 && LeavesRoom(creds.profile, InfoOf(challenge))
    requires !(creds.profile.nt == 1 && !creds.profile.lm && !creds.profile.ntlm2)
    ensures var blob := Blob(time, nonce, InfoOf(challenge));
            var f := FieldsOf(sb, creds, challenge, nonce, blob);
            && Fits(f)
            && Field(Sent(f), 12) == Some(LmResponse(sb, creds, challenge, nonce))
            && Field(Sent(f), 20) == Some(NtResponse(sb, creds, challenge, nonce, blob))
            && StandsAt(Sent(f), 60, challenge[20..24])
  {
    hide InfoOf, LmResponse, NtResponse, Blob, Sent, Field;
    ResponseLengths(sb, creds, challenge, time, nonce);
    var f := FieldsOf(sb, creds, challenge, nonce, Blob(time, nonce, InfoOf(challenge)));
    FieldsAreRead(f);
    assert f.nt == [] ==> f.nt == Zeros(0);
  }

  /**
   A server that shares the NTLMv2 hash accepts the message: the NT response it reads is a code over its own
   challenge and the bytes behind the code, and the target info it sent stands in them.
   */
  lemma ServerAccepts(sb: Des.SBoxes, creds: Credentials, challenge: Bytes, time: Bytes, nonce: Bytes)
    requires Usable(creds) && |challenge| > 24 && |time| == |nonce| == 8 && LeavesRoom(creds.profile, InfoOf(challenge))
    requires creds.profile.ntlm2 && creds.profile.nt == 0
    ensures var f := FieldsOf(sb, creds, challenge, nonce, Blob(time, nonce, InfoOf(challenge)));
            && Fits(f)
            && var nt := Field(Sent(f), 20);
            && nt.Some? && |nt.value| >= 44
            && nt.value[..16] == Hmac.Hmac(creds.passntlm2[..16], ServerChallenge(challenge) + nt.value[16..])
            && StandsAt(nt.value, 44, InfoOf(challenge))
  {
    hide InfoOf, LmResponse, Blob, Sent, Field, Fits, Hmac.Hmac, StandsAt;
    ServerReadsResponses(sb, creds, challenge, time, nonce);
    var blob := Blob(time, nonce, InfoOf(challenge));
    var nt := Signed(creds, challenge, blob);
    assert nt[16..] == blob;
    InfoInBlob(time, nonce, InfoOf(challenge));
    BehindCode(nt[..16], blob, 28, InfoOf(challenge));
    assert nt == nt[..16] + blob;
  }

  lemma InfoInBlob(time: Bytes, nonce: Bytes, info: Bytes)
    requires |time| == |nonce| == 8
    ensures StandsAt(Blob(time, nonce, info), 28, info)
  {
    StandsBetween(BLOB_SIGNATURE + Zeros(4) + time + nonce + Zeros(4), info, Zeros(4));
  }

  lemma BehindCode(code: Bytes, blob: Bytes, at: nat, info: Bytes)
    requires StandsAt(blob, at, info)
    ensures StandsAt(code + blob, |code| + at, info)
  {
    assert (code + blob)[|code| + at..|code| + at + |info|] == blob[at..at + |info|];
  }
}
