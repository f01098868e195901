/**
 The AUTHENTICATE message of ntlm_response, cntlm-0.92.3/ntlm.c, as section 2.2.1.3 of MS-NLMP
 lays it out: five fields, each found through a length and an offset near the start of the message.
 */
module AuthMessage {
  import opened ByteOrder
  import opened Options
  import opened Digest
  import Hmac

  const BUFSIZE: nat := 1024
  const SIGNATURE: Bytes := [0x4e, 0x54, 0x4c, 0x4d, 0x53, 0x53, 0x50, 0]  // "NTLMSSP\0"

  datatype Fields = Fields(domain: Bytes, user: Bytes, host: Bytes, lm: Bytes, nt: Bytes, flags: Bytes)

  /** Where the responses begin. */
  function Responses(f: Fields): nat {
    64 + |f.domain| + |f.user| + |f.host|
  }

  /** The length ntlm_response returns. */
  function Length(f: Fields): nat {
    Responses(f) + |f.lm| + |f.nt|
  }

  /**
   A response is absent or present; an LM field is 24 bytes long if it is there at all. The NT bytes are
   copied 24 bytes after the start of the LM field in any case, and the buffer must have room for them there.
   */
  predicate Fits(f: Fields) {
    (|f.lm| == 0 || |f.lm| == 24) && |f.flags| == 4 && Responses(f) + 24 + |f.nt| <= BUFSIZE
  }

  /** Length twice and offset: one of the eight-byte descriptions of a field. */
  function Header(len: nat, ofs: nat): (h: Bytes)
    requires len <= BUFSIZE && ofs <= 2 * BUFSIZE
    ensures |h| == 8
  {
    Put16(len) + Put16(len) + Put32(ofs)
  }

  /** The description of the session key: no bytes, and a two-byte offset with two zero bytes behind it. */
  function SessionHeader(ofs: nat): (h: Bytes)
    requires ofs <= 2 * BUFSIZE
    ensures |h| == 8
  {
    Put16(0) + Put16(0) + Put16(ofs) + Zeros(2)
  }

  function Head(f: Fields): (h: Bytes)
    requires Fits(f)
    ensures |h| == 64
  {
    SIGNATURE + Put32(3)
    + Header(|f.lm|, Responses(f)) + Header(|f.nt|, Responses(f) + |f.lm|)
    + Header(|f.domain|, 64) + Header(|f.user|, 64 + |f.domain|) + Header(|f.host|, 64 + |f.domain| + |f.user|)
    + SessionHeader(Length(f)) + f.flags
  }

  /** All bytes written; the place of an absent LM field stays zero. */
  function Written(f: Fields): Bytes
    requires Fits(f)
  {
    Head(f) + f.domain + f.user + f.host + f.lm + Zeros(24 - |f.lm|) + f.nt
  }

  // ---------- writing ----------

  /** The buffer starts with the bytes done, and is still zero behind them. */
  ghost predicate Filled(buf: Bytes, done: Bytes) {
    StandsAt(buf, 0, done) && forall i :: |done| <= i < |buf| ==> buf[i] == 0
  }

  /** A store or a memcpy behind what has been written. */
  method Store(buf: array<bv8>, at: nat, bytes: Bytes, ghost done: Bytes)
    requires Filled(buf[..], done) && at == |done| && at + |bytes| <= buf.Length
    modifies buf
    ensures Filled(buf[..], done + bytes)
  {
    ghost var before := buf[..];
    forall i | 0 <= i < |bytes| {
      buf[at + i] := bytes[i];
    }
    assert buf[..|done + bytes|] == before[..|done|] + bytes;
  }

  method StoreHeader(buf: array<bv8>, at: nat, len: nat, ofs: nat, ghost done: Bytes)
    requires Filled(buf[..], done) && at == |done| && at + 8 <= buf.Length
    requires len <= BUFSIZE && ofs <= 2 * BUFSIZE
    modifies buf
    ensures Filled(buf[..], done + Header(len, ofs))
  {
    hide Put16, Put32, Filled;
    Store(buf, at, Put16(len), done);
    Store(buf, at + 2, Put16(len), done + Put16(len));
    Store(buf, at + 4, Put32(ofs), done + Put16(len) + Put16(len));
    assert done + Put16(len) + Put16(len) + Put32(ofs) == done + Header(len, ofs);
  }

  /** Bytes left out by the stores are zero. */
  lemma Skip(buf: Bytes, done: Bytes, n: nat)
    requires Filled(buf, done) && |done| + n <= |buf|
    ensures Filled(buf, done + Zeros(n))
  {
    assert buf[..|done| + n] == buf[..|done|] + Zeros(n);
  }

  lemma NothingDone(buf: Bytes)
    requires forall i :: 0 <= i < |buf| ==> buf[i] == 0
    ensures Filled(buf, [])
  {
  }

  /** The fixed part of the message. */
  method WriteHead(buf: array<bv8>, f: Fields)
    requires Fits(f) && buf.Length == BUFSIZE && Filled(buf[..], [])
    modifies buf
    ensures Filled(buf[..], Head(f))
  {
    hide Put16, Put32, Header, Filled, Zeros;
    var d, u, h := |f.domain|, |f.user|, |f.host|;
    Store(buf, 0, SIGNATURE, []);
    ghost var done := SIGNATURE;
    assert [] + SIGNATURE == SIGNATURE;
    Store(buf, 8, Put32(3), done);
    done := done + Put32(3);
    StoreHeader(buf, 12, |f.lm|, 64 + d + u + h, done);
    done := done + Header(|f.lm|, Responses(f));
    StoreHeader(buf, 20, |f.nt|, 64 + d + u + h + |f.lm|, done);
    done := done + Header(|f.nt|, Responses(f) + |f.lm|);
    StoreHeader(buf, 28, d, 64, done);
    done := done + Header(d, 64);
    StoreHeader(buf, 36, u, 64 + d, done);
    done := done + Header(u, 64 + d);
    StoreHeader(buf, 44, h, 64 + d + u, done);
    done := done + Header(h, 64 + d + u);
    WriteSession(buf, 52, Length(f), done);
    done := done + SessionHeader(Length(f));
    Store(buf, 60, f.flags, done);
  }

  method WriteSession(buf: array<bv8>, at: nat, ofs: nat, ghost done: Bytes)
    requires Filled(buf[..], done) && at == |done| && at + 8 <= buf.Length && ofs <= 2 * BUFSIZE
    modifies buf
    ensures Filled(buf[..], done + SessionHeader(ofs))
  {
    hide Put16, Filled;
    Store(buf, at, Put16(0), done);
    Store(buf, at + 2, Put16(0), done + Put16(0));
    Store(buf, at + 4, Put16(ofs), done + Put16(0) + Put16(0));
    Skip(buf[..], done + Put16(0) + Put16(0) + Put16(ofs), 2);
    assert done + Put16(0) + Put16(0) + Put16(ofs) + Zeros(2) == done + SessionHeader(ofs);
  }

  /** The message part of ntlm_response: the buffer and the number of bytes to send. */
  method BuildMessage(f: Fields) returns (buf: array<bv8>, len: nat)
    requires Fits(f)
    ensures fresh(buf) && buf.Length == BUFSIZE && len == Length(f)
    ensures Filled(buf[..], Written(f))
  {
    hide Head, Zeros, Filled;
    buf := new bv8[BUFSIZE](_ => 0);
    NothingDone(buf[..]);
    WriteHead(buf, f);
    ghost var done := Head(f);
    var at := 64;
    Store(buf, at, f.domain, done);
    at, done := at + |f.domain|, done + f.domain;
    Store(buf, at, f.user, done);
    at, done := at + |f.user|, done + f.user;
    Store(buf, at, f.host, done);
    at, done := at + |f.host|, done + f.host;
    Store(buf, at, f.lm, done);
    done := done + f.lm;
    Skip(buf[..], done, 24 - |f.lm|);
    done := done + Zeros(24 - |f.lm|);
    Store(buf, at + 24, f.nt, done);
    len := 64 + |f.domain| + |f.user| + |f.host| + |f.lm| + |f.nt|;
  }

  // ---------- reading ----------

  /** The message as it is sent: the first bytes of the buffer. */
  function Sent(f: Fields): (m: Bytes)
    requires Fits(f)
    ensures |m| == Length(f)
  {
    Written(f)[..Length(f)]
  }

  /** A field read through its length and offset. */
  function Field(msg: Bytes, at: nat): Option<Bytes>
    requires at + 8 <= |msg|
  {
    var len, ofs := Get16(msg, at), Get32(msg, at + 4);
    if ofs + len <= |msg| then Some(msg[ofs..ofs + len]) else None
  }

  lemma HeaderFinds(msg: Bytes, at: nat, ofs: nat, bytes: Bytes)
    requires |bytes| <= BUFSIZE && ofs <= 2 * BUFSIZE && at + 8 <= |msg|
    requires StandsAt(msg, at, Header(|bytes|, ofs)) && StandsAt(msg, ofs, bytes)
    ensures Field(msg, at) == Some(bytes) && Get32(msg, at + 4) == ofs && Get16(msg, at) == |bytes|
  {
    hide Get16, Get32, Put16, Put32;
    var len := |bytes|;
    BothStand(msg, at, Put16(len) + Put16(len), Put32(ofs));
    BothStand(msg, at, Put16(len), Put16(len));
    GetPut16(msg, at, len);
    GetPut32(msg, at + 4, ofs);
  }

  /** The fixed part, piece by piece. */
  lemma HeadStands(msg: Bytes, f: Fields)
    requires Fits(f) && StandsAt(msg, 0, Head(f))
    ensures StandsAt(msg, 0, SIGNATURE) && StandsAt(msg, 8, Put32(3)) && StandsAt(msg, 60, f.flags)
    ensures StandsAt(msg, 12, Header(|f.lm|, Responses(f)))
    ensures StandsAt(msg, 20, Header(|f.nt|, Responses(f) + |f.lm|))
    ensures StandsAt(msg, 28, Header(|f.domain|, 64))
    ensures StandsAt(msg, 36, Header(|f.user|, 64 + |f.domain|))
    ensures StandsAt(msg, 44, Header(|f.host|, 64 + |f.domain| + |f.user|))
  {
    hide StandsAt, Put32, Header, SessionHeader;
    var p0 := SIGNATURE + Put32(3);
    var p1 := p0 + Header(|f.lm|, Responses(f));
    var p2 := p1 + Header(|f.nt|, Responses(f) + |f.lm|);
    var p3 := p2 + Header(|f.domain|, 64);
    var p4 := p3 + Header(|f.user|, 64 + |f.domain|);
    var p5 := p4 + Header(|f.host|, 64 + |f.domain| + |f.user|);
    var p6 := p5 + SessionHeader(Length(f));
    BothStand(msg, 0, p6, f.flags);
    BothStand(msg, 0, p5, SessionHeader(Length(f)));
    BothStand(msg, 0, p4, Header(|f.host|, 64 + |f.domain| + |f.user|));
    BothStand(msg, 0, p3, Header(|f.user|, 64 + |f.domain|));
    BothStand(msg, 0, p2, Header(|f.domain|, 64));
    BothStand(msg, 0, p1, Header(|f.nt|, Responses(f) + |f.lm|));
    BothStand(msg, 0, p0, Header(|f.lm|, Responses(f)));
    BothStand(msg, 0, SIGNATURE, Put32(3));
  }

  /** Head and fields tile the message when the NT bytes follow the LM bytes at once. */
  lemma SentIsTiled(f: Fields)
    requires Fits(f) && (|f.lm| == 24 || f.nt == [])
    ensures Sent(f) == Head(f) + f.domain + f.user + f.host + f.lm + f.nt
  {
    hide Head;
    var m := Head(f) + f.domain + f.user + f.host + f.lm;
    if |f.lm| == 24 {
      assert m + Zeros(0) + f.nt == m + f.nt;
    } else {
      assert m + f.nt == m;
      assert (m + Zeros(24) + f.nt)[..|m|] == m;
    }
  }

  /** The three names stand one after the other behind the head, and the responses begin right after them. */
  lemma NamesStand(f: Fields)
    requires Fits(f)
    ensures var m := Sent(f);
            && StandsAt(m, 0, Head(f))
            && StandsAt(m, 64, f.domain) && StandsAt(m, 64 + |f.domain|, f.user)
            && StandsAt(m, 64 + |f.domain| + |f.user|, f.host)
  {
    hide Head, StandsAt;
    var m := Sent(f);
    var names := Head(f) + f.domain + f.user + f.host;
    assert StandsAt(m, 0, names) by {
      PrefixStands(names, f.lm + Zeros(24 - |f.lm|) + f.nt, Length(f));
      assert names + (f.lm + Zeros(24 - |f.lm|) + f.nt) == Written(f);
    }
    BothStand(m, 0, Head(f) + f.domain + f.user, f.host);
    BothStand(m, 0, Head(f) + f.domain, f.user);
    BothStand(m, 0, Head(f), f.domain);
  }

  lemma PrefixStands(s: Bytes, t: Bytes, n: nat)
    requires |s| <= n <= |s| + |t|
    ensures StandsAt((s + t)[..n], 0, s)
  {
  }

  lemma LmStands(f: Fields)
    requires Fits(f)
    ensures StandsAt(Sent(f), Responses(f), f.lm)
  {
    hide Head, StandsAt;
    var names := Head(f) + f.domain + f.user + f.host;
    PrefixStands(names + f.lm, Zeros(24 - |f.lm|) + f.nt, Length(f));
    assert names + f.lm + (Zeros(24 - |f.lm|) + f.nt) == Written(f);
    BothStand(Sent(f), 0, names, f.lm);
  }

  /**
   Behind the LM field stand the NT bytes if there is an LM field, and otherwise zeros: the NT bytes are
   beyond the end of the message, or only their tail is.
   */
  lemma NtStands(f: Fields)
    requires Fits(f) && (|f.nt| <= 24 || |f.lm| == 24)
    ensures StandsAt(Sent(f), Responses(f) + |f.lm|, if |f.lm| == 24 then f.nt else Zeros(|f.nt|))
  {
    hide Head;
    var names := Head(f) + f.domain + f.user + f.host;
    if |f.lm| == 24 {
      SentIsTiled(f);
    } else {
      assert Written(f) == names + Zeros(24) + f.nt;
      assert Sent(f) == names + Zeros(|f.nt|);
    }
  }

  lemma ReadNames(f: Fields)
    requires Fits(f)
    ensures Field(Sent(f), 28) == Some(f.domain)
    ensures Field(Sent(f), 36) == Some(f.user)
    ensures Field(Sent(f), 44) == Some(f.host)
    ensures StandsAt(Sent(f), 60, f.flags)
  {
    hide Head, Field, Header, Sent, StandsAt;
    var m := Sent(f);
    NamesStand(f);
    HeadStands(m, f);
    HeaderFinds(m, 28, 64, f.domain);
    HeaderFinds(m, 36, 64 + |f.domain|, f.user);
    HeaderFinds(m, 44, 64 + |f.domain| + |f.user|, f.host);
  }

  lemma ReadLm(f: Fields)
    requires Fits(f)
    ensures Field(Sent(f), 12) == Some(f.lm)
  {
    hide Head, Field, Header, Sent, StandsAt;
    NamesStand(f);
    HeadStands(Sent(f), f);
    LmStands(f);
    HeaderFinds(Sent(f), 12, Responses(f), f.lm);
  }

  lemma ReadNt(f: Fields)
    requires Fits(f) && (|f.nt| <= 24 || |f.lm| == 24)
    ensures Field(Sent(f), 20) == Some(if |f.lm| == 24 then f.nt else Zeros(|f.nt|))
  {
    hide Head, Field, Header, Sent, StandsAt;
    NamesStand(f);
    HeadStands(Sent(f), f);
    NtStands(f);
    HeaderFinds(Sent(f), 20, Responses(f) + |f.lm|, if |f.lm| == 24 then f.nt else Zeros(|f.nt|));
  }

  /**
   Whoever reads the message gets every name, the LM response and the flags as they were put in. The NT
   response comes out right exactly when the message has an LM response, or an NT response of zeros only:
   the profile with an NT response alone sends zeros in its place.
   */
  lemma FieldsAreRead(f: Fields)
    requires Fits(f) && (|f.nt| <= 24 || |f.lm| == 24)
    ensures Field(Sent(f), 28) == Some(f.domain)
    ensures Field(Sent(f), 36) == Some(f.user)
    ensures Field(Sent(f), 44) == Some(f.host)
    ensures Field(Sent(f), 12) == Some(f.lm)
    ensures StandsAt(Sent(f), 60, f.flags)
    ensures Field(Sent(f), 20) == Some(f.nt) <==> |f.lm| == 24 || f.nt == Zeros(|f.nt|)
  {
    hide Field, Sent, StandsAt;
    ReadNames(f);
    ReadLm(f);
    ReadNt(f);
  }

  // ---------- the profiles ----------

  /** Which responses the credentials ask for; nt is 0, 1 or 2. */
  datatype Profile = Profile(ntlm2: bool, nt: nat, lm: bool)

  /** The length of the LM field; later branches overwrite earlier ones. */
  function LmLength(p: Profile): nat {
    if p.lm || p.nt == 2 || p.ntlm2 then 24 else 0
  }

  function NtLength(p: Profile, tblen: nat): nat {
    if p.nt == 1 || p.nt == 2 then 24 else if p.ntlm2 then 16 + 28 + tblen + 4 else 0
  }

  /** The fields of a message for a profile. Names are at most 49 characters of two bytes. */
  predicate FieldsFor(f: Fields, p: Profile, tblen: nat) {
    && |f.domain| <= 98 && |f.user| <= 98 && |f.host| <= 98 && |f.flags| == 4
    && |f.lm| == LmLength(p) && |f.nt| == NtLength(p, tblen)
  }

  /** Every message fits the buffer exactly as long as the target info stays within 594 bytes, or is not sent. */
  lemma AllMessagesFit(p: Profile, tblen: nat)
    ensures (forall f | FieldsFor(f, p, tblen) :: Fits(f)) <==> tblen <= 594 || !p.ntlm2 || p.nt in {1, 2}
  {
    var f := Fields(Zeros(98), Zeros(98), Zeros(98), Zeros(LmLength(p)), Zeros(NtLength(p, tblen)), Zeros(4));
    assert FieldsFor(f, p, tblen);
  }

  /** The NT response is read back whatever it is, exactly if the profile is not the one with an NT response alone. */
  lemma FaithfulProfiles(p: Profile, tblen: nat)
    requires tblen <= 594 || !p.ntlm2 || p.nt in {1, 2}
    ensures (forall f | FieldsFor(f, p, tblen) :: Fits(f) && Field(Sent(f), 20) == Some(f.nt))
            <==> !(p.nt == 1 && !p.lm && !p.ntlm2)
  {
    hide Field, Sent;
    forall f | FieldsFor(f, p, tblen)
      ensures Fits(f)
      ensures Field(Sent(f), 20) == Some(f.nt) <==> |f.lm| == 24 || f.nt == Zeros(|f.nt|)
    {
      FieldsAreRead(f);
    }
    if p.nt == 1 && !p.lm && !p.ntlm2 {
      var nt := seq(24, i requires 0 <= i < 24 => 1 as bv8);
      var f := Fields([], [], [], [], nt, [0, 0, 0, 0]);
      assert nt[0] == 1 && Zeros(24)[0] == 0;
      assert FieldsFor(f, p, tblen);
    }
  }

  // ---------- the NTLMv2 response ----------

  const BLOB_SIGNATURE: Bytes := [1, 1, 0, 0]

  /** The blob of an NTLMv2 response, with the target info of the challenge inside. */
  function Blob(time: Bytes, nonce: Bytes, info: Bytes): (b: Bytes)
    requires |time| == |nonce| == 8
    ensures |b| == 28 + |info| + 4
  {
    BLOB_SIGNATURE + Zeros(4) + time + nonce + Zeros(4) + info + Zeros(4)
  }

  /** The eight bytes the server chose; behind a message that is too short for them its buffer is zero. */
  function ServerChallenge(challenge: Bytes): (c: Bytes)
    requires |challenge| > 24
    ensures |c| == 8
  {
    (challenge + Zeros(8))[24..32]
  }

  /**
   ntlm2_calc_resp: time and nonce are arbitrary; the key is the NTLMv2 hash, of which 16 bytes are used.
   Both results are a code over the server's challenge and the bytes sent along behind it.
   */
  method Ntlm2CalcResp(passnt2: Bytes, challenge: Bytes, tbofs: nat, tblen: nat, time: Bytes, nonce: Bytes)
      returns (nt: Bytes, lm: Bytes)
    requires |passnt2| >= 16 && |time| == |nonce| == 8
    requires 24 < |challenge| <= 65535 && tbofs + tblen <= |challenge|
    ensures var blob := Blob(time, nonce, challenge[tbofs..tbofs + tblen]);
            nt == Hmac.Hmac(passnt2[..16], ServerChallenge(challenge) + blob) + blob
    ensures lm == Hmac.Hmac(passnt2[..16], ServerChallenge(challenge) + nonce) + nonce
    ensures |lm| == 24 && |nt| == 16 + 28 + tblen + 4
  {
    hide Hmac.Hmac, Zeros;
    var blob := new bv8[4 + 4 + 8 + 8 + 4 + tblen + 4 + 1](_ => 0);
    NothingDone(blob[..]);
    ghost var done: Bytes := [];
    Store(blob, 0, BLOB_SIGNATURE, done);
    done := BLOB_SIGNATURE;
    assert [] + BLOB_SIGNATURE == done;
    Skip(blob[..], done, 4);
    done := done + Zeros(4);
    Store(blob, 8, time, done);
    done := done + time;
    Store(blob, 16, nonce, done);
    done := done + nonce;
    Skip(blob[..], done, 4);
    done := done + Zeros(4);
    Store(blob, 28, challenge[tbofs..tbofs + tblen], done);
    done := done + challenge[tbofs..tbofs + tblen];
    Skip(blob[..], done, 4);
    var blen := 28 + tblen + 4;
    assert blob[..blen] == Blob(time, nonce, challenge[tbofs..tbofs + tblen]);
    var unaligned: bool := *;
    var mac := Hmac.HmacMd5(passnt2[..16], ServerChallenge(challenge) + blob[..blen], unaligned);
    nt := mac + blob[..blen];
    mac := Hmac.HmacMd5(passnt2[..16], ServerChallenge(challenge) + nonce, unaligned);
    lm := mac + nonce;
  }
}
