/**
 The messages and responses of MS-NLMP, the NT LAN Manager authentication protocol, as the standard defines them: the
 CHALLENGE message of section 2.2.1.2 and the computations of sections 3.3.1, 3.3.2 and 6.
 */
module MsNlmp {
  import opened ByteOrder
  import opened Digest
  import Fips46
  import Hmac
  import T = TargetInfo

  const MESSAGE_SIGNATURE: Bytes := [0x4e, 0x54, 0x4c, 0x4d, 0x53, 0x53, 0x50, 0]  // "NTLMSSP\0"

  // ---------- section 2.2.1.2 ----------

  /** Two lengths and an offset: where in a message a field stands. */
  datatype Place = Place(len: nat, maxLen: nat, offset: nat)

  predicate IsPlace(p: Place) {
    p.len < 0x1_0000 && p.maxLen < 0x1_0000 && p.offset < 0x1_0000_0000
  }

  function PlaceBytes(p: Place): (b: Bytes)
    requires IsPlace(p)
    ensures |b| == 8
  {
    Put16(p.len) + Put16(p.maxLen) + Put32(p.offset)
  }

  /** The fields of a CHALLENGE message; what follows them holds the version, the target name and the target info. */
  datatype Challenge = Challenge(targetName: Place, flags: Bytes, server: Bytes, reserved: Bytes, targetInfo: Place,
                                 payload: Bytes)

  predicate IsChallenge(c: Challenge) {
    && IsPlace(c.targetName) && IsPlace(c.targetInfo)
    && |c.flags| == 4 && |c.server| == 8 && |c.reserved| == 8
  }

  function Message(c: Challenge): (m: Bytes)
    requires IsChallenge(c)
    ensures |m| == 48 + |c.payload|
  {
    MESSAGE_SIGNATURE + Put32(2) + PlaceBytes(c.targetName) + c.flags + c.server + c.reserved
    + PlaceBytes(c.targetInfo) + c.payload
  }

  /** The attribute-value pairs with the mark of their end, as section 2.2.2.1 writes them. */
  function Info(pairs: seq<T.Pair>): Bytes {
    T.Encoding(pairs) + [0, 0, 0, 0]
  }

  /** The target info stands where its place says, which is in the payload and below 2^16. */
  predicate HasInfo(c: Challenge, pairs: seq<T.Pair>)
    requires IsChallenge(c)
  {
    && pairs != [] && c.targetInfo.len == |Info(pairs)|
    && 48 <= c.targetInfo.offset < 0x1_0000
    && StandsAt(Message(c), c.targetInfo.offset, Info(pairs))
  }

  // ---------- section 6: DES and DESL ----------

  /** Eight bytes as 64 bits, the first byte in front. */
  function Bits64(b: Bytes): bv64
    requires |b| == 8
  {
    ((b[0] as bv64) << 56) | ((b[1] as bv64) << 48) | ((b[2] as bv64) << 40) | ((b[3] as bv64) << 32)
    | ((b[4] as bv64) << 24) | ((b[5] as bv64) << 16) | ((b[6] as bv64) << 8) | (b[7] as bv64)
  }

  /** Seven bytes as 56 bits. */
  function Bits56(b: Bytes): bv64
    requires |b| == 7
  {
    ((b[0] as bv64) << 48) | ((b[1] as bv64) << 40) | ((b[2] as bv64) << 32) | ((b[3] as bv64) << 24)
    | ((b[4] as bv64) << 16) | ((b[5] as bv64) << 8) | (b[6] as bv64)
  }

  /** Group number i of seven bits, counted from the left, in its place in a key; the bit behind it is for parity. */
  function Group(x: bv64, i: bv6): bv64
    requires i < 8
  {
    ((x >> (49 - 7 * (i as bv8))) & 0x7f) << (57 - 8 * (i as bv8))
  }

  /** A 56-bit key with a zero behind every seven bits. */
  function Widened(x: bv64): bv64 {
    Group(x, 0) | Group(x, 1) | Group(x, 2) | Group(x, 3) | Group(x, 4) | Group(x, 5) | Group(x, 6) | Group(x, 7)
  }

  /** DES(K, D) for a key of seven bytes. */
  function Des(key: Bytes, data: Bytes): bv64
    requires |key| == 7 && |data| == 8
  {
    Fips46.Cipher(Fips46.EncipherKeys(Widened(Bits56(key))), Bits64(data))
  }

  predicate Enciphers(key: Bytes, data: Bytes, result: Bytes) {
    |key| == 7 && |data| == 8 && |result| == 8 && Bits64(result) == Des(key, data)
  }

  /** These 24 bytes are DESL(K, D): the data under the three thirds of a 16-byte key filled up with zeros. */
  predicate IsDesl(key: Bytes, data: Bytes, result: Bytes) {
    && |key| == 16 && |result| == 24
    && Enciphers(key[0..7], data, result[0..8])
    && Enciphers(key[7..14], data, result[8..16])
    && Enciphers(key[14..16] + [0, 0, 0, 0, 0], data, result[16..24])
  }

  // ---------- section 3.3.1 ----------

  /** The challenge that is enciphered when session security is extended: both challenges hashed. */
  function SessionNonce(server: Bytes, client: Bytes): (n: Bytes)
    ensures |n| == 8
  {
    Hash(MD5, server + client)[0..8]
  }

  // ---------- section 3.3.2 ----------

  /** Two version bytes, six zeros, the time, the client's challenge, four zeros, the target info, four zeros. */
  function Temp(time: Bytes, client: Bytes, info: Bytes): Bytes {
    [1, 1] + [0, 0, 0, 0, 0, 0] + time + client + [0, 0, 0, 0] + info + [0, 0, 0, 0]
  }

  /** NTLMv2: the code over the server's challenge and the temp, with the temp behind it. */
  function NtChallengeResponse(key: Bytes, server: Bytes, temp: Bytes): Bytes {
    Hmac.Hmac(key, server + temp) + temp
  }

  /** LMv2: the same over the client's challenge. */
  function LmChallengeResponse(key: Bytes, server: Bytes, client: Bytes): Bytes {
    Hmac.Hmac(key, server + client) + client
  }
}
