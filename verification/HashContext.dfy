/**
 struct md4_ctx and struct md5_ctx of cntlm-0.92.3/xcrypt.h with the functions that
 update them, proved against the digests of module Digest.
 */
module HashContext {
  import opened Words
  import opened Digest
  import opened WordNumbers
  import ByteOrder
  import Md4
  import Md5

  /** How far a context is: the bytes that have been counted, and those that wait. */
  datatype Progress = Progress(counted: nat, waiting: nat) {
    /** What the counter will be when the waiting bytes are added. */
    function Total(): nat {
      counted + waiting
    }
  }

  /** Blocks passed on at once, or one by one if they are not aligned, and what is left. */
  function Blocks(counted: nat, n: nat, unaligned: bool): Progress {
    var whole := n / 64 * 64;
    Progress(counted + if unaligned then whole else Tally(counted % 0x1_0000_0000, whole), n % 64)
  }

  /** What feeding n bytes does. */
  function Fed(p: Progress, n: nat, unaligned: bool): Progress
    requires p.waiting <= 64
  {
    if p.waiting == 0 then Blocks(p.counted, n, unaligned)
    else if p.waiting + n <= 64 then Progress(p.counted, p.waiting + n)
    else if p.waiting + n < 128 then Progress(p.counted + 64, p.waiting + n - 64)
    else Blocks(p.counted + 128, n - (128 - p.waiting), unaligned)
  }

  /** A piece below 2^32 bytes, or an unaligned one, is counted right. */
  lemma FedExact(p: Progress, n: nat, unaligned: bool)
    requires p.waiting <= 64
    ensures Fed(p, n, unaligned).waiting <= 64
    ensures n < 0x1_0000_0000 || unaligned ==> Fed(p, n, unaligned).Total() == p.Total() + n
    ensures Fed(p, n, unaligned).Total() <= p.Total() + n
  {
    hide Tally;
    WholePart(n);
    TallyExactWhen(p.counted % 0x1_0000_0000, n / 64 * 64);
    if p.waiting + n >= 128 {
      var left := n - (128 - p.waiting);
      WholePart(left);
      TallyExactWhen((p.counted + 128) % 0x1_0000_0000, left / 64 * 64);
    }
  }

  class Context {
    const alg: Algorithm
    var chain: Chain          // fields A, B, C and D
    var total0: nat           // the two 32-bit words of the byte counter
    var total1: nat
    var buflen: nat
    ghost var counted: nat    // what the counter would be if it had no bound
    const buffer: array<bv8>  // 32 words, addressed by bytes

    /** The blocks of `done`, and nothing else, have gone through the compression function. */
    ghost predicate Processed(done: seq<bv8>)
      reads this`chain, this`total0, this`total1, this`counted
    {
      && |done| % 64 == 0
      && chain == Fold(CompressionOf(alg), INIT, done)
      && total0 < 0x1_0000_0000 && total1 < 0x1_0000_0000
      && Count(total0, total1) == counted % 0x1_0000_0000_0000_0000
    }

    ghost function Now(): Progress
      reads this`counted, this`buflen
    {
      Progress(counted, buflen)
    }

    /** The message fed so far: processed blocks, and at most 64 further bytes waiting in the buffer. */
    ghost predicate Absorbed(message: seq<bv8>)
      reads this, buffer
    {
      && buffer.Length == 128 && buflen <= 64 && buflen <= |message|
      && Processed(message[..|message| - buflen])
      && buffer[..buflen] == message[|message| - buflen..]
    }

    lemma Holds(done: seq<bv8>, waiting: seq<bv8>)
      requires Processed(done) && buffer.Length == 128
      requires |waiting| == buflen <= 64 && buffer[..buflen] == waiting
      ensures Absorbed(done + waiting)
    {
      hide Processed;
      var message := done + waiting;
      assert message[..|message| - buflen] == done;
    }

    lemma NothingWaits(message: seq<bv8>)
      requires Absorbed(message) && buflen == 0
      ensures Processed(message) && buffer.Length == 128
    {
      hide Processed;
      assert message[..|message|] == message;
    }

    /** md4_init_ctx and md5_init_ctx. */
    constructor (alg: Algorithm)
      ensures this.alg == alg && Absorbed([]) && Now() == Progress(0, 0) && fresh(buffer)
    {
      hide *;
      this.alg := alg;
      chain := INIT;
      total0, total1 := 0, 0;
      buflen, counted := 0, 0;
      buffer := new bv8[128];
      new;
      Begins();
    }

    lemma Begins()
      requires chain == INIT && total0 == total1 == buflen == counted == 0 && buffer.Length == 128
      ensures Absorbed([]) && Now() == Progress(0, 0)
    {
      hide Fold, CompressionOf, INIT;
      FoldNothing(CompressionOf(alg), INIT);
      var nothing: seq<bv8> := [];
      assert nothing[..0] == nothing && buffer[..0] == nothing[0..];
    }

    /** md4_process_block and md5_process_block: count the bytes, then compress block after block. */
    method ProcessBlock(data: seq<bv8>)
      requires |data| % 64 == 0
      modifies this`chain, this`total0, this`total1
      ensures chain == Fold(CompressionOf(alg), old(chain), data)
      ensures (total0, total1) == Counted(old(total0), old(total1), |data|)
    {
      hide INIT, Fold, CompressionOf, Counted;
      AddTotal(|data|);
      chain := CompressAll(alg, chain, data);
    }

    /** A call of the block function between two whole numbers of blocks. */
    method ProcessMore(data: seq<bv8>, ghost done: seq<bv8>)
      requires Processed(done) && |data| % 64 == 0
      modifies this`chain, this`total0, this`total1, this`counted
      ensures Processed(done + data)
      ensures counted == old(counted) + Tally(old(counted) % 0x1_0000_0000, |data|)
    {
      hide INIT, Fold, CompressionOf, Counted, Count, Tally;
      CounterFollows(total0, total1, counted, |data|);
      WholeBlocks(|done|, |data|);
      FoldAppends(CompressionOf(alg), INIT, done, data);
      ProcessBlock(data);
      counted := counted + Tally(counted % 0x1_0000_0000, |data|);
    }

    method AddTotal(n: nat)
      modifies this`total0, this`total1
      ensures (total0, total1) == Counted(old(total0), old(total1), n)
    {
      total0 := (total0 + n) % 0x1_0000_0000;
      if total0 < n {
        total1 := (total1 + 1) % 0x1_0000_0000;
      }
    }

    /** memcpy into the buffer. */
    method Store(at: nat, bytes: seq<bv8>)
      requires at + |bytes| <= buffer.Length
      modifies buffer
      ensures buffer[..] == old(buffer[..at]) + bytes + old(buffer[at + |bytes|..])
    {
      forall i | 0 <= i < |bytes| {
        buffer[at + i] := bytes[i];
      }
    }

    /**
     md4_process_bytes and md5_process_bytes: feed data of any length. Whether the pointer happens to be aligned
     for 32-bit words decides between two ways through the blocks.
     */
    method ProcessBytes(data: seq<bv8>, unaligned: bool, ghost message: seq<bv8>)
      requires Absorbed(message)
      modifies this`chain, this`total0, this`total1, this`counted, this`buflen, buffer
      ensures Absorbed(message + data) && old(buflen) <= 64
      ensures Now() == Fed(old(Now()), |data|, unaligned)
      ensures |data| < 0x1_0000_0000 ==> Now().Total() == old(Now().Total()) + |data|
    {
      hide Processed, Absorbed, Blocks;
      var rest := data;
      assert message + data[..0] == message;
      FewWait(message);
      FedExact(Now(), |data|, unaligned);
      if buflen != 0 {
        rest := TopUp(data, message);
      }
      ghost var fed := |data| - |rest|;
      if |rest| > 0 {
        FeedEmpty(rest, unaligned, message + data[..fed]);
        assert message + data == (message + data[..fed]) + rest;
      } else {
        NoBlocks(counted, unaligned);
        assert data[..fed] == data;
      }
    }

    /** Nothing waits: complete blocks, and what is left. */
    method FeedEmpty(data: seq<bv8>, unaligned: bool, ghost message: seq<bv8>)
      requires Absorbed(message) && buflen == 0 && |data| > 0
      modifies this`chain, this`total0, this`total1, this`counted, this`buflen, buffer
      ensures Absorbed(message + data) && Now() == Blocks(old(counted), |data|, unaligned)
    {
      hide Processed, Absorbed, Tally;
      WholePart(|data|);
      SmallTally(counted % 0x1_0000_0000);
      var rest := data;
      assert message + data[..0] == message;
      if |rest| >= 64 {
        rest := Bulk(rest, unaligned, message);
        LeftBehind(|data|, |rest|);
      } else {
        NoWholeBlock(|data|);
      }
      ghost var fed := |data| - |rest|;
      if |rest| > 0 {
        KeepTail(rest, message + data[..fed]);
        assert message + data == (message + data[..fed]) + rest;
      } else {
        assert data[..fed] == data;
      }
    }

    /** Bytes are waiting: complete the buffer first, up to both its halves. */
    method TopUp(data: seq<bv8>, ghost message: seq<bv8>) returns (rest: seq<bv8>)
      requires Absorbed(message) && 0 < buflen
      modifies this`chain, this`total0, this`total1, this`counted, this`buflen, buffer
      ensures |rest| <= |data| && rest == data[|data| - |rest|..]
      ensures Absorbed(message + data[..|data| - |rest|])
      ensures old(buflen) <= 64 && |rest| == if old(buflen) + |data| < 128 then 0 else old(buflen) + |data| - 128
      ensures Now() == if old(buflen) + |data| <= 64 then Progress(old(counted), old(buflen) + |data|)
                       else if old(buflen) + |data| < 128 then Progress(old(counted) + 64, old(buflen) + |data| - 64)
                       else Progress(old(counted) + 128, 0)
    {
      hide Processed;
      var leftOver := buflen;
      ghost var done, held := message[..|message| - buflen], message[|message| - buflen..];
      var add := if 128 - leftOver > |data| then |data| else 128 - leftOver;
      Store(leftOver, data[..add]);
      buflen := buflen + add;
      ghost var waiting := held + data[..add];
      assert buffer[..buflen] == waiting;
      rest := data[add..];
      ghost var fed := message + data[..add];
      assert fed == done + waiting;
      Drain(done, waiting);
    }

    /** More than half a buffer waits: process its whole blocks and move what is left to the front. */
    method Drain(ghost done: seq<bv8>, ghost waiting: seq<bv8>)
      requires Processed(done) && buffer.Length == 128
      requires |waiting| == buflen <= 128 && buffer[..buflen] == waiting
      modifies this`chain, this`total0, this`total1, this`counted, this`buflen, buffer
      ensures Absorbed(done + waiting)
      ensures Now() == if old(buflen) <= 64 then old(Now())
                       else if old(buflen) < 128 then Progress(old(counted) + 64, old(buflen) - 64)
                       else Progress(old(counted) + 128, 0)
    {
      hide Processed, Absorbed;
      if buflen > 64 {
        var whole := buflen / 64 * 64;
        WholePart(buflen);
        assert buffer[..whole] == waiting[..whole];
        ProcessMore(buffer[..whole], done);
        buflen := buflen % 64;
        Store(0, buffer[whole..whole + buflen]);
        assert done + waiting == (done + waiting[..whole]) + waiting[whole..];
        Holds(done + waiting[..whole], waiting[whole..]);
      } else {
        Holds(done, waiting);
      }
    }

    /** Complete blocks straight from the input, or by way of the buffer when the input is unaligned. */
    method Bulk(data: seq<bv8>, unaligned: bool, ghost message: seq<bv8>) returns (rest: seq<bv8>)
      requires Absorbed(message) && buflen == 0 && 64 <= |data|
      modifies this`chain, this`total0, this`total1, this`counted, buffer
      ensures |rest| <= |data| && rest == data[|data| - |rest|..] && |rest| <= 64
      ensures Absorbed(message + data[..|data| - |rest|])
      ensures !unaligned ==> |rest| == |data| % 64
                             && counted == old(counted) + Tally(old(counted) % 0x1_0000_0000, |data| / 64 * 64)
      ensures unaligned ==> |rest| > 0 && (|data| - |rest|) % 64 == 0 && counted == old(counted) + |data| - |rest|
    {
      hide Processed, Tally;
      Tally64();
      assert message[..|message|] == message;
      rest := data;
      if unaligned {
        assert message + data[..0] == message;
        while |rest| > 64
          invariant |rest| <= |data| && rest == data[|data| - |rest|..]
          invariant Processed(message + data[..|data| - |rest|])
          invariant |rest| > 0 && (|data| - |rest|) % 64 == 0 && counted == old(counted) + |data| - |rest|
        {
          ghost var fed := |data| - |rest|;
          Store(0, rest[..64]);
          assert buffer[..64] == rest[..64];
          ProcessMore(buffer[..64], message + data[..fed]);
          assert message + data[..fed] + rest[..64] == message + data[..fed + 64];
          rest := rest[64..];
        }
      } else {
        var whole := |rest| / 64 * 64;
        WholePart(|rest|);
        ProcessMore(rest[..whole], message);
        rest := rest[whole..];
      }
      ghost var now := message + data[..|data| - |rest|];
      assert now[..|now|] == now;
    }

    /** Move remaining bytes to the buffer; a full half of it is processed at once. */
    method KeepTail(rest: seq<bv8>, ghost message: seq<bv8>)
      requires Absorbed(message) && buflen == 0 && 0 < |rest| <= 64
      modifies this`chain, this`total0, this`total1, this`counted, this`buflen, buffer
      ensures Absorbed(message + rest)
      ensures Now() == if |rest| < 64 then Progress(old(counted), |rest|) else Progress(old(counted) + 64, 0)
    {
      hide Processed, Tally;
      Tally64();
      assert message[..|message|] == message;
      var leftOver := buflen;
      Store(leftOver, rest);
      leftOver := leftOver + |rest|;
      assert buffer[..leftOver] == rest;
      ghost var now := message + rest;
      if leftOver >= 64 {
        ProcessMore(buffer[..64], message);
        leftOver := leftOver - 64;
        Store(0, buffer[64..64 + leftOver]);
        assert now[..|now|] == now;
      } else {
        assert now[..|now| - leftOver] == message;
      }
      buflen := leftOver;
    }

    /** The last two words of the padded message: the number of bytes so far, times eight, in 64 bits. */
    method StoreLength(at: nat)
      requires at + 8 <= buffer.Length && total0 < 0x1_0000_0000 && total1 < 0x1_0000_0000
      modifies buffer
      ensures buffer[..] == old(buffer[..at]) + LengthWords(total0, total1) + old(buffer[at + 8..])
    {
      hide *;
      ShiftedWords(total0, total1);
      var low := LittleEndian(Number(Shifted(Word(total0))));
      var high := LittleEndian(Number(ShiftedWith(Word(total1), Word(total0))));
      LengthWordsAre(total0, total1);
      ghost var was := buffer[..];
      Store(at, low);
      ghost var once := buffer[..];
      Store(at + 4, high);
      StoredSide(was, at, low, high, once, buffer[..]);
    }

    /** md4_finish_ctx. */
    method FinishMd4(ghost message: seq<bv8>) returns (digest: seq<bv8>)
      requires Absorbed(message)
      modifies this`chain, this`total0, this`total1, buffer
      ensures digest == HashCounted(alg, message, old(Now().Total()))
      ensures old(Now().Total()) == |message| ==> digest == Hash(alg, message)
    {
      hide *;
      CountedRight(alg, message, Now().Total());
      Unfinished(message);
      var bytes := buflen;
      ghost var done, was := message[..|message| - bytes], buffer[..];
      AddTotal(bytes);
      var pad := if bytes >= 56 then 64 + 56 - bytes else 56 - bytes;
      Store(bytes, Fill(pad));
      ghost var filled := buffer[..];
      StoreLength(bytes + pad);
      StoredTwice(was, bytes, Fill(pad), LengthWords(total0, total1), filled, buffer[..]);
      PaddingIs(total0, total1, |message|, counted + bytes, bytes, pad);
      FinalBlocks(alg, message, counted + bytes, done, was[..bytes]);
      ProcessBlock(buffer[..bytes + pad + 8]);
      digest := Output(chain);
    }

    /** md5_finish_ctx. */
    method FinishMd5(ghost message: seq<bv8>) returns (digest: seq<bv8>)
      requires Absorbed(message)
      modifies this`chain, this`total0, this`total1, buffer
      ensures digest == HashCounted(alg, message, old(Now().Total()))
      ensures old(Now().Total()) == |message| ==> digest == Hash(alg, message)
    {
      hide *;
      CountedRight(alg, message, Now().Total());
      Unfinished(message);
      var bytes := buflen;
      ghost var done, was := message[..|message| - bytes], buffer[..];
      var size := if bytes < 56 then 64 / 4 else 64 * 2 / 4;
      AddTotal(bytes);
      StoreLength((size - 2) * 4);
      ghost var pad, sized := (size - 2) * 4 - bytes, buffer[..];
      Store(bytes, Fill((size - 2) * 4 - bytes));
      StoredBefore(was, bytes, Fill(pad), LengthWords(total0, total1), sized, buffer[..]);
      PaddingIs(total0, total1, |message|, counted + bytes, bytes, pad);
      FinalBlocks(alg, message, counted + bytes, done, was[..bytes]);
      ProcessBlock(buffer[..size * 4]);
      digest := Output(chain);
    }

    /** What finishing starts from; adding the waiting bytes makes the counter that of the whole message. */
    lemma Unfinished(message: seq<bv8>)
      requires Absorbed(message)
      ensures buffer.Length == 128 && buflen <= 64 && buflen <= |message| && (|message| - buflen) % 64 == 0
      ensures message == message[..|message| - buflen] + buffer[..][..buflen]
      ensures chain == Fold(CompressionOf(alg), INIT, message[..|message| - buflen])
      ensures Now().Total() == counted + buflen
      ensures var c := Counted(total0, total1, buflen);
              && c.0 < 0x1_0000_0000 && c.1 < 0x1_0000_0000
              && Count(c.0, c.1) == (counted + buflen) % 0x1_0000_0000_0000_0000
    {
      hide Fold, CompressionOf, INIT, Counted, Count, Tally;
      CounterFollows(total0, total1, counted, buflen);
      TallyExactWhen(counted % 0x1_0000_0000, buflen);
    }

    lemma NowMeans()
      ensures Now() == Progress(counted, buflen)
    {
    }

    lemma FewWait(message: seq<bv8>)
      requires Absorbed(message)
      ensures buflen <= 64
    {
    }
  }

  /** The first n bytes of the constant the C file calls fillbuf. */
  function Fill(n: nat): (f: seq<bv8>)
    requires n <= 64
    ensures |f| == n
  {
    ([0x80] + Zeros(63))[..n]
  }

  lemma UniqueModulo32(x: nat, q: nat, r: nat)
    requires x == 0x1_0000_0000 * q + r && r < 0x1_0000_0000
    ensures x / 0x1_0000_0000 == q && x % 0x1_0000_0000 == r
  {
  }

  lemma UniqueModulo64(x: nat, q: nat, r: nat)
    requires x == 0x1_0000_0000_0000_0000 * q + r && r < 0x1_0000_0000_0000_0000
    ensures x % 0x1_0000_0000_0000_0000 == r
  {
  }

  /** Multiplying the two-word counter by eight word by word, with the high bits of the low word carried over. */
  lemma EightTimes(total0: nat, total1: nat, length: nat)
    requires total0 < 0x1_0000_0000 && total1 < 0x1_0000_0000
    requires Count(total0, total1) == length % 0x1_0000_0000_0000_0000
    ensures var w := 8 * length % 0x1_0000_0000_0000_0000;
            && w % 0x1_0000_0000 == total0 * 8 % 0x1_0000_0000
            && w / 0x1_0000_0000 == total1 * 8 % 0x1_0000_0000 + total0 / 0x2000_0000
  {
    var q := length / 0x1_0000_0000_0000_0000;
    var a, b := total0 / 0x2000_0000, total0 % 0x2000_0000;
    var c, d := total1 / 0x2000_0000, total1 % 0x2000_0000;
    UniqueModulo64(8 * length, 8 * q + c, 8 * b + 0x1_0000_0000 * (8 * d + a));
    UniqueModulo32(8 * b + 0x1_0000_0000 * (8 * d + a), 8 * d + a, 8 * b);
    UniqueModulo32(total0 * 8, a, 8 * b);
    UniqueModulo32(total1 * 8, c, 8 * d);
  }

  lemma PadLength(length: nat, bytes: nat, pad: nat)
    requires bytes <= 64 && bytes <= length && (length - bytes) % 64 == 0
    requires pad == if bytes >= 56 then 64 + 56 - bytes else 56 - bytes
    ensures pad == 1 + ZeroCount(length)
  {
  }

  lemma PaddingIs(total0: nat, total1: nat, length: nat, counted: nat, bytes: nat, pad: nat)
    requires total0 < 0x1_0000_0000 && total1 < 0x1_0000_0000
    requires Count(total0, total1) == counted % 0x1_0000_0000_0000_0000
    requires bytes <= 64 && bytes <= length && (length - bytes) % 64 == 0
    requires pad == if bytes >= 56 then 64 + 56 - bytes else 56 - bytes
    ensures Fill(pad) + LengthWords(total0, total1) == PaddingFor(length, counted)
  {
    hide ZeroCount, Count, LittleEndian;
    EightTimes(total0, total1, counted);
    PadLength(length, bytes, pad);
    assert Fill(pad) == [0x80] + Zeros(pad - 1);
  }

  lemma LengthWordsAre(total0: nat, total1: nat)
    ensures LengthWords(total0, total1)
            == LittleEndian(total0 * 8 % 0x1_0000_0000)
                + LittleEndian(total1 * 8 % 0x1_0000_0000 + total0 / 0x2000_0000)
  {
  }

  lemma StoredSide(b: seq<bv8>, at: nat, p: seq<bv8>, q: seq<bv8>, c: seq<bv8>, d: seq<bv8>)
    requires at + |p| + |q| <= |b|
    requires c == b[..at] + p + b[at + |p|..]
    requires d == c[..at + |p|] + q + c[at + |p| + |q|..]
    ensures d == b[..at] + (p + q) + b[at + |p| + |q|..]
  {
  }

  /** Two stretches stored one after the other. */
  lemma StoredTwice(b: seq<bv8>, at: nat, p: seq<bv8>, q: seq<bv8>, c: seq<bv8>, d: seq<bv8>)
    requires at + |p| + |q| <= |b|
    requires c == b[..at] + p + b[at + |p|..]
    requires d == c[..at + |p|] + q + c[at + |p| + |q|..]
    ensures d[..at + |p| + |q|] == b[..at] + (p + q)
  {
  }

  lemma StoredBefore(b: seq<bv8>, at: nat, p: seq<bv8>, q: seq<bv8>, c: seq<bv8>, d: seq<bv8>)
    requires at + |p| + |q| <= |b|
    requires c == b[..at + |p|] + q + b[at + |p| + |q|..]
    requires d == c[..at] + p + c[at + |p|..]
    ensures d[..at + |p| + |q|] == b[..at] + (p + q)
  {
  }

  lemma HashFolds(alg: Algorithm, message: seq<bv8>, counted: nat)
    ensures HashCounted(alg, message, counted)
            == Output(Fold(CompressionOf(alg), INIT, message + PaddingFor(|message|, counted)))
  {
    hide Output, Fold, CompressionOf, PaddingFor;
  }

  lemma WholeBlocksRemain(done: nat, rest: nat)
    requires done % 64 == 0 && (done + rest) % 64 == 0
    ensures rest % 64 == 0
  {
  }

  /** Compressing what waits, padded, after what is done gives the digest of the message. */
  lemma FinalBlocks(alg: Algorithm, message: seq<bv8>, counted: nat, done: seq<bv8>, waiting: seq<bv8>)
    requires |done| % 64 == 0 && message == done + waiting
    ensures |waiting + PaddingFor(|message|, counted)| % 64 == 0
    ensures var f := CompressionOf(alg);
            Output(Fold(f, Fold(f, INIT, done), waiting + PaddingFor(|message|, counted)))
            == HashCounted(alg, message, counted)
  {
    hide *;
    var tail := waiting + PaddingFor(|message|, counted);
    WholeBlocksRemain(|done|, |tail|);
    assert message + PaddingFor(|message|, counted) == done + tail;
    FoldAppends(CompressionOf(alg), INIT, done, tail);
    HashFolds(alg, message, counted);
  }

  /** The two words at the end of the padding, as numbers: the byte counter times eight. */
  function LengthWords(total0: nat, total1: nat): (b: seq<bv8>)
    ensures |b| == 8
  {
    LittleEndian(total0 * 8 % 0x1_0000_0000)
    + LittleEndian(total1 * 8 % 0x1_0000_0000 + total0 / 0x2000_0000)
  }

  /** The loop of the block functions, one 64-byte block a turn. */
  method CompressAll(alg: Algorithm, start: Chain, data: seq<bv8>) returns (chain: Chain)
    requires |data| % 64 == 0
    ensures chain == Fold(CompressionOf(alg), start, data)
  {
    hide BlockWords, CompressionOf;
    chain := start;
    var words := 0;
    while words < |data|
      invariant 0 <= words <= |data| && words % 64 == 0
      invariant chain == Fold(CompressionOf(alg), start, data[..words])
    {
      var block := data[words..words + 64];
      assert data[..words + 64] == data[..words] + block;
      FoldAppends(CompressionOf(alg), start, data[..words], block);
      FoldOneBlock(CompressionOf(alg), chain, block);
      chain := CompressBlock(alg, chain, BlockWords(block));
      words := words + 64;
    }
    assert data[..words] == data;
  }

  method CompressBlock(alg: Algorithm, s: Chain, x: Block) returns (r: Chain)
    ensures r == CompressionOf(alg)(s, x)
  {
    hide Md4.Compress, Md5.Compress;
    if alg == MD4 {
      r := Md4.CompressBlock(s, x);
    } else {
      r := Md5.CompressBlock(s, x);
    }
  }

  lemma FoldNothing(compress: Compression, s: Chain)
    ensures Fold(compress, s, []) == s
  {
  }

  lemma FoldOneBlock(compress: Compression, s: Chain, block: seq<bv8>)
    requires |block| == 64
    ensures Fold(compress, s, block) == compress(s, BlockWords(block))
  {
    assert block[..64] == block;
    assert block[64..] == [];
  }

  lemma WholePart(n: nat)
    ensures n / 64 * 64 % 64 == 0 && n / 64 * 64 + n % 64 == n
  {
  }

  lemma WholeBlocks(a: nat, b: nat)
    requires a % 64 == 0 && b % 64 == 0
    ensures (a + b) % 64 == 0
  {
  }

  lemma SumModulo(a: nat, n: nat)
    ensures (a % 0x1_0000_0000_0000_0000 + n) % 0x1_0000_0000_0000_0000 == (a + n) % 0x1_0000_0000_0000_0000
  {
    var m := 0x1_0000_0000_0000_0000;
    var q, y := a / m, a % m + n;
    assert a + n == m * (q + y / m) + y % m;
  }

  lemma LowWord(low: nat, high: nat, counted: nat)
    requires low < 0x1_0000_0000 && Count(low, high) == counted % 0x1_0000_0000_0000_0000
    ensures low == counted % 0x1_0000_0000
  {
  }

  lemma CounterFollows(low: nat, high: nat, counted: nat, n: nat)
    requires low < 0x1_0000_0000 && high < 0x1_0000_0000
    requires Count(low, high) == counted % 0x1_0000_0000_0000_0000
    ensures var c := Counted(low, high, n);
            && c.0 < 0x1_0000_0000 && c.1 < 0x1_0000_0000
            && Count(c.0, c.1) == (counted + Tally(counted % 0x1_0000_0000, n)) % 0x1_0000_0000_0000_0000
  {
    hide Count, Counted, Tally;
    LowWord(low, high, counted);
    CountedTally(low, high, n);
    SumModulo(counted, Tally(low, n));
  }

  lemma NoBlocks(counted: nat, unaligned: bool)
    ensures Blocks(counted, 0, unaligned) == Progress(counted, 0)
  {
  }

  lemma NoWholeBlock(n: nat)
    requires n < 64
    ensures n / 64 * 64 == 0 && n % 64 == n
  {
  }

  /** What is left after the blocks of an unaligned stretch: less than a block, or a whole one. */
  lemma LeftBehind(n: nat, left: nat)
    requires left <= n && left <= 64 && (n - left) % 64 == 0
    ensures n / 64 * 64 == if left == 64 then n else n - left
    ensures n % 64 == if left == 64 then 0 else left
  {
  }

  lemma Tally64()
    ensures forall low :: Tally(low, 64) == 64
  {
  }

  lemma SmallTally(low: nat)
    ensures Tally(low, 0) == 0
  {
  }

  // ---------- what a wrong count does ----------

  /** Blocks are counted right exactly if they are passed on one by one, or at most one carry is due. */
  lemma BlocksExactWhen(counted: nat, n: nat, unaligned: bool)
    ensures var whole := n / 64 * 64;
            Blocks(counted, n, unaligned).Total() == counted + n
            <==> unaligned || whole < 0x1_0000_0000 || (counted % 0x1_0000_0000 + whole) / 0x1_0000_0000 == 1
  {
    hide Tally;
    WholePart(n);
    TallyExactWhen(counted % 0x1_0000_0000, n / 64 * 64);
  }

  lemma SameByte(v: nat, w: nat)
    requires v < 0x100 && w < 0x100
    ensures v as bv8 == w as bv8 ==> v == w
  {
    ByteOrder.ByteNumber(v);
    ByteOrder.ByteNumber(w);
  }

  lemma SameWord(v: nat, w: nat)
    requires v < 0x1_0000_0000 && w < 0x1_0000_0000
    ensures LittleEndian(v) == LittleEndian(w) ==> v == w
  {
    if LittleEndian(v) == LittleEndian(w) {
      assert forall i | 0 <= i < 4 :: LittleEndian(v)[i] == LittleEndian(w)[i];
      SameByte(v % 0x100, w % 0x100);
      SameByte(v / 0x100 % 0x100, w / 0x100 % 0x100);
      SameByte(v / 0x1_0000 % 0x100, w / 0x1_0000 % 0x100);
      SameByte(v / 0x100_0000 % 0x100, w / 0x100_0000 % 0x100);
      FourBytes(v);
      FourBytes(w);
    }
  }

  lemma FourBytes(v: nat)
    requires v < 0x1_0000_0000
    ensures v == v % 0x100 + 0x100 * (v / 0x100 % 0x100) + 0x1_0000 * (v / 0x1_0000 % 0x100)
                 + 0x100_0000 * (v / 0x100_0000 % 0x100)
  {
  }

  lemma SameBits(counted: nat, length: nat)
    ensures 8 * counted % 0x1_0000_0000_0000_0000 == 8 * length % 0x1_0000_0000_0000_0000
            <==> counted % 0x2000_0000_0000_0000 == length % 0x2000_0000_0000_0000
  {
  }

  /** The padding is that of the standards exactly if the count and the length are the same modulo 2^61. */
  lemma PaddingIsStandardWhen(length: nat, counted: nat)
    ensures PaddingFor(length, counted) == Padding(length)
            <==> counted % 0x2000_0000_0000_0000 == length % 0x2000_0000_0000_0000
  {
    hide LittleEndian;
    var b, c := 8 * length % 0x1_0000_0000_0000_0000, 8 * counted % 0x1_0000_0000_0000_0000;
    SameBits(counted, length);
    var low, high := LittleEndian(b % 0x1_0000_0000), LittleEndian(b / 0x1_0000_0000);
    var low', high' := LittleEndian(c % 0x1_0000_0000), LittleEndian(c / 0x1_0000_0000);
    var front := [0x80] + Zeros(ZeroCount(length));
    if PaddingFor(length, counted) == Padding(length) {
      assert Padding(length)[|front|..] == low + high;
      assert PaddingFor(length, counted)[|front|..] == low' + high';
      assert low == (low + high)[..4] && low' == (low' + high')[..4];
      assert high == (low + high)[4..] && high' == (low' + high')[4..];
      SameWord(b % 0x1_0000_0000, c % 0x1_0000_0000);
      SameWord(b / 0x1_0000_0000, c / 0x1_0000_0000);
    }
  }

  // ---------- whole messages ----------

  /** md4_buffer and md5_buffer: the digest of a message in one piece. */
  method HashBuffer(alg: Algorithm, message: seq<bv8>, unaligned: bool) returns (digest: seq<bv8>)
    ensures digest == HashCounted(alg, message, Fed(Progress(0, 0), |message|, unaligned).Total())
    ensures |message| < 0x1_0000_0000 ==> digest == Hash(alg, message)
  {
    hide *;
    var ctx := new Context(alg);
    ctx.ProcessBytes(message, unaligned, []);
    assert [] + message == message;
    FromNothing(|message|, unaligned);
    CountedRight(alg, message, Fed(Progress(0, 0), |message|, unaligned).Total());
    if alg == MD4 {
      digest := ctx.FinishMd4(message);
    } else {
      digest := ctx.FinishMd5(message);
    }
  }

  lemma FromNothing(n: nat, unaligned: bool)
    ensures n < 0x1_0000_0000 ==> Fed(Progress(0, 0), n, unaligned).Total() == n
  {
    FedExact(Progress(0, 0), n, unaligned);
  }

  lemma CountedRight(alg: Algorithm, message: seq<bv8>, counted: nat)
    ensures counted == |message| ==> HashCounted(alg, message, counted) == Hash(alg, message)
  {
    hide Hash, CompressionOf, Fold, Output, PaddingFor;
  }

  function Concat(parts: seq<seq<bv8>>): seq<bv8> {
    if |parts| == 0 then [] else Concat(parts[..|parts| - 1]) + parts[|parts| - 1]
  }

  /** How far a context is after some pieces. */
  function FedAll(parts: seq<seq<bv8>>, unaligned: nat -> bool): (p: Progress)
    ensures p.waiting <= 64 && p.Total() <= |Concat(parts)|
    ensures (forall p :: p in parts ==> |p| < 0x1_0000_0000) ==> p.Total() == |Concat(parts)|
  {
    if |parts| == 0 then Progress(0, 0)
    else
      var before, last := parts[..|parts| - 1], parts[|parts| - 1];
      FedExact(FedAll(before, unaligned), |last|, unaligned(|parts| - 1));
      Fed(FedAll(before, unaligned), |last|, unaligned(|parts| - 1))
  }

  /**
   However a message is cut into pieces, and whichever of them are aligned, feeding the pieces one by one and finishing
   gives the digest of the whole message if no piece has 2^32 bytes or more, and otherwise what comes out with the
   length as it has been counted.
   */
  method HashInPieces(alg: Algorithm, parts: seq<seq<bv8>>, unaligned: nat -> bool) returns (digest: seq<bv8>)
    ensures digest == HashCounted(alg, Concat(parts), FedAll(parts, unaligned).Total())
    ensures (forall p :: p in parts ==> |p| < 0x1_0000_0000) ==> digest == Hash(alg, Concat(parts))
  {
    hide *;
    var ctx := new Context(alg);
    NoPieces(parts[..0], unaligned);
    for i := 0 to |parts|
      invariant ctx.Absorbed(Concat(parts[..i])) && ctx.Now() == FedAll(parts[..i], unaligned)
      invariant fresh(ctx) && fresh(ctx.buffer)
    {
      ctx.ProcessBytes(parts[i], unaligned(i), Concat(parts[..i]));
      ConcatStep(parts, i);
      FedStep(parts, unaligned, i);
    }
    assert parts[..|parts|] == parts;
    CountedRight(alg, Concat(parts), FedAll(parts, unaligned).Total());
    if alg == MD4 {
      digest := ctx.FinishMd4(Concat(parts));
    } else {
      digest := ctx.FinishMd5(Concat(parts));
    }
  }

  lemma NoPieces(parts: seq<seq<bv8>>, unaligned: nat -> bool)
    requires |parts| == 0
    ensures Concat(parts) == [] && FedAll(parts, unaligned) == Progress(0, 0)
  {
  }

  lemma FedStep(parts: seq<seq<bv8>>, unaligned: nat -> bool, i: nat)
    requires i < |parts|
    ensures FedAll(parts[..i + 1], unaligned) == Fed(FedAll(parts[..i], unaligned), |parts[i]|, unaligned(i))
  {
    assert parts[..i + 1][..i] == parts[..i];
  }

  lemma ConcatStep(parts: seq<seq<bv8>>, i: nat)
    requires i < |parts|
    ensures Concat(parts[..i + 1]) == Concat(parts[..i]) + parts[i]
  {
    assert parts[..i + 1][..i] == parts[..i];
  }
}
