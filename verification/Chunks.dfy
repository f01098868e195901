/**
 data_send and chunked_data_send of cntlm-0.92.3/http.c, and the chunked bodies of section 4.1 of RFC 7230.
 */
module Chunks {
  import opened Messages
  import opened Sockets

  const BLOCK: nat := 2048
  const BUFSIZE: nat := 4096

  /** A string as C sees it: up to the first zero byte. */
  function CString(s: string): (t: string)
    ensures t <= s
  {
    if s == [] || s[0] == 0 as char then [] else [s[0]] + CString(s[1..])
  }

  // ---------- strtol with base 16 ----------

  function HexDigit(c: char): int {
    if '0' <= c <= '9' then c as int - '0' as int
    else if 'a' <= c <= 'f' then c as int - 'a' as int + 10
    else if 'A' <= c <= 'F' then c as int - 'A' as int + 10
    else -1
  }

  predicate IsHex(c: char) {
    HexDigit(c) >= 0
  }

  /** The number of hexadecimal digits in front. */
  function HexCount(s: string): (n: nat)
    ensures n <= |s| && (n < |s| ==> !IsHex(s[n])) && forall i :: 0 <= i < n ==> IsHex(s[i])
  {
    if s == [] || !IsHex(s[0]) then 0 else 1 + HexCount(s[1..])
  }

  function HexValue(digits: string): nat
    requires forall i :: 0 <= i < |digits| ==> IsHex(digits[i])
  {
    if digits == [] then 0
    else
      assert IsHex(digits[|digits| - 1]);
      16 * HexValue(digits[..|digits| - 1]) + HexDigit(digits[|digits| - 1])
  }

  function SpaceCount(s: string): (n: nat)
    ensures n <= |s|
  {
    if s == [] || !IsSpace(s[0]) then 0 else 1 + SpaceCount(s[1..])
  }

  /** The value, and where the number ends; at 0 if there is none. The result is a 64-bit long. */
  function Strtol(s: string): (int, nat) {
    var blank := SpaceCount(s);
    var negative := blank < |s| && s[blank] == '-';
    var sign := blank + if blank < |s| && s[blank] in {'-', '+'} then 1 else 0;
    var prefix := if sign + 2 < |s| && s[sign] == '0' && s[sign + 1] in {'x', 'X'} && IsHex(s[sign + 2]) then 2 else 0;
    var tail := s[sign + prefix..];
    var digits := HexCount(tail);
    if digits == 0 then (0, 0)
    else
      var end := sign + prefix + digits;
      var value := HexValue(tail[..digits]);
      (if negative then (if value > 0x8000_0000_0000_0000 then -0x8000_0000_0000_0000 else 0 - value)
       else (if value > 0x7fff_ffff_ffff_ffff then 0x7fff_ffff_ffff_ffff else value), end)
  }

  /** Assigning a long to an int keeps the low 32 bits. */
  function ToInt(value: int): int {
    (value + 0x8000_0000) % 0x1_0000_0000 - 0x8000_0000
  }

  // ---------- data_send ----------

  /** What a transfer comes to: success or not, the bytes written, and those left unread. */
  datatype Transfer = Transfer(ok: bool, written: string, rest: string) | Undefined

  /** Forwarding a number of bytes, or with -1 everything up to the end of the connection. */
  function Moved(s: string, len: int, orderly: bool): (t: Transfer)
    requires len >= -1
    ensures t.Transfer? && |t.rest| <= |s|
  {
    if len == -1 then Transfer(orderly, s, [])
    else if |s| >= len then Transfer(true, s[..len], s[len..])
    else Transfer(false, s, [])
  }

  method DataSend(dst: Socket?, src: Socket, len: int) returns (rc: bool)
    requires len >= -1 && dst != src
    modifies src`incoming, (if dst == null then {} else {dst})`outgoing
    ensures rc ==> Moved(old(src.incoming), len, src.orderly).ok
                   && src.incoming == Moved(old(src.incoming), len, src.orderly).rest
    ensures dst == null || dst.open ==>
              var t := Moved(old(src.incoming), len, src.orderly);
              && rc == t.ok && src.incoming == t.rest
              && (dst != null ==> dst.outgoing == old(dst.outgoing) + t.written)
  {
    hide Accepted;
    ghost var all, before := src.incoming, if dst == null then [] else dst.outgoing;
    if len == 0 {
      assert all[..0] == [] && all[0..] == all && before + [] == before;
      return true;
    }
    var c: nat := 0;
    var i, j := 1, 1;
    assert all[0..] == all && before + all[..0] == before;
    while i > 0 && j > 0 && (len == -1 || c < len)
      invariant dst == null ==> j == 1
      invariant c <= |all| && src.incoming == all[c..] && (len >= 0 ==> c <= len)
      invariant i <= 0 ==> c == |all| && (len >= 0 ==> c < len) && (src.orderly <==> i == 0)
      invariant dst != null && dst.open ==> j > 0 && dst.outgoing == before + all[..c]
      decreases |src.incoming|, i
    {
      var block := if len == -1 || len - c > BLOCK then BLOCK else len - c;
      var data;
      i, data := src.Read(block);
      ghost var c' := c;
      if i > 0 {
        c := c + i;
      }
      if dst != null {
        var closed := dst.IsClosed();
        if closed {
          i := -999;
          break;
        }
        if i > 0 {
          j := dst.Write(data);
        }
      }
      assert all[..c'] + data == all[..c];
    }
    if i <= 0 || j <= 0 {
      if i == 0 && j > 0 && (len == -1 || c == len) {
        rc := true;
      } else {
        rc := false;
      }
    } else {
      rc := true;
    }
    assert all[..|all|] == all;
  }

  // ---------- chunked_data_send ----------

  /** The sizes for which csize+2 is a length that data_send can handle. */
  predicate UsableSize(csize: int) {
    -3 <= csize <= 0x7fff_ffff - 2
  }

  /** The size in a chunk header, or none if what stands behind the number does not fit. */
  function SizeOf(line: string): (bool, int) {
    var (value, end) := Strtol(line);
    (end < |line| && (IsSpace(line[end]) || line[end] == ';'), ToInt(value))
  }

  function After(written: string, t: Transfer): (t': Transfer)
    ensures t'.Transfer? ==> t.Transfer? && t'.rest == t.rest
  {
    match t
    case Transfer(ok, w, rest) => Transfer(ok, written + w, rest)
    case Undefined => Undefined
  }

  /** The lines behind the last chunk, up to one that begins with a line end. */
  function Trailer(s: string): Transfer {
    var n := LineLength(s);
    if !HasLine(s) then Transfer(true, [], [])
    else
      var line := CString(s[..n]);
      if |line| > 0 && line[0] in {'\r', '\n'} then Transfer(true, line, s[n..])
      else After(line, Trailer(s[n..]))
  }

  /** All that chunked_data_send does; undefined when a size is out of range. */
  function Chunked(s: string, orderly: bool): (t: Transfer)
    decreases |s|
  {
    var n := LineLength(s);
    if !HasLine(s) then Transfer(false, [], [])
    else
      var line := CString(s[..n]);
      var (ok, csize) := SizeOf(line);
      if !ok then Transfer(false, [], s[n..])
      else if csize == 0 then After(line, Trailer(s[n..]))
      else if !UsableSize(csize) then Undefined
      else
        var m := Moved(s[n..], csize + 2, orderly);
        if m.ok then After(line, After(m.written, Chunked(m.rest, orderly))) else After(line, m)
  }

  // Each lemma says what one turn of a loop does to what has been written before it.

  lemma AfterAppends(a: string, b: string, t: Transfer)
    ensures After(a, After(b, t)) == After(a + b, t)
  {
    match t
    case Transfer(_, w, _) => assert a + (b + w) == (a + b) + w;
    case Undefined =>
  }

  lemma LineGoesOn(s: string)
    ensures HasLine(s) ==> 0 < LineLength(s) <= |s|
    ensures !HasLine(s) ==> LineLength(s) == |s|
  {
  }

  /** The first character of the buffer and that of the string in it. */
  lemma CStringFirst(s: string)
    ensures |s| > 0 && s[0] in {'\r', '\n'} <==> |CString(s)| > 0 && CString(s)[0] in {'\r', '\n'}
  {
  }

  lemma TrailerTurn(done: string, s: string)
    ensures var n, line := LineLength(s), CString(s[..LineLength(s)]);
            After(done, Trailer(s)) ==
            if !HasLine(s) then Transfer(true, done, [])
            else if |line| > 0 && line[0] in {'\r', '\n'} then Transfer(true, done + line, s[n..])
            else After(done + line, Trailer(s[n..]))
  {
    hide LineLength, HasLine, CString;
    var n, line := LineLength(s), CString(s[..LineLength(s)]);
    AfterAppends(done, line, Trailer(s[n..]));
    assert done + [] == done;
  }

  lemma ChunkedTurn(done: string, s: string, orderly: bool)
    ensures var n, line := LineLength(s), CString(s[..LineLength(s)]);
            var (ok, csize) := SizeOf(line);
            After(done, Chunked(s, orderly)) ==
            if !HasLine(s) then Transfer(false, done, [])
            else if !ok then Transfer(false, done, s[n..])
            else if csize == 0 then After(done + line, Trailer(s[n..]))
            else if !UsableSize(csize) then Undefined
            else
              var m := Moved(s[n..], csize + 2, orderly);
              if m.ok then After(done + line + m.written, Chunked(m.rest, orderly))
              else Transfer(false, done + line + m.written, m.rest)
  {
    hide LineLength, HasLine, CString, SizeOf, UsableSize, Moved, Trailer;
    LineGoesOn(s);
    var n, line := LineLength(s), CString(s[..LineLength(s)]);
    var (ok, csize) := SizeOf(line);
    assert done + [] == done;
    if HasLine(s) && ok && csize == 0 {
      AfterAppends(done, line, Trailer(s[n..]));
    } else if HasLine(s) && ok && UsableSize(csize) {
      SizeIsLength(csize);
      var m := Moved(s[n..], csize + 2, orderly);
      AfterAppends(done, line, m);
      AfterAppends(line, m.written, Chunked(m.rest, orderly));
      AfterAppends(done, line + m.written, Chunked(m.rest, orderly));
      assert done + (line + m.written) == done + line + m.written;
    }
  }

  lemma SizeIsLength(csize: int)
    requires UsableSize(csize)
    ensures csize + 2 >= -1
  {
  }

  method TrailerSend(dst: Socket?, src: Socket, buf: Buffer)
    requires dst != src && buf.bytes.Length >= 2
    modifies src`incoming, buf, buf.bytes, (if dst == null then {} else {dst})`outgoing
    ensures var t := Trailer(old(src.incoming));
            && t.Transfer? && src.incoming == t.rest
            && (dst != null && dst.open ==> dst.outgoing == old(dst.outgoing) + t.written)
  {
    hide LineLength, HasLine, CString, Trailer, Accepted;
    ghost var before: string := if dst == null then [] else dst.outgoing;
    ghost var done: string := [];
    ghost var all := Trailer(src.incoming);
    NothingDone(all);
    assert before + [] == before;
    while true
      invariant fresh(buf.bytes) || buf.bytes == old(buf.bytes)
      invariant buf.bytes.Length >= 2 && all == After(done, Trailer(src.incoming))
      invariant dst != null && dst.open ==> dst.outgoing == before + done
      decreases |src.incoming|
    {
      ghost var s := src.incoming;
      LineGoesOn(s);
      TrailerTurn(done, s);
      var i, len := RecvLine(src, buf);
      CStringFirst(buf.bytes[..len]);
      var line := CString(buf.bytes[..len]);
      if dst != null && i > 0 {
        var w := dst.Write(line);
      }
      if i > 0 {
        assert before + (done + line) == before + done + line;
        done := done + line;
      }
      if !(i > 0 && buf.bytes[0] != '\r' && buf.bytes[0] != '\n') {
        break;
      }
    }
  }

  lemma NothingDone(t: Transfer)
    ensures After([], t) == t
  {
    match t
    case Transfer(_, w, _) => assert [] + w == w;
    case Undefined =>
  }

  datatype Turn = Bad | Last | More

  /** One turn of the loop over the chunks: a chunk header and, unless it is the last, the chunk. */
  method OneChunk(dst: Socket?, src: Socket, buf: Buffer, ghost all: Transfer, ghost before: string, ghost done: string)
      returns (turn: Turn, ghost done': string)
    requires dst != src && buf.bytes.Length >= 2
    requires all == After(done, Chunked(src.incoming, src.orderly)) && all.Transfer?
    requires dst != null && dst.open ==> dst.outgoing == before + done
    modifies src`incoming, buf, buf.bytes, (if dst == null then {} else {dst})`outgoing
    ensures buf.bytes.Length >= 2 && (fresh(buf.bytes) || buf.bytes == old(buf.bytes))
    ensures turn == More ==>
            all == After(done', Chunked(src.incoming, src.orderly)) && |src.incoming| < |old(src.incoming)|
    ensures turn == Last ==> all == After(done', Trailer(src.incoming))
    ensures turn == Bad && (dst == null || dst.open) ==> all == Transfer(false, done', src.incoming)
    ensures dst != null && dst.open ==> dst.outgoing == before + done'
  {
    hide LineLength, HasLine, CString, SizeOf, Trailer, Chunked, Moved, After, Accepted;
    LineGoesOn(src.incoming);
    ChunkedTurn(done, src.incoming, src.orderly);
    turn, done' := Bad, done;
    var i, len := RecvLine(src, buf);
    if i <= 0 { return; }
    var line := CString(buf.bytes[..len]);
    var (ok, csize) := SizeOf(line);
    if !ok { return; }
    if dst != null {
      var w := dst.Write(line);
    }
    done' := done + line;
    assert before + done' == before + done + line;
    if csize == 0 { return Last, done'; }
    SizeIsLength(csize);
    ghost var m := Moved(src.incoming, csize + 2, src.orderly);
    var sent := DataSend(dst, src, csize + 2);
    assert before + (done' + m.written) == before + done' + m.written;
    done' := done' + m.written;
    if sent {
      turn := More;
    }
  }

  /** The loop over the chunks: it stops behind the last chunk header, or at an error. */
  method ChunksSend(dst: Socket?, src: Socket, buf: Buffer, ghost all: Transfer)
      returns (rc: bool, ghost done: string)
    requires dst != src && buf.bytes.Length >= 2
    requires all == Chunked(src.incoming, src.orderly) && all.Transfer?
    modifies src`incoming, buf, buf.bytes, (if dst == null then {} else {dst})`outgoing
    ensures buf.bytes.Length >= 2 && (fresh(buf.bytes) || buf.bytes == old(buf.bytes))
    ensures rc ==> all == After(done, Trailer(src.incoming))
    ensures !rc && (dst == null || dst.open) ==> all == Transfer(false, done, src.incoming)
    ensures dst != null && dst.open ==> dst.outgoing == old(dst.outgoing) + done
  {
    hide *;
    ghost var before: string := if dst == null then [] else dst.outgoing;
    done := [];
    NothingDone(all);
    assert before + [] == before;
    var turn := More;
    while turn == More
      invariant (fresh(buf.bytes) || buf.bytes == old(buf.bytes)) && buf.bytes.Length >= 2
      invariant turn == More ==> all == After(done, Chunked(src.incoming, src.orderly))
      invariant turn == Last ==> all == After(done, Trailer(src.incoming))
      invariant turn == Bad && (dst == null || dst.open) ==> all == Transfer(false, done, src.incoming)
      invariant dst != null && dst.open ==> dst.outgoing == before + done
      decreases if turn == More then |src.incoming| + 1 else 0
    {
      turn, done := OneChunk(dst, src, buf, all, before, done);
    }
    rc := turn == Last;
  }

  /** chunked_data_send, for sizes the code can handle. */
  method ChunkedDataSend(dst: Socket?, src: Socket) returns (rc: bool)
    requires dst != src && Chunked(src.incoming, src.orderly).Transfer?
    modifies src`incoming, (if dst == null then {} else {dst})`outgoing
    ensures dst == null || dst.open ==>
              var t := Chunked(old(src.incoming), src.orderly);
              && rc == t.ok && src.incoming == t.rest
              && (dst != null ==> dst.outgoing == old(dst.outgoing) + t.written)
  {
    hide LineLength, HasLine, CString, SizeOf, Trailer, Chunked, Moved;
    var buf := new Buffer(BUFSIZE);
    ghost var before: string := if dst == null then [] else dst.outgoing;
    ghost var all := Chunked(src.incoming, src.orderly);
    ghost var done;
    rc, done := ChunksSend(dst, src, buf, all);
    if !rc {
      return;
    }
    ghost var t := Trailer(src.incoming);
    TrailerSucceeds(src.incoming);
    TrailerSend(dst, src, buf);
    assert before + (done + t.written) == before + done + t.written;
  }

  lemma {:induction false} TrailerSucceeds(s: string)
    ensures Trailer(s).Transfer? && Trailer(s).ok
    decreases |s|
  {
    hide CString;
    LineGoesOn(s);
    if HasLine(s) {
      TrailerSucceeds(s[LineLength(s)..]);
    }
  }

  // ---------- when it is undefined ----------

  /** The sizes of chunks that are read one after the other, up to one whose length data_send cannot handle. */
  function Sizes(s: string, orderly: bool): seq<int>
    decreases |s|
  {
    var n := LineLength(s);
    if !HasLine(s) then []
    else
      var (ok, csize) := SizeOf(CString(s[..n]));
      if !ok || csize == 0 then []
      else if !UsableSize(csize) then [csize]
      else
        var m := Moved(s[n..], csize + 2, orderly);
        [csize] + if m.ok then Sizes(m.rest, orderly) else []
  }

  predicate AreUsable(sizes: seq<int>) {
    forall i :: 0 <= i < |sizes| ==> UsableSize(sizes[i])
  }

  lemma FirstUsable(size: int, more: seq<int>)
    ensures AreUsable([size] + more) <==> UsableSize(size) && AreUsable(more)
    ensures AreUsable([])
  {
    var all := [size] + more;
    assert all[0] == size && forall i :: 0 <= i < |more| ==> all[i + 1] == more[i];
  }

  lemma TrailerIsDefined(s: string, line: string)
    ensures After(line, Trailer(s)) != Undefined
  {
    TrailerSucceeds(s);
  }

  /**
   What chunked_data_send does is undefined exactly if it comes to a chunk size below -3, or within two of the largest
   int.
   */
  lemma {:induction false} UndefinedWhen(s: string, orderly: bool)
    ensures Chunked(s, orderly) == Undefined <==> !AreUsable(Sizes(s, orderly))
    decreases |s|
  {
    hide LineLength, HasLine, CString, SizeOf, UsableSize, Trailer, AreUsable;
    LineGoesOn(s);
    FirstUsable(0, []);
    if HasLine(s) {
      var n := LineLength(s);
      var (ok, csize) := SizeOf(CString(s[..n]));
      TrailerIsDefined(s[n..], CString(s[..n]));
      if ok && csize != 0 && UsableSize(csize) {
        SizeIsLength(csize);
        var m := Moved(s[n..], csize + 2, orderly);
        UndefinedWhen(m.rest, orderly);
        FirstUsable(csize, if m.ok then Sizes(m.rest, orderly) else []);
      } else {
        FirstUsable(csize, []);
        assert [csize] + [] == [csize];
      }
    }
  }
}
