/**
 Connections, so_recvln of cntlm-0.92.3/socket.c and data_send of cntlm-0.92.3/http.c. How many bytes one read gives is
 arbitrary.
 */
module Sockets {
  /** What has been written if write gives this number. */
  function Accepted(data: string, n: int): (front: string)
    requires n <= |data|
  {
    data[..if n < 0 then 0 else n]
  }

  /** One end of a connection: what is still to be read before the other side ends it, and what has been written. */
  class Socket {
    const orderly: bool  // it ends with an end of file, and not with an error
    const open: bool     // the other side takes everything that is written
    var incoming: string
    var outgoing: string

    constructor (incoming: string, orderly: bool, open: bool)
      ensures this.incoming == incoming && this.outgoing == [] && this.orderly == orderly && this.open == open
    {
      this.incoming, this.outgoing, this.orderly, this.open := incoming, [], orderly, open;
    }

    /** read: some of the bytes, at least one if there is any; 0 at the end of the connection, or -1. */
    method Read(max: nat) returns (n: int, data: string)
      requires max > 0
      modifies this`incoming
      ensures n > 0 ==> n == |data| <= max && old(incoming) == data + incoming
      ensures n <= 0 ==> data == [] && incoming == old(incoming) == [] && (orderly <==> n == 0)
    {
      if incoming == [] {
        n, data := if orderly then 0 else -1, [];
        return;
      }
      var k: nat := *;
      if k < 1 { k := 1; }
      if k > max { k := max; }
      if k > |incoming| { k := |incoming|; }
      n, data, incoming := k, incoming[..k], incoming[k..];
    }

    /** write on a blocking socket: as much as the result says, and everything as long as the other side is there. */
    method Write(data: string) returns (n: int)
      modifies this`outgoing
      ensures n <= |data|
      ensures open ==> n == |data| && outgoing == old(outgoing) + data
      ensures outgoing == old(outgoing) + Accepted(data, n)
    {
      n := |data|;
      if !open {
        n := *;
        if n > |data| { n := |data|; }
      }
      var k: nat := if n < 0 then 0 else n;
      outgoing := outgoing + data[..k];
      assert data[..|data|] == data;
    }

    /** so_closed, asked before writing. */
    method IsClosed() returns (closed: bool)
      ensures open ==> !closed
    {
      closed := *;
      closed := closed && !open;
    }
  }

  // ---------- so_recvln ----------

  const CRLF := "\r\n"

  /** Text within a line. */
  predicate InLine(s: string) {
    forall i :: 0 <= i < |s| ==> s[i] != '\n' && s[i] != 0 as char
  }

  /** The bytes up to and including the first line feed, or all of them. */
  function LineLength(s: string): (n: nat)
    ensures n <= |s|
    ensures forall i :: 0 <= i < n - 1 ==> s[i] != '\n'
    ensures n < |s| ==> n > 0 && s[n - 1] == '\n'
  {
    if s == [] then 0 else if s[0] == '\n' then 1 else 1 + LineLength(s[1..])
  }

  predicate HasLine(s: string) {
    var n := LineLength(s);
    n > 0 && s[n - 1] == '\n'
  }

  /** So far no line feed has been seen: the line goes on with the line of the rest. */
  predicate Inside(s: string, at: nat) {
    && at <= |s|
    && LineLength(s) == at + LineLength(s[at..])
    && HasLine(s) == HasLine(s[at..])
  }

  lemma InsideStep(s: string, at: nat)
    requires Inside(s, at)
    ensures at < |s| && s[at] == '\n' ==> LineLength(s) == at + 1 && HasLine(s)
    ensures at < |s| && s[at] != '\n' ==> Inside(s, at + 1)
    ensures at == |s| ==> LineLength(s) == at && !HasLine(s)
  {
    if at < |s| {
      assert s[at..][1..] == s[at + 1..];
    }
  }

  lemma InsideStart(s: string)
    ensures Inside(s, 0)
  {
    assert s[0..] == s;
  }

  /** A buffer that its user may replace by a larger one. */
  class Buffer {
    var bytes: array<char>

    constructor (size: nat)
      requires size >= 2
      ensures fresh(bytes) && bytes.Length == size
    {
      bytes := new char[size](_ => 0 as char);
    }

    /** realloc to twice the size. */
    method Grow()
      modifies this
      ensures fresh(bytes) && bytes.Length == 2 * old(bytes.Length)
      ensures bytes[..old(bytes.Length)] == old(bytes[..])
    {
      var previous := bytes;
      bytes := new char[2 * previous.Length](_ => 0 as char);
      forall i | 0 <= i < previous.Length {
        bytes[i] := previous[i];
      }
      assert bytes[..previous.Length] == previous[..];
    }
  }

  /**
   so_recvln: one line, with its line feed, goes into the buffer, which grows as it needs to; a zero byte follows. The
   result is positive if the line feed came, and then nothing behind it has been read.
   */
  method RecvLine(fd: Socket, buf: Buffer) returns (r: int, len: nat)
    requires buf.bytes.Length >= 2
    modifies fd`incoming, buf, buf.bytes
    ensures fresh(buf.bytes) || buf.bytes == old(buf.bytes)
    ensures len < buf.bytes.Length && buf.bytes.Length >= old(buf.bytes.Length)
    ensures buf.bytes[..len] == old(fd.incoming)[..LineLength(old(fd.incoming))] && buf.bytes[len] == 0 as char
    ensures fd.incoming == old(fd.incoming)[LineLength(old(fd.incoming))..]
    ensures r > 0 <==> HasLine(old(fd.incoming))
  {
    hide LineLength, HasLine, Inside;
    len, r := 0, 1;
    var c: char := 0 as char;
    ghost var all := fd.incoming;
    InsideStart(all);
    while len < buf.bytes.Length - 1 && c != '\n'
      invariant fresh(buf.bytes) || buf.bytes == old(buf.bytes)
      invariant len < buf.bytes.Length && buf.bytes.Length >= old(buf.bytes.Length) && r == 1
      invariant len <= |all| && fd.incoming == all[len..] && buf.bytes[..len] == all[..len]
      invariant c == '\n' ==> LineLength(all) == len && HasLine(all)
      invariant c != '\n' ==> Inside(all, len) && len < buf.bytes.Length - 1
      decreases |all| - len, c != '\n'
    {
      InsideStep(all, len);
      var n, data := fd.Read(1);
      r := n;
      if n <= 0 { break; }
      c := data[0];
      assert c == all[len] && fd.incoming == all[len + 1..];
      buf.bytes[len] := c;
      assert buf.bytes[..len + 1] == all[..len + 1];
      len := len + 1;
      if len == buf.bytes.Length - 1 && c != '\n' {
        buf.Grow();
        assert buf.bytes[..len] == all[..len];
      }
    }
    ghost var line := buf.bytes[..len];
    buf.bytes[len] := 0 as char;
    assert buf.bytes[..len] == line;
  }
}
