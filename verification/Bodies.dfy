/** http_body_send and http_body_drop of cntlm-0.92.3/http.c, and messages that pass through with their bodies. */
module Bodies {
  import opened BodyRules
  import opened ChunkedBodies
  import opened Chunks
  import opened Headers
  import opened HeaderRoundTrip
  import opened HeaderText
  import opened Messages
  import opened Options
  import opened Sockets

  /** What becomes of the input when the body of a message is taken from it. */
  function BodyTransfer(length: int, headers: seq<Header>, s: string, orderly: bool): Transfer {
    if length == 0 then Transfer(true, [], s)
    else if Mentions(headers, "Transfer-Encoding", "chunked") then Chunked(s, orderly)
    else if length < -1 then Undefined
    else Moved(s, length, orderly)
  }

  /** http_has_body with what is known of a request and its reply; the reply counts if it is there. */
  function BodyLength(request: Message, reply: Option<Message>): int {
    match reply
    case Some(r) => ReplyBody(Some(request), r)
    case None => RequestBody(request)
  }

  method SendBody(dst: Socket?, src: Socket, length: int, headers: seq<Header>) returns (rc: bool)
    requires dst != src && BodyTransfer(length, headers, src.incoming, src.orderly).Transfer?
    modifies src`incoming, (if dst == null then {} else {dst})`outgoing
    ensures dst == null || dst.open ==>
              var t := BodyTransfer(length, headers, old(src.incoming), src.orderly);
              && rc == t.ok && src.incoming == t.rest
              && (dst != null ==> dst.outgoing == old(dst.outgoing) + t.written)
  {
    hide Mentions, Chunked, Moved;
    rc := true;
    if length != 0 {
      if Mentions(headers, "Transfer-Encoding", "chunked") {
        rc := ChunkedDataSend(dst, src);
      } else {
        rc := DataSend(dst, src, length);
      }
    } else if dst != null {
      assert dst.outgoing + [] == dst.outgoing;
    }
  }

  /** http_body_send, for lengths and chunk sizes the code can handle. */
  method HttpBodySend(dst: Socket, src: Socket, request: Message, reply: Option<Message>) returns (rc: bool)
    requires dst != src
    requires var current := if reply.Some? then reply.value else request;
             BodyTransfer(BodyLength(request, reply), current.headers, src.incoming, src.orderly).Transfer?
    modifies src`incoming, dst`outgoing
    ensures dst.open ==>
              var current := if reply.Some? then reply.value else request;
              var t := BodyTransfer(BodyLength(request, reply), current.headers, old(src.incoming), src.orderly);
              rc == t.ok && src.incoming == t.rest && dst.outgoing == old(dst.outgoing) + t.written
  {
    hide BodyTransfer, BodyLength;
    var current := if reply.Some? then reply.value else request;
    rc := SendBody(dst, src, BodyLength(request, reply), current.headers);
  }

  /** http_body_drop: the request is not known, and nothing is written. */
  method HttpBodyDrop(fd: Socket, reply: Message) returns (rc: bool)
    requires BodyTransfer(ReplyBody(None, reply), reply.headers, fd.incoming, fd.orderly).Transfer?
    modifies fd`incoming
    ensures var t := BodyTransfer(ReplyBody(None, reply), reply.headers, old(fd.incoming), fd.orderly);
            rc == t.ok && fd.incoming == t.rest
  {
    hide BodyTransfer, ReplyBody;
    rc := SendBody(null, fd, ReplyBody(None, reply), reply.headers);
  }

  /**
   The methods above say nothing of a body exactly if a length gets to data_send that it cannot handle: a
   Content-Length below -1, or the length of a chunk, counting the line end behind it, that is below -1 or above the
   largest int.
   */
  lemma BodyIsUndefinedWhen(length: int, headers: seq<Header>, s: string, orderly: bool)
    ensures BodyTransfer(length, headers, s, orderly) == Undefined
            <==> (length != 0 && if Mentions(headers, "Transfer-Encoding", "chunked") then !AreUsable(Sizes(s, orderly))
                                 else length < -1)
  {
    hide Chunked, Sizes, Mentions, AreUsable;
    UndefinedWhen(s, orderly);
  }

  // ---------- by the headers as they are written ----------

  /** What forwarding a body comes to, going by its framing alone. */
  function FramedTransfer(f: Framing, s: string, orderly: bool): Transfer {
    match f
    case Counted(n) => Moved(s, n, orderly)
    case InChunks => Chunked(s, orderly)
    case ToTheEnd => Moved(s, -1, orderly)
    case Nothing => Transfer(true, [], s)
  }

  /**
   The body of a reply is taken as its headers say: the bytes of a Content-Length, chunks, all up to the end, or none;
   and none in any case in answer to a HEAD, or with a code of 1xx, 204 or 304.
   */
  lemma ReplyIsFramed(request: Option<Message>, m: Message, f: Framing, s: string, orderly: bool)
    requires Says(m.headers, f)
    ensures BodyTransfer(ReplyBody(request, m), m.headers, s, orderly)
            == if (request.Some? && Asks(request.value, "HEAD")) || IsBodiless(m.code) then Transfer(true, [], s)
               else FramedTransfer(f, s, orderly)
  {
    hide Chunked, Mentions, ReplyBody, Asks, Get, Has;
    ReplyBodyIs(request, m, f);
    NoBytes(s);
  }

  /** The body of a request: none of a GET or HEAD, and none without a length or chunks. */
  lemma RequestIsFramed(m: Message, f: Framing, s: string, orderly: bool)
    requires Says(m.headers, f)
    ensures BodyTransfer(RequestBody(m), m.headers, s, orderly)
            == if Asks(m, "GET") || Asks(m, "HEAD") || f.ToTheEnd? then Transfer(true, [], s)
               else FramedTransfer(f, s, orderly)
  {
    hide Chunked, Mentions, RequestBody, Asks, Get, Has;
    RequestBodyIs(m, f);
    NoBytes(s);
  }

  lemma NoBytes(s: string)
    ensures s[..0] == [] && s[0..] == s
  {
  }

  /** The body as a sender writes it behind these headers: as many bytes as it says, chunks, or nothing. */
  ghost predicate IsWrittenBody(headers: seq<Header>, body: string) {
    || Says(headers, Counted(|body|))
    || (Says(headers, InChunks) && exists b :: IsBody(b) && body == ChunkedBodies.Encode(b))
    || (Says(headers, Nothing) && body == [])
  }

  /** What is written behind the head of a reply. */
  ghost predicate FollowsReply(request: Message, m: Message, body: string) {
    if Asks(request, "HEAD") || IsBodiless(m.code) then body == [] else IsWrittenBody(m.headers, body)
  }

  /** What is written behind the head of a request, which never goes on until the connection ends. */
  ghost predicate FollowsRequest(m: Message, body: string) {
    if Asks(m, "GET") || Asks(m, "HEAD")
        || Says(m.headers, ToTheEnd) then body == [] else IsWrittenBody(m.headers, body)
  }

  lemma WrittenIsText(length: int, headers: seq<Header>, body: string)
    requires IsWrittenBody(headers, body)
    requires Says(headers, Counted(|body|)) ==> length == |body|
    requires Says(headers, InChunks) ==> length > 0
    requires Says(headers, Nothing) ==> length == 0
    ensures HasBodyText(length, headers, body)
  {
    hide Mentions, ChunkedBodies.Encode, IsBody, Get, Has, Digits;
  }

  lemma ReplyText(request: Message, m: Message, body: string)
    requires FollowsReply(request, m, body)
    ensures HasBodyText(ReplyBody(Some(request), m), m.headers, body)
  {
    hide ReplyBody, Says, Asks, HasBodyText, IsWrittenBody;
    var length := ReplyBody(Some(request), m);
    if Asks(request, "HEAD") || IsBodiless(m.code) {
      VerbWhen(request);
      BodilessWhen(m.code);
      NoBodyNoText(request, m);
    } else {
      if Says(m.headers, Counted(|body|)) { ReplyBodyIs(Some(request), m, Counted(|body|)); }
      if Says(m.headers, InChunks) { ReplyBodyIs(Some(request), m, InChunks); }
      if Says(m.headers, Nothing) { ReplyBodyIs(Some(request), m, Nothing); }
      WrittenIsText(length, m.headers, body);
    }
  }

  lemma NoBodyNoText(request: Message, m: Message)
    requires IsHead(request) || NoBodyCode(m.code)
    ensures ReplyBody(Some(request), m) == 0 && HasBodyText(0, m.headers, [])
  {
  }

  lemma RequestText(m: Message, body: string)
    requires FollowsRequest(m, body)
    ensures HasBodyText(RequestBody(m), m.headers, body)
  {
    hide RequestBody, Says, Asks, HasBodyText, IsWrittenBody;
    var length := RequestBody(m);
    if Asks(m, "GET") || Asks(m, "HEAD") {
      VerbWhen(m);
      NothingIsAsked(m);
    } else if Says(m.headers, ToTheEnd) {
      RequestBodyIs(m, ToTheEnd);
      NoText(m.headers);
    } else {
      if Says(m.headers, Counted(|body|)) { RequestBodyIs(m, Counted(|body|)); }
      if Says(m.headers, InChunks) { RequestBodyIs(m, InChunks); }
      if Says(m.headers, Nothing) { RequestBodyIs(m, Nothing); }
      WrittenIsText(length, m.headers, body);
    }
  }

  lemma NoText(headers: seq<Header>)
    ensures HasBodyText(0, headers, [])
  {
  }

  lemma NothingIsAsked(m: Message)
    requires IsHead(m) || IsGet(m)
    ensures RequestBody(m) == 0 && HasBodyText(0, m.headers, [])
  {
  }

  // ---------- a connection stays in step ----------

  /** The body that a message's headers announce, as it stands on the wire. */
  ghost predicate HasBodyText(length: int, headers: seq<Header>, body: string) {
    if length == 0 then body == []
    else if Mentions(headers, "Transfer-Encoding", "chunked") then
      exists b :: IsBody(b) && body == ChunkedBodies.Encode(b)
    else length == |body|
  }

  lemma BodyPasses(length: int, headers: seq<Header>, body: string, rest: string, orderly: bool)
    requires HasBodyText(length, headers, body)
    ensures BodyTransfer(length, headers, body + rest, orderly) == Transfer(true, body, rest)
  {
    hide Mentions, Chunked, IsBody, ChunkedBodies.Encode;
    if length == 0 {
      assert body + rest == rest;
    } else if Mentions(headers, "Transfer-Encoding", "chunked") {
      var b :| IsBody(b) && body == ChunkedBodies.Encode(b);
      BodyIsSent(b, rest, orderly);
    } else {
      assert (body + rest)[..|body|] == body && (body + rest)[|body|..] == rest;
    }
  }

  /** A reply and its body, printed and followed by anything, when the body is what http_has_body expects. */
  lemma ReplyPasses(request: Message, m: Message, body: string, rest: string, orderly: bool)
    requires IsReply(m) && HasBodyText(ReplyBody(Some(request), m), m.headers, body)
    ensures var r := Received(Text(m) + body + rest);
            && r.Some? && r.value.1 == body + rest
            && r.value.0.code == m.code && r.value.0.headers == m.headers
            && BodyTransfer(ReplyBody(Some(request), r.value.0), r.value.0.headers, r.value.1, orderly)
                == Transfer(true, body, rest)
  {
    hide BodyTransfer, HasBodyText, IsReply, Received, Text, Announced;
    assert Text(m) + body + rest == Text(m) + (body + rest);
    ReplyComesBack(m, body + rest);
    BodyPasses(ReplyBody(Some(request), m), m.headers, body, rest, orderly);
  }

  /** A Host header added at the end changes nothing about the body. */
  lemma HostKeepsBody(m: Message, host: Header, r: Message)
    requires SameName(host.key, "Host") && r.headers == m.headers + [host] && r.req == m.req && r.verb == m.verb
    ensures RequestBody(r) == RequestBody(m)
    ensures Mentions(r.headers, "Transfer-Encoding", "chunked") == Mentions(m.headers, "Transfer-Encoding", "chunked")
  {
    hide SameName, Lowercase, Atoll, Occurs, Find;
    HostIsNoBodyHeader(host.key);
    AppendedElsewhere(m.headers, host, "Content-Length");
    AppendedElsewhere(m.headers, host, "Content-Type");
    AppendedElsewhere(m.headers, host, "Transfer-Encoding");
    AppendedElsewhere(m.headers, host, "Connection");
  }

  lemma HostIsNoBodyHeader(key: string)
    requires SameName(key, "Host")
    ensures !SameName(key, "Content-Length") && !SameName(key, "Content-Type")
    ensures !SameName(key, "Transfer-Encoding") && !SameName(key, "Connection")
  {
    assert |Lowercase(key)| == |Lowercase("Host")| == 4;
    assert |Lowercase("Content-Length")| == 14 && |Lowercase("Content-Type")| == 12;
    assert |Lowercase("Transfer-Encoding")| == 17 && |Lowercase("Connection")| == 10;
  }

  lemma {:induction false} AppendedElsewhere(headers: seq<Header>, last: Header, key: string)
    requires !SameName(last.key, key)
    ensures Get(headers + [last], key) == Get(headers, key)
    ensures Has(headers + [last], key) == Has(headers, key)
  {
    hide SameName;
    if headers == [] {
      assert headers + [last] == [last] + [];
      FindCons(last, [], key);
    } else {
      var first, rest := headers[0], headers[1..];
      AppendedElsewhere(rest, last, key);
      FindCons(first, rest + [last], key);
      FindCons(first, rest, key);
      assert headers + [last] == [first] + (rest + [last]) && headers == [first] + rest;
      GetCons(first, rest + [last], key);
      GetCons(first, rest, key);
    }
  }

  /** The same for requests: what follows the body is the client's next request. */
  lemma RequestPasses(m: Message, body: string, rest: string, orderly: bool)
    requires IsRequest(m) && HasBodyText(RequestBody(m), m.headers, body)
    ensures var r := Received(Text(m) + body + rest);
            && r.Some? && r.value.1 == body + rest
            && r.value.0.verb == m.verb && r.value.0.url == m.url && RequestBody(r.value.0) == RequestBody(m)
            && BodyTransfer(RequestBody(r.value.0), r.value.0.headers, r.value.1, orderly) == Transfer(true, body, rest)
  {
    hide BodyTransfer, IsRequest, Received, Text, RequestBody, Mentions, HostOf, TargetOf, SameName, Has;
    assert Text(m) + body + rest == Text(m) + (body + rest);
    RequestComesBack(m, body + rest);
    var r := Received(Text(m) + (body + rest)).value.0;
    HostIsHost();
    RequestIsRequest(m);
    if r.headers == m.headers {
      SameHeadersSameBody(m, r);
    } else {
      HostKeepsBody(m, Header("Host", HostOf(m.url)), r);
    }
    BodyPasses(RequestBody(r), r.headers, body, rest, orderly);
  }

  lemma RequestIsRequest(m: Message)
    requires IsRequest(m)
    ensures m.req
  {
  }

  lemma HostIsHost()
    ensures SameName("Host", "Host")
  {
  }

  lemma SameHeadersSameBody(m: Message, r: Message)
    requires r.headers == m.headers && r.req == m.req && r.verb == m.verb
    ensures RequestBody(r) == RequestBody(m)
  {
  }

  /**
   A reply and its body, written and followed by anything: reading the head and then forwarding the body takes exactly
   these bytes, and writes the body as it was. So the next reply on the connection is read from its first byte on.
   */
  lemma RepliesStayInStep(request: Message, m: Message, body: string, rest: string, orderly: bool)
    requires IsReply(m) && FollowsReply(request, m, body)
    ensures var r := Received(Text(m) + body + rest);
            && r.Some? && r.value.1 == body + rest
            && r.value.0.code == m.code && r.value.0.headers == m.headers
            && BodyTransfer(BodyLength(request, Some(r.value.0)), r.value.0.headers, r.value.1, orderly)
               == Transfer(true, body, rest)
  {
    hide IsReply, FollowsReply, Received, Text, BodyTransfer, ReplyBody, HasBodyText;
    ReplyText(request, m, body);
    ReplyPasses(request, m, body, rest, orderly);
  }

  /** The same for requests: what follows the body is the client's next request. */
  lemma RequestsStayInStep(m: Message, body: string, rest: string, orderly: bool)
    requires IsRequest(m) && FollowsRequest(m, body)
    ensures var r := Received(Text(m) + body + rest);
            && r.Some? && r.value.1 == body + rest && r.value.0.verb == m.verb && r.value.0.url == m.url
            && BodyTransfer(BodyLength(r.value.0, None), r.value.0.headers, r.value.1, orderly)
               == Transfer(true, body, rest)
  {
    hide IsRequest, FollowsRequest, Received, Text, BodyTransfer, RequestBody, HasBodyText;
    RequestText(m, body);
    RequestPasses(m, body, rest, orderly);
  }
}
