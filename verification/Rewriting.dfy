/**
 What forward_request and proxy_authenticate of cntlm-0.92.3/forward.c do to the headers of a message on its way: of a
 request to the proxy, of the probe made of it, and of a reply to the client.
 */
module Rewriting {
  import opened Headers
  import opened Messages
  import opened Options

  const AUTHORIZATION := "Proxy-Authorization"
  const AUTHENTICATE := "Proxy-Authenticate"

  const BASIC := "Basic realm=\"Cntlm for parent\""

  // ---------- headers on their way through ----------

  function Substituted(headers: seq<Header>, replacements: seq<Header>): seq<Header>
    decreases |replacements|
  {
    if replacements == [] then headers
    else Substituted(Mod(headers, replacements[0].key, replacements[0].value, false), replacements[1..])
  }

  /** The headers of a request as they go to the proxy, still without authentication. */
  function Prepared(headers: seq<Header>, replacements: seq<Header>): seq<Header> {
    Without(Mod(Substituted(headers, replacements), "Proxy-Connection", "keep-alive", true), "Proxy-Authorization")
  }

  method PrepareHeaders(headers: seq<Header>, replacements: seq<Header>) returns (prepared: seq<Header>)
    ensures prepared == Prepared(headers, replacements)
  {
    prepared := headers;
    var tl := replacements;
    while tl != []
      invariant Substituted(prepared, tl) == Substituted(headers, replacements)
      decreases |tl|
    {
      prepared := Mod(prepared, tl[0].key, tl[0].value, false);
      tl := tl[1..];
    }
    prepared := Mod(prepared, "Proxy-Connection", "keep-alive", true);
    prepared := DeleteAll(prepared, "Proxy-Authorization");
  }

  lemma DifferentNames()
    ensures !SameName("Proxy-Connection", "Proxy-Authorization")
    ensures !SameName("Content-Length", "Proxy-Authorization") && !SameName("Content-Type", "Proxy-Authorization")
    ensures !SameName("Transfer-Encoding", "Proxy-Authorization") && !SameName("Connection", "Proxy-Authorization")
    ensures !SameName("Content-Length", "Transfer-Encoding") && !SameName("GET", "HEAD")
  {
    Lengths("Proxy-Connection", "Proxy-Authorization");
    Lengths("Content-Length", "Proxy-Authorization");
    Lengths("Content-Type", "Proxy-Authorization");
    Lengths("Transfer-Encoding", "Proxy-Authorization");
    Lengths("Connection", "Proxy-Authorization");
    Lengths("Content-Length", "Transfer-Encoding");
    Lengths("GET", "HEAD");
  }

  lemma Lengths(a: string, b: string)
    requires |a| != |b|
    ensures !SameName(a, b)
  {
    assert |Lowercase(a)| == |a| && |Lowercase(b)| == |b|;
  }

  /** What the client says about authentication stays here, and the connection is asked to stay open. */
  lemma PreparedRequest(headers: seq<Header>, replacements: seq<Header>)
    ensures !Has(Prepared(headers, replacements), "Proxy-Authorization")
    ensures Get(Prepared(headers, replacements), "Proxy-Connection") == Some("keep-alive")
  {
    hide SameName, Lowercase;
    DifferentNames();
    var h := Substituted(headers, replacements);
    GetMod(h, "Proxy-Connection", "keep-alive", true, "");
    WithoutHasNone(Mod(h, "Proxy-Connection", "keep-alive", true), "Proxy-Authorization", "Proxy-Connection");
  }

  /** The headers of a reply as they go to the client. */
  function FinishedHeaders(headers: seq<Header>, code: int): seq<Header> {
    var h := if Mentions(headers, "Connection", "keep-alive") then headers
             else Mod(headers, "Connection", "close", true);
    var h' := Without(h, "Proxy-Authenticate");
    if code == 407 then Mod(h', "Proxy-Authenticate", BASIC, true) else h'
  }

  method FinishReply(reply: Message) returns (finished: Message, connAlive: bool)
    ensures finished == reply.(headers := FinishedHeaders(reply.headers, reply.code))
    ensures connAlive == Mentions(reply.headers, "Connection", "keep-alive")
  {
    hide Mentions, Without, Mod;
    connAlive := Mentions(reply.headers, "Connection", "keep-alive");
    var headers := reply.headers;
    if !connAlive {
      headers := Mod(headers, "Connection", "close", true);
    }
    headers := DeleteAll(headers, "Proxy-Authenticate");
    if reply.code == 407 {
      headers := Mod(headers, "Proxy-Authenticate", BASIC, true);
    }
    finished := reply.(headers := headers);
  }

  /** The client is never asked for NTLM: only a 407 asks for authentication, once, and for the Basic scheme. */
  lemma ClientIsAskedForBasic(headers: seq<Header>, code: int)
    ensures Has(FinishedHeaders(headers, code), "Proxy-Authenticate") <==> code == 407
    ensures code == 407 ==> Get(FinishedHeaders(headers, code), "Proxy-Authenticate")
                            == Some("Basic realm=\"Cntlm for parent\"")
    ensures code == 407 ==> !Has(Del(FinishedHeaders(headers, code), "Proxy-Authenticate"), "Proxy-Authenticate")
  {
    hide SameName, Lowercase, Mentions;
    var h := if Mentions(headers, "Connection", "keep-alive") then headers
             else Mod(headers, "Connection", "close", true);
    var h' := Without(h, "Proxy-Authenticate");
    WithoutHasNone(h, "Proxy-Authenticate", "");
    if code == 407 {
      GetMod(h', "Proxy-Authenticate", BASIC, true, "");
      assert Mod(h', "Proxy-Authenticate", BASIC, true) == h' + [Header("Proxy-Authenticate", BASIC)];
      FindAppended(h', Header("Proxy-Authenticate", BASIC));
    }
  }

  lemma {:induction false} FindAppended(h: seq<Header>, last: Header)
    requires !Has(h, last.key)
    ensures Find(h + [last], last.key) == |h| && Del(h + [last], last.key) == h
  {
    if h != [] {
      FindAppended(h[1..], last);
      assert (h + [last])[1..] == h[1..] + [last];
    }
  }

  /** The reply as it goes to the client. */
  function FinishedReply(reply: Message): Message {
    reply.(headers := FinishedHeaders(reply.headers, reply.code))
  }

  lemma ConnectionNames()
    ensures !SameName("Proxy-Authenticate", "Connection") && !SameName("Connection", "Proxy-Authenticate")
    ensures !SameName("Proxy-Connection", "Connection") && !SameName("Proxy-Connection", "Proxy-Authenticate")
  {
    Lengths("Proxy-Authenticate", "Connection");
    Lengths("Connection", "Proxy-Authenticate");
    Lengths("Proxy-Connection", "Connection");
    Lengths("Proxy-Connection", "Proxy-Authenticate");
  }

  lemma KeepAliveIsNotClose(value: string)
    ensures Occurs(Lowercase("keep-alive"), Lowercase(value)) ==> value != "close"
  {
    if Occurs(Lowercase("keep-alive"), Lowercase(value)) {
      var i: nat :| i <= |Lowercase(value)| && MatchesAt(Lowercase("keep-alive"), Lowercase(value), i);
      assert |value| >= |Lowercase("keep-alive")| == 10;
    }
  }

  /**
   What the client is told about the connection: `close` exactly if the proxy's reply does not speak of keep-alive, and
   otherwise what the proxy said. Headers of other names, but for the offer to authenticate, stay as they were.
   */
  lemma ClientIsToldToClose(headers: seq<Header>, code: int, key: string)
    ensures Get(FinishedHeaders(headers, code), "Connection") == Some("close")
            <==> !Mentions(headers, "Connection", "keep-alive")
    ensures Mentions(headers, "Connection", "keep-alive") ==>
              Get(FinishedHeaders(headers, code), "Connection") == Get(headers, "Connection")
    ensures !SameName(key, "Connection") && !SameName(key, "Proxy-Authenticate") ==>
              Get(FinishedHeaders(headers, code), key) == Get(headers, key)
  {
    hide SameName, Lowercase, Occurs, Get, Mod, Without;
    ConnectionNames();
    FinishedElsewhere(headers, code, "Connection");
    if Mentions(headers, "Connection", "keep-alive") {
      KeepAliveIsNotClose(Get(headers, "Connection").value);
    } else {
      GetMod(headers, "Connection", "close", true, "");
    }
    FinishedElsewhere(headers, code, key);
    GetMod(headers, "Connection", "close", true, key);
  }

  /** Only the first step touches other names than Proxy-Authenticate. */
  lemma FinishedElsewhere(headers: seq<Header>, code: int, key: string)
    ensures var h := if Mentions(headers, "Connection", "keep-alive") then headers
                     else Mod(headers, "Connection", "close", true);
            !SameName(key, "Proxy-Authenticate") ==> Get(FinishedHeaders(headers, code), key) == Get(h, key)
  {
    hide SameName, Lowercase, Mentions, Get, Mod, Without;
    var h := if Mentions(headers, "Connection", "keep-alive") then headers
             else Mod(headers, "Connection", "close", true);
    WithoutHasNone(h, "Proxy-Authenticate", key);
    GetMod(Without(h, "Proxy-Authenticate"), "Proxy-Authenticate", BASIC, true, key);
  }

  /** The request that finds out about authentication: without a body, and never a HEAD. */
  function ProbeOf(request: Message, token: string): Message {
    var headers := Mod(request.headers, "Proxy-Authorization", token, true);
    request.(verb := if IsHead(request) then "GET" else request.verb,
             headers := Del(Mod(headers, "Content-Length", "0", true), "Transfer-Encoding"))
  }

  /**
   The probe is the request, with the first token in its Proxy-Authorization, and only three of its headers changed; a
   HEAD becomes a GET.
   */
  lemma ProbeIsRequest(request: Message, token: string, key: string)
    ensures var p := ProbeOf(request, token);
            && p.(verb := request.verb, headers := request.headers) == request
            && (p.verb == if IsHead(request) then "GET" else request.verb)
            && Get(p.headers, AUTHORIZATION) == Some(token) && Get(p.headers, "Content-Length") == Some("0")
    ensures !SameName(key, AUTHORIZATION) && !SameName(key, "Content-Length") && !SameName(key, "Transfer-Encoding") ==>
              Get(ProbeOf(request, token).headers, key) == Get(request.headers, key)
  {
    hide SameName, Lowercase, Mod, Del, Get;
    DifferentNames();
    ProbeNames();
    var h0 := request.headers;
    var h1 := Mod(h0, AUTHORIZATION, token, true);
    var h2 := Mod(h1, "Content-Length", "0", true);
    GetMod(h0, AUTHORIZATION, token, true, key);
    GetMod(h1, "Content-Length", "0", true, AUTHORIZATION);
    GetMod(h1, "Content-Length", "0", true, key);
    GetDel(h2, "Transfer-Encoding", AUTHORIZATION);
    GetDel(h2, "Transfer-Encoding", "Content-Length");
    if !SameName(key, "Transfer-Encoding") {
      GetDel(h2, "Transfer-Encoding", key);
    }
  }

  lemma ProbeNames()
    ensures !SameName(AUTHORIZATION, "Content-Length") && !SameName(AUTHORIZATION, "Transfer-Encoding")
    ensures !SameName("Content-Length", "Transfer-Encoding")
  {
    Lengths(AUTHORIZATION, "Content-Length");
    Lengths(AUTHORIZATION, "Transfer-Encoding");
    Lengths("Content-Length", "Transfer-Encoding");
  }

  lemma ProbeHasNoBody(request: Message, token: string)
    ensures !IsHead(ProbeOf(request, token)) && RequestBody(ProbeOf(request, token)) == 0
  {
    hide SameName, Lowercase, Mod, Del;
    DifferentNames();
    var headers := Mod(request.headers, "Proxy-Authorization", token, true);
    GetMod(headers, "Content-Length", "0", true, "");
    GetDel(Mod(headers, "Content-Length", "0", true), "Transfer-Encoding", "Content-Length");
    ZeroLength();
    HeadIsNotGet();
  }

  /** No header at all, and not only no first one, speaks of a body. */
  predicate AnnouncesNoBody(headers: seq<Header>) {
    && Values(headers, "Transfer-Encoding") == []
    && forall i :: 0 <= i < |Values(headers, "Content-Length")| ==> Values(headers, "Content-Length")[i] == "0"
  }

  /**
   To a reader of all its headers the probe announces no body exactly if the request has at most one
   Transfer-Encoding, and every Content-Length of it but the first is 0: only the first header of a name is changed or
   deleted.
   */
  lemma ProbeAnnouncesNoBodyWhen(request: Message, token: string)
    ensures AnnouncesNoBody(ProbeOf(request, token).headers)
            <==> (|Values(request.headers, "Transfer-Encoding")| <= 1
                  && forall i :: 1 <= i < |Values(request.headers, "Content-Length")|
                       ==> Values(request.headers, "Content-Length")[i] == "0")
  {
    hide SameName, Lowercase, Mod, Del, Values;
    DifferentNames();
    TransferIsNotLength();
    var h0 := request.headers;
    var h1 := Mod(h0, "Proxy-Authorization", token, true);
    var h2 := Mod(h1, "Content-Length", "0", true);
    ValuesMod(h0, "Proxy-Authorization", token, "Content-Length");
    ValuesMod(h0, "Proxy-Authorization", token, "Transfer-Encoding");
    ValuesMod(h1, "Content-Length", "0", "Transfer-Encoding");
    ValuesDel(h2, "Transfer-Encoding", "Content-Length");
    var lengths, lengths' := Values(h0, "Content-Length"), Values(ProbeOf(request, token).headers, "Content-Length");
    assert forall i :: 1 <= i < |lengths| ==> lengths'[i] == lengths[i];
  }

  lemma TransferIsNotLength()
    ensures !SameName("Transfer-Encoding", "Content-Length")
  {
    Lengths("Transfer-Encoding", "Content-Length");
  }

  lemma ZeroLength()
    ensures Atoll("0") == 0
  {
    assert "0"[1..] == [];
  }

  lemma HeadIsNotGet()
    ensures !SameName("HEAD", "GET")
  {
    Lengths("HEAD", "GET");
  }

  /** Adding the token does not change what body a request has. */
  lemma TokenKeepsBody(request: Message, token: string)
    ensures var m := request.(headers := Mod(request.headers, "Proxy-Authorization", token, true));
            RequestBody(m) == RequestBody(request)
  {
    hide SameName, Lowercase, Mod, Atoll, Occurs;
    DifferentNames();
    var h := request.headers;
    GetMod(h, "Proxy-Authorization", token, true, "Content-Length");
    GetMod(h, "Proxy-Authorization", token, true, "Content-Type");
    GetMod(h, "Proxy-Authorization", token, true, "Transfer-Encoding");
    GetMod(h, "Proxy-Authorization", token, true, "Connection");
  }

  /** The request with its token, if it got one. */
  function WithToken(request: Message, token: Option<string>): Message {
    match token
    case Some(t) => request.(headers := Mod(request.headers, AUTHORIZATION, t, true))
    case None => request
  }

  lemma NoToken(request: Message)
    ensures WithToken(request, None) == request
  {
  }

  lemma TokenBody(request: Message, token: Option<string>)
    ensures RequestBody(WithToken(request, token)) == RequestBody(request)
  {
    hide RequestBody;
    if token.Some? {
      TokenKeepsBody(request, token.value);
    }
  }

  // ---------- preparing a request a second time ----------

  /** The value that the last replacement of that name gives. */
  function LastValue(replacements: seq<Header>, key: string): Option<string> {
    if replacements == [] then None
    else
      match LastValue(replacements[1..], key)
      case Some(v) => Some(v)
      case None => if SameName(replacements[0].key, key) then Some(replacements[0].value) else None
  }

  function Replaced(value: Option<string>, replacement: Option<string>): Option<string> {
    if value.Some? && replacement.Some? then replacement else value
  }

  lemma {:induction false} GetSubstituted(headers: seq<Header>, replacements: seq<Header>, key: string)
    ensures Get(Substituted(headers, replacements), key) == Replaced(Get(headers, key), LastValue(replacements, key))
    decreases |replacements|
  {
    hide Get, Mod, Lowercase;
    if replacements != [] {
      var r := replacements[0];
      GetSubstituted(Mod(headers, r.key, r.value, false), replacements[1..], key);
      GetModAny(headers, r.key, r.value, key);
    }
  }

  /** The name of a header and of a change may be written differently. */
  lemma GetModAny(headers: seq<Header>, key: string, value: string, other: string)
    ensures Get(Mod(headers, key, value, false), other)
            == if SameName(key, other) then Replaced(Get(headers, other), Some(value)) else Get(headers, other)
  {
    hide Mod, Lowercase;
    GetMod(headers, key, value, false, other);
    if SameName(key, other) {
      SameNameSameValue(headers, key, other);
      SameNameSameValue(Mod(headers, key, value, false), key, other);
      ModAbsent(headers, key, value);
    }
  }

  lemma ModAbsent(headers: seq<Header>, key: string, value: string)
    ensures !Has(headers, key) ==> Mod(headers, key, value, false) == headers
  {
  }

  lemma {:induction false} SameNameSameValue(headers: seq<Header>, key: string, other: string)
    requires SameName(key, other)
    ensures Get(headers, key) == Get(headers, other)
  {
    hide Get, Lowercase;
    if headers == [] {
      GetNothing(key);
      GetNothing(other);
    } else {
      assert headers == [headers[0]] + headers[1..];
      GetCons(headers[0], headers[1..], key);
      GetCons(headers[0], headers[1..], other);
      SameNameSameValue(headers[1..], key, other);
    }
  }

  lemma GetNothing(key: string)
    ensures Get([], key) == None
  {
  }

  lemma GetPrepared(headers: seq<Header>, replacements: seq<Header>, key: string)
    requires !SameName(key, "Proxy-Connection") && !SameName(key, "Proxy-Authorization")
    ensures Get(Prepared(headers, replacements), key) == Replaced(Get(headers, key), LastValue(replacements, key))
  {
    hide Get, Mod, Lowercase, Without, SameName;
    var h := Substituted(headers, replacements);
    GetSubstituted(headers, replacements, key);
    GetMod(h, "Proxy-Connection", "keep-alive", true, key);
    WithoutHasNone(Mod(h, "Proxy-Connection", "keep-alive", true), "Proxy-Authorization", key);
  }

  /** Preparing the request once more would not change which body it has. */
  predicate Settled(request: Message, replacements: seq<Header>) {
    request.req ==> RequestBody(request.(headers := Prepared(request.headers, replacements))) == RequestBody(request)
  }

  /** A request as it goes to the proxy; what is no request goes as it is. */
  function PreparedOf(m: Message, replacements: seq<Header>): Message {
    if m.req then m.(headers := Prepared(m.headers, replacements)) else m
  }

  lemma PreparedTwice(headers: seq<Header>, replacements: seq<Header>, key: string)
    requires !SameName(key, "Proxy-Connection") && !SameName(key, "Proxy-Authorization")
    ensures var once := Prepared(headers, replacements);
            Get(Prepared(once, replacements), key) == Get(once, key)
  {
    hide Get, Prepared, SameName;
    GetPrepared(headers, replacements, key);
    GetPrepared(Prepared(headers, replacements), replacements, key);
  }

  lemma BodyHeaderNames()
    ensures !SameName("Content-Length", "Proxy-Connection") && !SameName("Content-Type", "Proxy-Connection")
    ensures !SameName("Transfer-Encoding", "Proxy-Connection") && !SameName("Connection", "Proxy-Connection")
  {
    Lengths("Content-Length", "Proxy-Connection");
    Lengths("Content-Type", "Proxy-Connection");
    Lengths("Transfer-Encoding", "Proxy-Connection");
    Lengths("Connection", "Proxy-Connection");
  }

  lemma PreparedIsSettled(request: Message, replacements: seq<Header>)
    ensures Settled(request.(headers := Prepared(request.headers, replacements)), replacements)
  {
    hide SameName, Prepared, Atoll, Occurs, Find;
    DifferentNames();
    BodyHeaderNames();
    PreparedTwice(request.headers, replacements, "Content-Length");
    PreparedTwice(request.headers, replacements, "Content-Type");
    PreparedTwice(request.headers, replacements, "Transfer-Encoding");
    PreparedTwice(request.headers, replacements, "Connection");
  }
}
