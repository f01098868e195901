/**
 forward_request and proxy_authenticate of cntlm-0.92.3/forward.c. Whatever the proxy and the client answer, and
 whenever they hang up, is chosen arbitrarily; the events of every run are those of ForwardRuns.
 */
module Forward {
  import opened ForwardRuns
  import opened Headers
  import opened Messages
  import opened Options
  import opened Rewriting
  import P = Plist
  import A = AuthMessage
  import ByteOrder
  import Des
  import Hmac
  import B = Base64
  import I = TargetInfo
  import N = NtlmResponse
  import S = MsNlmp
  import St = NtlmStandard
  import T = Tokens

  // ---------- answering a challenge ----------

  /**
   What is made of a 407: nothing without a challenge; otherwise a token if it can be answered, and a complaint if
   not. Nothing is said of a challenge that cannot be managed.
   */
  ghost predicate AnsweredBy(sb: Des.SBoxes, creds: N.Credentials, reply: Message, memory: string,
                          understood: bool, token: Option<string>) {
    match Get(reply.headers, AUTHENTICATE)
    case None => understood && token == None
    case Some(value) =>
      var text := T.Behind(value, memory);
      && understood == token.Some?
      && (T.Manageable(creds, text) ==> (token.Some? <==> T.Answered(creds, text)))
      && (T.Manageable(creds, text) && token.Some? ==> T.IsTokenFor(sb, creds, text, token.value))
  }

  /**
   From the challenge of the proxy to the request it gets: with an NTLMv2 profile the request carries a Base64 message
   whose NT response is a code over the proxy's challenge under the hash it shares with cntlm, and its body is
   announced as before.
   */
  lemma RequestIsAccepted(sb: Des.SBoxes, creds: N.Credentials, text: string, token: string, request: Message)
    requires T.IsTokenFor(sb, creds, text, token) && creds.profile.ntlm2 && creds.profile.nt == 0
    ensures var sent := WithToken(request, Some(token));
            && Get(sent.headers, AUTHORIZATION) == Some(token) && RequestBody(sent) == RequestBody(request)
    ensures var challenge, message := T.ChallengeIn(text).value, T.ChallengeIn(T.Behind(token, []));
            && message.Some? && |message.value| >= 64
            && var nt := A.Field(message.value, 20);
            && nt.Some? && |nt.value| >= 44
            && nt.value[..16] == Hmac.Hmac(creds.passntlm2[..16], A.ServerChallenge(challenge) + nt.value[16..])
            && ByteOrder.StandsAt(nt.value, 44, N.InfoOf(challenge))
  {
    hide Mod, RequestBody, SameName, T.Token, T.ChallengeIn, A.Field, Hmac.Hmac, ByteOrder.StandsAt, N.InfoOf,
         N.LeavesRoom, N.Usable;
    TokenKeepsBody(request, token);
    NameIsItself();
    GetMod(request.headers, AUTHORIZATION, token, true, "");
    var challenge := T.ChallengeIn(text).value;
    var time: seq<bv8>, nonce: seq<bv8> :| |time| == |nonce| == 8
        && token == T.Token(sb, creds, challenge, time, nonce);
    T.TokenIsAccepted(sb, creds, challenge, time, nonce);
    T.TokenBegins(sb, creds, challenge, time, nonce);
  }

  lemma NameIsItself()
    ensures SameName(AUTHORIZATION, AUTHORIZATION)
  {
  }

  /** The value of a Proxy-Authenticate header that carries this CHALLENGE message. */
  function Offer(c: S.Challenge): string
    requires S.IsChallenge(c)
  {
    "NTLM " + T.Shown(B.Standard(S.Message(c)))
  }

  /**
   For every CHALLENGE message with a target info that the proxy puts into a 407, a token is made, the request carries
   it and its body is announced as before; and what a server decodes from it reads, by the standard, as the answer to
   the eight bytes it chose, unless the profile is the one that loses its NT response.
   */
  lemma ProxyIsAnswered(creds: N.Credentials, c: S.Challenge, pairs: seq<I.Pair>, reply: Message, memory: string,
                        understood: bool, token: Option<string>, request: Message)
    requires St.Complete(creds) && St.KeepsNt(creds.profile)
    requires S.IsChallenge(c) && S.HasInfo(c, pairs)
    requires |S.Message(c)| <= 65535 && N.LeavesRoom(creds.profile, S.Info(pairs))
    requires Get(reply.headers, AUTHENTICATE) == Some(Offer(c))
    requires AnsweredBy(Des.TABLES, creds, reply, memory, understood, token)
    ensures understood && token.Some?
    ensures var sent := WithToken(request, token);
            Get(sent.headers, AUTHORIZATION) == token && RequestBody(sent) == RequestBody(request)
    ensures var message := T.ChallengeIn(T.Behind(token.value, []));
            message.Some? && St.Answers(message.value, creds, c, S.Info(pairs))
  {
    hide S.Message, S.HasInfo, S.Info, St.Answers, St.Complete, St.KeepsNt, Get, RequestBody, Mod, T.Token,
         T.ChallengeIn,
         N.InfoOf, N.LeavesRoom, B.Standard;
    var m, text := S.Message(c), T.Shown(B.Standard(S.Message(c)));
    OfferBehind(c, memory);
    T.StandardIsDecoded(m);
    St.InfoIsRead(c, pairs);
    InfoIsThere(pairs);
    TokenKeepsBody(request, token.value);
    GetMod(request.headers, AUTHORIZATION, token.value, true, "");
    TokenIsAnswer(creds, c, text, token.value);
  }

  lemma OfferBehind(c: S.Challenge, memory: string)
    requires S.IsChallenge(c)
    ensures T.Behind(Offer(c), memory) == T.Shown(B.Standard(S.Message(c)))
    ensures S.Message(c) != [] && |S.Message(c)| > 24
  {
    hide S.Message, B.Standard;
    var text := T.Shown(B.Standard(S.Message(c)));
    assert ("NTLM " + text)[5..] == text;
  }

  lemma InfoIsThere(pairs: seq<I.Pair>)
    ensures S.Info(pairs) != []
  {
  }

  /** A token for a text that carries this CHALLENGE message is an answer to it. */
  lemma TokenIsAnswer(creds: N.Credentials, c: S.Challenge, text: string, token: string)
    requires St.Complete(creds) && St.KeepsNt(creds.profile) && S.IsChallenge(c)
    requires N.LeavesRoom(creds.profile, N.InfoOf(S.Message(c)))
    requires T.IsTokenFor(Des.TABLES, creds, text, token) && T.ChallengeIn(text) == Some(S.Message(c))
    ensures var message := T.ChallengeIn(T.Behind(token, []));
            message.Some? && St.Answers(message.value, creds, c, N.InfoOf(S.Message(c)))
  {
    hide S.Message, St.Answers, St.Complete, St.KeepsNt, T.ChallengeIn, N.InfoOf, N.LeavesRoom, N.FieldsOf, A.Blob,
         T.TokenOf;
    var m := S.Message(c);
    var time: seq<bv8>, nonce: seq<bv8> :| |time| == |nonce| == 8
        && token == T.Token(Des.TABLES, creds, m, time, nonce);
    CompleteIsUsable(creds);
    St.ServerReadsAnswer(creds, c, time, nonce);
    T.AnswerFits(Des.TABLES, creds, m, time, nonce);
    T.TokenIsRead(A.Sent(T.Answer(Des.TABLES, creds, m, time, nonce)));
    T.TokenBegins(Des.TABLES, creds, m, time, nonce);
  }

  lemma CompleteIsUsable(creds: N.Credentials)
    requires St.Complete(creds)
    ensures N.Usable(creds)
  {
  }

  // ---------- forward_request ----------

  /** NULL, -1, or a request for another server that the caller has to look at. */
  datatype Outcome = Finished | Failed | Returned(request: Message)

  /** A thread serving one client: what it shares, what the client will still ask, and what it has done. */
  class Forwarder {
    const cache: P.ConnectionCache<string>
    const replacements: seq<Header>
    const ntlmBasic: bool
    const serialize: bool
    const sb: Des.SBoxes
    const creds: N.Credentials
    var client: seq<Message>
    var trace: seq<Event>
    ghost var initial: State
    ghost var state: State

    ghost predicate Valid()
      reads this, cache, cache.nodes
    {
      && cache.Valid() && N.Usable(creds)
      && Run(initial, trace) == Some(state)
      && state.pool == P.Keys(cache.Queue()) && state.changes == replacements
    }

    constructor (cache: P.ConnectionCache<string>, client: seq<Message>, replacements: seq<Header>,
                 ntlmBasic: bool, serialize: bool, sb: Des.SBoxes, creds: N.Credentials)
      ensures this.cache == cache && this.client == client && this.replacements == replacements
      ensures this.ntlmBasic == ntlmBasic && this.serialize == serialize && trace == []
      ensures this.sb == sb && this.creds == creds
    {
      this.cache, this.client, this.replacements := cache, client, replacements;
      this.sb, this.creds := sb, creds;
      this.ntlmBasic, this.serialize, trace := ntlmBasic, serialize, [];
    }

    /** Do something that leaves the pool alone. */
    method Emit(e: Event)
      requires Valid() && Step(state, e).Some? && Step(state, e).value.pool == state.pool
      modifies this`trace, this`state
      ensures Valid() && trace == old(trace) + [e] && state == Step(old(state), e).value
    {
      hide Step;
      SameChanges(state, e);
      RunAppend(initial, trace, e);
      trace := trace + [e];
      state := Step(state, e).value;
    }

    /** plist_pop on the connection list; which of the descriptors are closed is arbitrary. */
    method TakeConnection() returns (i: int)
      requires Valid() && state.phase == Start
      modifies this`trace, this`state, cache
      ensures Valid() && forall n :: n in cache.nodes ==> n in old(cache.nodes)
      ensures state == Taken(old(state), state.pool, i)
      ensures |state.pool| <= |old(state.pool)| && (i != 0 ==> |state.pool| < |old(state.pool)|)
    {
      hide Run, Step, Searched, Taken, P.TakeFrom, P.Keys;
      var closed: nat -> bool := *;
      ghost var queue := cache.Queue();
      var aux, closedFds;
      i, aux, closedFds := cache.Take(closed);
      var found := if aux.Some? then Some(i) else None;
      TakeIsSearch(queue, closed);
      TakeStep(state, closedFds, found);
      SameChanges(state, Take(closedFds, found));
      RunAppend(initial, trace, Take(closedFds, found));
      trace := trace + [Take(closedFds, found)];
      state := Step(state, Take(closedFds, found)).value;
    }

    /** A connection from the pool or a new one; without either the client gets a page that says so. */
    method Open() returns (open: bool, link: Link)
      requires Valid() && state.phase == Start
      modifies this`trace, this`state, cache
      ensures Valid() && forall n :: n in cache.nodes ==> n in old(cache.nodes)
      ensures state.current == old(state.current) && state.retried == old(state.retried)
      ensures state.sd == link.sd && state.phase != Start
      ensures |state.pool| <= |old(state.pool)| && (link.wasCached ==> |state.pool| < |old(state.pool)|)
      ensures open ==> state.phase == Ready && Linked(link) && !link.noauth && !state.answered
      ensures state.host == if old(state).host.Some? then old(state).host else old(state).current.hostname
    {
      hide Run, P.Keys, Searched;
      var i := TakeConnection();
      if i != 0 {
        return true, Link(i, true, false, true);
      }
      var fd: int := *;
      Emit(Connect(fd));
      open, link := fd > 0, Link(fd, false, false, false);
      if fd <= 0 {
        Emit(Page(502));
      }
    }

    /** The connection may go into the pool. */
    ghost predicate Storable()
      reads this
    {
      state.authok && (state.phase == Ready || (state.phase == Replied && state.keep))
    }

    /** The end of forward_request: keep the connection for reuse, or close it. */
    method Bailout(sd: int, proxyAlive: bool, authok: bool)
      requires Valid() && state.phase != Start && sd == state.sd
      requires proxyAlive && authok ==> Storable()
      modifies this`trace, this`state, cache, cache.nodes
      ensures Valid() && state.phase == Done
      ensures state.current == old(state.current) && state.answered == old(state.answered)
      ensures state.host == old(state.host)
      ensures || (trace == old(trace) + [Close(sd)] && state.pool == old(state.pool))
              || (trace == old(trace) + [Store(sd)] && state.pool == old(state.pool) + [sd] && proxyAlive && authok
                  && !ntlmBasic)
    {
      var closed: bool := *;
      if proxyAlive && authok && !ntlmBasic && !closed {
        Keep(sd);
      } else {
        Emit(Close(sd));
      }
    }

    method Keep(sd: int)
      requires Valid() && Storable() && sd == state.sd
      modifies this`trace, this`state, cache, cache.nodes
      ensures Valid() && state.phase == Done
      ensures state.current == old(state.current) && state.answered == old(state.answered)
      ensures state.host == old(state.host)
      ensures trace == old(trace) + [Store(sd)] && state.pool == old(state.pool) + [sd]
    {
      hide Run;
      var tcreds: string := *;
      ghost var queue := cache.Queue();
      cache.Store(sd, tcreds);
      KeysAppend(queue, P.Item(sd, tcreds));
      RunAppend(initial, trace, Store(sd));
      trace := trace + [Store(sd)];
      state := Step(state, Store(sd)).value;
    }

    lemma CredsUsable()
      requires Valid()
      ensures N.Usable(creds)
    {
      hide Run, P.Keys, N.Usable;
    }

    /** The first part of proxy_authenticate: send the probe and read the head of the reply. */
    method SendProbe(request: Message) returns (received: bool, response: Message)
      requires Valid() && state.phase == Ready && !state.authok && !state.noauth && Forwardable(state, request)
               && request.req
      modifies this`trace, this`state
      ensures Valid() && state.phase in {Ready, Probed}
      ensures state == old(state).(phase := state.phase, current := state.current)
      ensures received ==> state.phase == Probed && state.current == request
    {
      hide IsHead, RequestBody, Run, P.Keys, Forwardable;
      var token: string := *;
      var probe := ProbeOf(request, token);
      received := false;
      response := *;
      var sent: bool := *;
      if !sent { return; }
      Emit(Probe(request, token));
      received := *;
    }

    /**
     The branch of proxy_authenticate for a 407 whose body has been dropped: a token is made of the challenge in it,
     if there is one and it can be answered.
     */
    static method AnswerChallenge(sb: Des.SBoxes, creds: N.Credentials, request: Message, response: Message,
                                  memory: string)
        returns (understood: bool, answer: Option<string>, request': Message)
      requires response.code == 407 && N.Usable(creds)
      ensures AnsweredBy(sb, creds, response, memory, understood, answer)
      ensures answer.Some? ==> AsksForToken(response)
      ensures request' == WithToken(request, answer) && RequestBody(request') == RequestBody(request)
    {
      hide RequestBody, T.Manageable, T.Answered, T.IsTokenFor, N.Usable;
      understood, answer, request' := true, None, request;
      var value := Get(response.headers, AUTHENTICATE);
      if value.Some? {
        var text := T.Behind(value.value, memory);
        answer := MakeAnswer(sb, creds, text);
        understood := answer.Some?;
        if understood {
          TokenKeepsBody(request, answer.value);
          request' := request.(headers := Mod(request.headers, AUTHORIZATION, answer.value, true));
        }
      }
    }

    /** The token for a challenge, at an arbitrary time and with an arbitrary nonce. */
    static method MakeAnswer(sb: Des.SBoxes, creds: N.Credentials, text: string) returns (answer: Option<string>)
      requires N.Usable(creds)
      ensures T.Manageable(creds, text) ==> (answer.Some? <==> T.Answered(creds, text))
      ensures T.Manageable(creds, text) && answer.Some? ==> T.IsTokenFor(sb, creds, text, answer.value)
    {
      hide T.Manageable, T.ChallengeIn, T.IsTokenFor, T.Token, N.InfoOf, N.Usable;
      answer := *;
      if T.Manageable(creds, text) {
        var time := EightBytes();
        var nonce := EightBytes();
        answer := T.MakeToken(sb, creds, text, time, nonce);
      }
    }

    static method EightBytes() returns (bytes: seq<bv8>)
      ensures |bytes| == 8
    {
      var b0: bv8, b1: bv8, b2: bv8, b3: bv8, b4: bv8, b5: bv8, b6: bv8, b7: bv8 := *, *, *, *, *, *, *, *;
      bytes := [b0, b1, b2, b3, b4, b5, b6, b7];
    }

    /** The lesson of a probe, when its reply was heard with these credentials. */
    static ghost predicate Understood(sb: Des.SBoxes, creds: N.Credentials, lesson: Lesson) {
      lesson.reply.code == 407 ==>
        exists memory, understood :: AnsweredBy(sb, creds, lesson.reply, memory, understood, lesson.token)
    }

    static lemma Heard(sb: Des.SBoxes, creds: N.Credentials, reply: Message, memory: string,
                       understood: bool, token: Option<string>)
      requires reply.code == 407 ==> AnsweredBy(sb, creds, reply, memory, understood, token)
      ensures Understood(sb, creds, Lesson(reply, token))
    {
      hide AnsweredBy;
      assert Lesson(reply, token).reply == reply && Lesson(reply, token).token == token;
    }

    /**
     proxy_authenticate. On success either the request is ready to be sent, with a token if the proxy asked for one in
     a way that was understood, or the response is the answer to it; a request that must not be answered by the
     response comes with a 407.
     */
    method Authenticate(request: Message, sd: int, creds: N.Credentials)
        returns (rc: bool, sd': int, request': Message, response: Message)
      requires Valid() && state.phase == Ready && sd == state.sd && !state.authok && !state.noauth
      requires Forwardable(state, request) && request.req && N.Usable(creds)
      modifies this`trace, this`state
      ensures Valid() && sd' == state.sd && state.phase in {Ready, Probed, Informed, Done}
      ensures state
              == old(state).(phase := state.phase, sd := state.sd, current := state.current, learned := state.learned)
      ensures rc ==> state.phase == Informed && state.current == request && state.learned.Some?
      ensures rc ==> Understood(sb, creds, state.learned.value)
      ensures rc && response.code == 407 ==> SendableAfterProbe(state, request')
      ensures rc && response.code != 407 ==> ReplyWillDo(state, response)
    {
      hide IsHead, RequestBody, Run, P.Keys, Forwardable, AsksForToken, WithToken, SameLine, Step, AnsweredBy, N.Usable,
           Valid, ProbeOnly;
      var pretend407 := ProbeOnly(request);
      rc, sd', request' := false, sd, request;
      var received;
      received, response := SendProbe(request);
      if !received { return; }
      NoToken(request);
      var understood, answer := true, None;
      var memory: string := *;
      if response.code == 407 {
        var dropped: bool := *;
        if !dropped { return; }
        understood, answer, request' := AnswerChallenge(sb, creds, request, response, memory);
      }
      Heard(sb, creds, response, memory, understood, answer);
      var dropped: bool, hungUp: bool, fd: int := *, *, *;
      rc, sd', response := Conclude(request, sd, response, answer, understood, pretend407, dropped, hungUp, fd);
    }

    /**
     The last part of proxy_authenticate: the reply to a probe that must not reach the client is marked as a 407 and
     its body dropped, and a connection that the proxy has closed is replaced. The last three arguments tell what
     dropping the body, asking whether the connection is closed, and connecting again come to.
     */
    method Conclude(request: Message, sd: int, response: Message, answer: Option<string>, understood: bool,
                    pretend407: bool, dropped: bool, hungUp: bool, fd: int)
        returns (rc: bool, sd': int, response': Message)
      requires Valid() && state.phase == Probed && sd == state.sd && request == state.current
      requires (answer.Some? ==> AsksForToken(response)) && (!understood ==> response.code == 407)
      requires pretend407 == ProbeOnly(request)
      modifies this`trace, this`state
      ensures Valid() && sd' == state.sd && state.phase in {Informed, Done}
      ensures state == old(state).(phase := state.phase, sd := sd', learned := Some(Lesson(response, answer)))
      ensures rc ==> state.phase == Informed
      ensures rc ==> response' == if pretend407 then response.(code := 407) else response
      ensures var failed := pretend407 && response.code != 407 && !dropped;
              && (rc <==> !failed && (understood && hungUp ==> fd >= 0))
              && trace == old(trace) + [Learn(response, answer)]
                          + (if understood && !failed && hungUp then [Reconnect(sd, fd)] else [])
    {
      hide *;
      rc, sd', response' := false, sd, response;
      LearnStep(state, response, answer);
      Emit(Learn(response, answer));
      if pretend407 && response.code == 407 {
        assert response.(code := 407) == response;
      }
      if !understood { return true, sd', response'; }
      if response.code != 407 && pretend407 {
        response' := response.(code := 407);
        if !dropped { return; }
      }
      rc, sd' := Reopen(sd, hungUp, fd);
    }

    /** A connection that the proxy has closed is replaced. */
    method Reopen(sd: int, hungUp: bool, fd: int) returns (rc: bool, sd': int)
      requires Valid() && state.phase == Informed && sd == state.sd
      modifies this`trace, this`state
      ensures Valid() && sd' == (if hungUp then fd else sd) && (rc <==> (hungUp ==> fd >= 0))
      ensures state == old(state).(phase := if rc then Informed else Done, sd := sd')
      ensures trace == old(trace) + (if hungUp then [Reconnect(sd, fd)] else [])
    {
      hide *;
      rc, sd' := true, sd;
      if hungUp {
        ReconnectStep(state, fd);
        Emit(Reconnect(sd, fd));
        sd' := fd;
        rc := fd >= 0;
      }
    }

    ghost predicate Linked(link: Link)
      reads this
    {
      && state.sd == link.sd && state.cached == link.wasCached && state.noauth == link.noauth
      && state.authok == link.authok && (link.wasCached ==> link.authok)
    }

    /**
     The first pass of the inner loop and the beginning of the second: authenticate if that has not been done, send
     the request unless the reply to the probe will do, and read the reply.
     */
    method Ask(link: Link, data: Message) returns (asked: Asked, link': Link)
      requires Valid() && Linked(link) && state.phase == Ready && Forwardable(state, data)
      modifies this`trace, this`state
      ensures Valid() && state.pool == old(state.pool) && state.number == old(state.number)
      ensures state.host == old(state.host)
      ensures link'.wasCached == link.wasCached && link'.authok == link.authok
      ensures asked.Got? ==> state.current.req == data.req && state.current.verb == data.verb
      ensures asked.Broken? ==> state.phase != Start && state.sd == link'.sd
      ensures asked.Denied? ==>
              state.phase == Start && state.current == asked.request == data && (link.wasCached || link.noauth)
      ensures asked.Got? && asked.source == FromProbe ==>
                && state.phase == Informed && ReplyWillDo(state, asked.reply)
                && Linked(link'.(noauth := link.noauth)) && link'.noauth == (asked.reply.code < 400) && !link.authok
      ensures asked.Got? && asked.source == FromRequest ==>
                && state.phase == Sent && Linked(link') && link'.noauth == link.noauth
                && !(asked.reply.code == 407 && (link.wasCached || link.noauth))
    {
      hide Run, P.Keys, Forwardable, SendableAfterProbe, ReplyWillDo, Step, Understood, N.Usable, Valid;
      CredsUsable();
      link' := link;
      asked := Broken;
      SameVerb(state, data);
      var data := data;
      if data.req && !link.authok && !link.noauth {
        var theirs: N.Credentials := *;
        var used := if ntlmBasic && N.Usable(theirs) then theirs else creds;
        var rc, sd, request, response := Authenticate(data, link.sd, used);
        link' := link.(sd := sd);
        if !rc { return; }
        if response.code != 407 {
          link' := link'.(noauth := response.code < 400);
          return Got(FromProbe, response), link';
        }
        SameVerbWithToken(state, request);
        data := request;
      }
      var sent: bool := *;
      if !sent { return; }
      SendStep(state, data);
      Emit(Send(data));
      var bodySent: bool := *;
      if !bodySent { return; }
      var received: bool := *;
      if !received { return; }
      var reply: Message := *;
      if reply.code == 407 && (link'.wasCached || link'.noauth) {
        RetryStep(state, reply);
        Emit(Retry(link'.sd, reply));
        return Denied(data), link';
      }
      asked := Got(FromRequest, reply);
    }

    /** The second pass of the inner loop: the reply goes to the client. */
    method Deliver(link: Link, request: Message, source: Source, reply: Message)
        returns (delivered: bool, link': Link, proxyAlive: bool, connAlive: bool)
      requires Valid() && state.sd == link.sd && state.phase in {Informed, Sent}
      requires source == FromProbe ==> state.phase == Informed && ReplyWillDo(state, reply)
                                       && link.noauth == (reply.code < 400) && !link.authok
      requires source == FromRequest ==>
               state.phase == Sent && Linked(link) && !(reply.code == 407 && (link.wasCached || link.noauth))
      requires state.cached == link.wasCached && state.authok == link.authok && (link.wasCached ==> link.authok)
      requires request.req == state.current.req && request.verb == state.current.verb
      modifies this`trace, this`state
      ensures Valid() && state.pool == old(state.pool) && state.host == old(state.host)
      ensures link'.sd == link.sd && state.sd == link.sd
              && state.phase != Start
      ensures delivered ==>
              state.phase == Replied && state.answered && Linked(link') && link' == link.(authok := link'.authok)
      ensures delivered ==> proxyAlive == state.keep && (proxyAlive && connAlive <==> state.again)
      ensures !delivered ==> !proxyAlive
    {
      hide Run, P.Keys, IsHead, RequestBody, FinishedHeaders;
      link' := link;
      delivered, proxyAlive := false, false;
      if !link.noauth && reply.code != 407 {
        link' := link'.(authok := true);
      }
      var finished;
      finished, connAlive := FinishReply(reply);
      var sent: bool := *;
      if !sent { return; }
      Emit(Answer(source, reply, finished));
      if IsConnect(request) && reply.code == 200 { return; }
      var bodySent: bool := *;
      if !bodySent { return; }
      delivered := true;
      proxyAlive := Mentions(finished.headers, "Proxy-Connection", "keep-alive");
    }

    /** The client's next request, if it has one and stays connected. */
    method ReadRequest() returns (request: Option<Message>)
      requires Valid() && state.phase == Replied && state.again
      modifies this`client, this`trace, this`state
      ensures Valid()
      ensures request.Some? ==>
                && |client| < |old(client)|
                && state == old(state).(phase := Ready, current := request.value, answered := false, retried := false,
                                        number := old(state).number + 1, learned := None, keep := false,
                                        again := false)
      ensures request.None? ==> state == old(state) && |client| <= |old(client)|
    {
      hide Run, P.Keys;
      var received: bool := *;
      if client == [] || !received { return None; }
      request := Some(client[0]);
      client := client[1..];
      Emit(NewRequest(request.value));
    }

    /** The NTLM-to-Basic check and the changes to the headers of a request. */
    method Prepare(data: Message) returns (refused: bool, prepared: Message)
      requires Valid() && state.phase == Ready && data == state.current && !OtherHost(state.host, data)
               && (state.retried ==> Settled(data, replacements))
      modifies this`trace, this`state
      ensures Valid() && state.pool == old(state.pool) && state.sd == old(state.sd) && state.host == old(state.host)
      ensures refused ==> state.phase == Done && data.req && ntlmBasic
      ensures ntlmBasic && data.req && !Mentions(data.headers, AUTHORIZATION, "basic") ==> refused
      ensures !refused ==> state == old(state) && Forwardable(state, prepared) && Settled(prepared, replacements)
      ensures prepared == if !refused && data.req then data.(headers := Prepared(data.headers, replacements)) else data
    {
      hide Run, P.Keys, Prepared, Mentions;
      refused, prepared := false, data;
      if data.req {
        var parsed: bool := *;
        if !(parsed && Mentions(data.headers, "Proxy-Authorization", "basic")) && ntlmBasic {
          Emit(Page(407));
          return true, data;
        }
        var headers := PrepareHeaders(data.headers, replacements);
        prepared := data.(headers := headers);
        PreparedRequest(data.headers, replacements);
        PreparedIsSettled(data, replacements);
      }
    }

    /** What is known after a turn of the loop. */
    ghost predicate Leads(next: Next, link: Link, proxyAlive: bool)
      reads this
    {
      match next
      case Again => state.phase == Replied && state.again && Linked(link)
      case StartOver(request) => state.phase == Start && state.current == request && Settled(request, replacements)
      case Over(outcome) =>
        && state.phase != Start && state.sd == link.sd
        && (proxyAlive && link.authok ==> Storable())
        && (outcome.Returned? ==>
              state.current == outcome.request && !state.answered && OtherHost(state.host, outcome.request))
        && (outcome.Finished? ==> state.answered)
    }

    /** One turn of the loop over the client's requests; the first request of a connection is supplied. */
    method Exchange(link: Link, supplied: Option<Message>, hostname: Option<string>)
        returns (next: Next, link': Link, proxyAlive: bool)
      requires Valid() && Linked(link) && hostname == state.host
      requires supplied.Some? ==>
               state.phase == Ready && state.current == supplied.value && !link.noauth && !state.answered
      requires supplied.Some? && state.retried ==> Settled(supplied.value, replacements)
      requires supplied.None? ==> state.phase == Replied && state.again
      modifies this`client, this`trace, this`state
      ensures Valid() && state.pool == old(state.pool) && |client| <= |old(client)| && state.host == old(state).host
      ensures supplied.None? && !next.Over? ==> |client| < |old(client)|
      ensures next.StartOver? && supplied.Some? ==> link.wasCached
      ensures Leads(next, link', proxyAlive)
    {
      hide Run, P.Keys, Step, Forwardable, ReplyWillDo, Settled, Prepared, SameName, IsHead, RequestBody, ProbeOnly,
           Valid;
      next, link', proxyAlive := Over(Failed), link, false;
      var request := supplied;
      if request == None {
        request := ReadRequest();
        if request == None { return; }
      }
      var data := request.value;
      if OtherHost(hostname, data) {
        return Over(Returned(data)), link, link.authok;
      }
      var refused;
      refused, data := Prepare(data);
      if refused { return; }
      var asked;
      asked, link' := Ask(link, data);
      if asked.Broken? { return; }
      if asked.Denied? { return StartOver(asked.request), link', false; }
      var delivered, connAlive;
      delivered, link', proxyAlive, connAlive := Deliver(link', data, asked.source, asked.reply);
      if !delivered { return; }
      var closedByProxy: bool, closedByClient: bool := *, *;
      if connAlive && proxyAlive && !closedByProxy && !closedByClient && !serialize {
        next := Again;
      } else {
        next := Over(if proxyAlive then Finished else Failed);
      }
    }

    method Begin(request: Message)
      requires cache.Valid() && N.Usable(creds)
      modifies this`trace, this`initial, this`state
      ensures Valid() && trace == [] && initial == state == Initial(P.Keys(cache.Queue()), request, replacements)
      ensures state.phase == Start && state.current == request && !state.retried && state.host == None
    {
      hide Run;
      trace := [];
      initial := Initial(P.Keys(cache.Queue()), request, replacements);
      state := initial;
      RunOfNothing(initial);
    }

    /**
     forward_request. Each turn of the loop is one pass from the label `beginning`; it ends for good because every
     further pass takes a connection out of the pool or has read another request of the client.
     */
    method ForwardRequest(request: Message) returns (outcome: Outcome)
      requires cache.Valid() && N.Usable(creds)
      modifies this, cache, cache.nodes
      ensures Valid() && initial == Initial(old(P.Keys(cache.Queue())), request, replacements) && state.phase == Done
      ensures outcome.Returned? ==>
                state.current == outcome.request && !state.answered && OtherHost(state.host, outcome.request)
      ensures outcome.Finished? ==> state.answered
    {
      hide Run, P.Keys, P.Items, Step, Searched, Initial, Valid, Settled;
      Begin(request);
      ghost var first, nodes := initial, cache.nodes;
      assert nodes == old(cache.nodes);
      var request := request;
      var hostname: Option<string> := None;
      while true
        invariant Valid() && initial == first && state.phase == Start && state.current == request
        invariant state.host == hostname
        invariant state.retried ==> Settled(request, replacements)
        invariant forall n :: n in cache.nodes ==> n in nodes
        decreases |client|, |state.pool|
      {
        ghost var clientNow, poolThen := |client|, |state.pool|;
        var open, link := Open();
        ghost var poolNow := state.pool;
        assert forall i | 0 <= i < |cache.nodes| :: cache.nodes[i] in nodes;
        if !open {
          Bailout(link.sd, false, false);
          return Failed;
        }
        if hostname == None {
          hostname := request.hostname;
        }
        var next, proxyAlive;
        next, link, proxyAlive := Exchange(link, Some(request), hostname);
        while next.Again?
          invariant Valid() && state.pool == poolNow && Leads(next, link, proxyAlive) && state.host == hostname
          invariant next.StartOver? ==> |client| < clientNow || (|client| == clientNow && |poolNow| < poolThen)
          invariant |client| <= clientNow
          modifies this`client, this`trace, this`state
          decreases |client|, next.Again?
        {
          next, link, proxyAlive := Exchange(link, None, hostname);
        }
        if next.Over? {
          Bailout(link.sd, proxyAlive, link.authok);
          return next.outcome;
        }
        request := next.request;
      }
    }
  }

  /** What follows a turn of the loop: another turn, the end, or a new start with a request. */
  datatype Next = Again | Over(outcome: Outcome) | StartOver(request: Message)

  lemma SameVerb(s: State, request: Message)
    requires Forwardable(s, request)
    ensures request.req == s.current.req && request.verb == s.current.verb
  {
  }

  lemma SameVerbWithToken(s: State, request: Message)
    requires SendableAfterProbe(s, request)
    ensures request.req == s.current.req && request.verb == s.current.verb
  {
  }

  lemma SameChanges(s: State, e: Event)
    ensures Step(s, e).Some? ==> Step(s, e).value.changes == s.changes && (!e.Take? ==> Step(s, e).value.host == s.host)
  {
    hide Forwardable, SendableAfterProbe, ReplyWillDo, AsksForToken, ProbeOnly, Keeps, Told, FinishedReply, Searched;
  }

  lemma RunOfNothing(s: State)
    ensures Run(s, []) == Some(s)
  {
  }

  /** The connection to the proxy and its flags. */
  datatype Link = Link(sd: int, wasCached: bool, noauth: bool, authok: bool)

  /** No reply; a 407 after which the request starts over; a reply for the client. */
  datatype Asked = Broken | Denied(request: Message) | Got(source: Source, reply: Message)

  lemma KeysAppend<T>(queue: seq<P.Item<T>>, item: P.Item<T>)
    ensures P.Keys(queue + [item]) == P.Keys(queue) + [item.key]
  {
  }

  lemma TakeIsSearch<T>(queue: seq<P.Item<T>>, closed: nat -> bool)
    ensures var (id, aux, closedFds, rest) := P.TakeFrom(queue, closed);
            && Searched(P.Keys(queue), closedFds, if aux.Some? then Some(id) else None)
            && P.Keys(rest) == (if aux.Some? then P.Keys(queue)[|closedFds| + 1..] else [])
            && (aux.Some? ==> |closedFds| < |queue|) && (aux.None? ==> id == 0)
  {
  }
}
