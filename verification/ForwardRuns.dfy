/**
 What forward_request of cntlm-0.92.3/forward.c may do, as a state machine over the events one can observe: connections
 taken, opened, closed and stored, messages written to the proxy and to the client. The lemmas hold for every run of it.
 */
module ForwardRuns {
  import opened Headers
  import opened Messages
  import opened Options
  import opened Rewriting

  datatype Source = FromProbe | FromRequest

  datatype Event =
    | Take(closed: seq<int>, found: Option<int>)   // search the pool; descriptors closed on the way
    | Connect(fd: int)                             // proxy_connect gave this result
    | Probe(asked: Message, first: string)         // ProbeOf the request goes out with a first token
    | Learn(reply: Message, token: Option<string>) // the reply to it, and the token made of it if one was
    | Reconnect(was: int, fd: int)                 // the proxy hung up after the probe
    | Send(request: Message)                       // the client's request, and its body
    | Answer(source: Source, reply: Message, answer: Message)  // a reply of the proxy, and how it goes to the client
    | Page(code: int)                              // a page of cntlm's own goes to the client
    | Retry(fd: int, reply: Message)               // after this reply give up the connection, and start over
    | NewRequest(request: Message)                 // read the client's next request
    | Store(fd: int)
    | Close(fd: int)

  datatype Phase = Start | Searching | Refused | Ready | Probed | Informed | Sent | Replied | Done

  /** What a probe has led to. */
  datatype Lesson = Lesson(reply: Message, token: Option<string>)

  /**
   The pool; the connection with its flags was_cached, noauth and authok; the request being served, its number,
   whether it has been answered or started over, and the number of the request for which the connection was opened. Then
   what the probe for this request has led to, and the same for the request by which the connection came to count as
   authenticated; whether the proxy keeps the connection after the last answer, and whether the client may go on. The
   changes to the headers of requests that were configured never change; the server the first request was for does not
   either.
   */
  datatype State = State(phase: Phase, pool: seq<int>, sd: int, cached: bool, noauth: bool, authok: bool,
                         current: Message, number: nat, answered: bool, retried: bool, openedFor: nat,
                         learned: Option<Lesson>, counted: Option<Lesson>, keep: bool, again: bool,
                         changes: seq<Header>, host: Option<string>)

  function Initial(pool: seq<int>, request: Message, changes: seq<Header>): State {
    State(Start, pool, 0, false, false, false, request, 0, false, false, 0, None, None, false, false, changes, None)
  }

  /** Only a probe may be sent before the proxy has authenticated the connection. */
  predicate ProbeOnly(request: Message) {
    IsHead(request) || RequestBody(request) != 0
  }

  /** The same request line. */
  predicate SameLine(m: Message, m': Message) {
    m'.(headers := m.headers) == m
  }

  /** The search of the pool: closed descriptors up to the first open one, or all of them. */
  predicate Searched(pool: seq<int>, closed: seq<int>, found: Option<int>) {
    closed + (match found case Some(fd) => [fd] case None => []) <= pool && (found == None ==> closed == pool)
  }

  /** A token is made only of a real 407 that offers a way to authenticate. */
  predicate AsksForToken(reply: Message) {
    reply.code == 407 && Has(reply.headers, AUTHENTICATE)
  }

  /** The request is for another server. */
  predicate OtherHost(host: Option<string>, request: Message) {
    host.Some? && request.hostname.Some? && !SameName(host.value, request.hostname.value)
  }

  lemma OwnHost(request: Message)
    ensures !OtherHost(request.hostname, request)
  {
  }

  /**
   The request as it leaves for the proxy: with its headers changed, and nothing else; it is not for another server.
   */
  predicate Forwardable(s: State, request: Message) {
    request == PreparedOf(s.current, s.changes) && !OtherHost(s.host, s.current)
  }

  /** After a probe: the request as it was, with the token; not if the reply to the probe will do. */
  predicate SendableAfterProbe(s: State, request: Message) {
    && s.learned.Some? && request == WithToken(s.current, s.learned.value.token)
    && (s.learned.value.reply.code == 407 || ProbeOnly(s.current))
  }

  /** The reply to the probe is the answer to the request. */
  predicate ReplyWillDo(s: State, reply: Message) {
    s.learned.Some? && reply == s.learned.value.reply && reply.code != 407 && !ProbeOnly(s.current)
  }

  /** The proxy says that it keeps the connection, and the connection has not become a tunnel. */
  predicate Keeps(request: Message, reply: Message) {
    && !(IsConnect(request) && reply.code == 200)
    && Mentions(FinishedHeaders(reply.headers, reply.code), "Proxy-Connection", "keep-alive")
  }

  /** What an answer means for what may follow. */
  function Told(s: State, reply: Message): (t: State)
    ensures t == s.(keep := t.keep, again := t.again)
  {
    var keep := Keeps(s.current, reply);
    s.(keep := keep, again := keep && Mentions(reply.headers, "Connection", "keep-alive"))
  }

  /** A forwarded request has the line it had, no authorization of the client's, and once prepared its body. */
  lemma ForwardableMeans(s: State, request: Message)
    requires Forwardable(s, request)
    ensures SameLine(request, s.current) && request.req == s.current.req
    ensures request.req ==> !Has(request.headers, AUTHORIZATION)
    ensures Settled(request, s.changes)
    ensures Settled(s.current, s.changes) ==> RequestBody(request) == RequestBody(s.current)
  {
    hide Prepared, Has, RequestBody;
    if s.current.req {
      PreparedRequest(s.current.headers, s.changes);
      PreparedIsSettled(s.current, s.changes);
    }
  }

  /** The state after an event, or None if forward_request never does that in that state. */
  function Step(s: State, e: Event): Option<State> {
    match e
    case Take(closed, found) =>
      if s.phase == Start && Searched(s.pool, closed, found) then
        var rest := if found.Some? then s.pool[|closed| + 1..] else [];
        Some(Taken(s, rest, if found.Some? then found.value else 0))
      else None
    case Connect(fd) =>
      if s.phase == Searching then Some(s.(phase := if fd > 0 then Ready else Refused, sd := fd)) else None
    case Probe(asked, first) =>
      if s.phase == Ready && !s.authok && !s.noauth && Forwardable(s, asked) && asked.req then
        Some(s.(phase := Probed, current := asked))
      else None
    case Learn(reply, token) =>
      if s.phase == Probed && (token.Some? ==> AsksForToken(reply)) then
        Some(s.(phase := Informed, learned := Some(Lesson(reply, token))))
      else None
    case Reconnect(was, fd) =>
      if s.phase == Informed && was == s.sd then
        Some(s.(phase := if fd < 0 then Done else Informed, sd := fd))
      else None
    case Send(request) =>
      if || (s.phase == Informed && SendableAfterProbe(s, request))
         || (s.phase == Ready && Forwardable(s, request) && (s.authok || s.noauth || !request.req))
      then Some(s.(phase := Sent, current := request)) else None
    case Answer(FromProbe, reply, answer) =>
      if s.phase == Informed && ReplyWillDo(s, reply) && answer == FinishedReply(reply) then
        var error := reply.code >= 400;
        Some(Told(s, reply).(phase := Replied, answered := true, noauth := !error, authok := error,
                             counted := if error then s.learned else s.counted))
      else None
    case Answer(FromRequest, reply, answer) =>
      if s.phase == Sent && !(reply.code == 407 && (s.cached || s.noauth)) && answer == FinishedReply(reply) then
        var now := !s.authok && !s.noauth && reply.code != 407;
        Some(Told(s, reply).(phase := Replied, answered := true, authok := s.authok || now,
                             counted := if now then s.learned else s.counted))
      else None
    case Page(code) =>
      if (s.phase == Refused && code == 502) || (s.phase == Ready && code == 407) then
        Some(s.(phase := Done, answered := true))
      else None
    case Retry(fd, reply) =>
      if s.phase == Sent && fd == s.sd && reply.code == 407 && (s.cached || s.noauth) then
        Some(s.(phase := Start, sd := 0, cached := false, noauth := false, authok := false, retried := true,
                learned := None, counted := None))
      else None
    case NewRequest(request) =>
      if s.phase == Replied && s.again then
        Some(s.(phase := Ready, current := request, number := s.number + 1, answered := false, retried := false,
                learned := None, keep := false, again := false))
      else None
    case Store(fd) =>
      if (s.phase == Ready || (s.phase == Replied && s.keep)) && fd == s.sd && s.authok then
        Some(s.(phase := Done, sd := 0, pool := s.pool + [fd]))
      else None
    case Close(fd) =>
      if s.phase != Start && fd == s.sd then Some(s.(phase := Done, sd := 0)) else None
  }

  /** What the search of the pool leads to. */
  function Taken(s: State, rest: seq<int>, i: int): State {
    s.(phase := if i != 0 then Ready else Searching, pool := rest, sd := i,
       cached := i != 0, noauth := false, authok := i != 0,
       answered := false, openedFor := s.number, learned := None, counted := None,
       host := if s.host.Some? then s.host else s.current.hostname)
  }

  function Run(s: State, trace: seq<Event>): Option<State> {
    if trace == [] then Some(s)
    else
      match Run(s, trace[..|trace| - 1])
      case Some(t) => Step(t, trace[|trace| - 1])
      case None => None
  }

  lemma TakeStep(s: State, closed: seq<int>, found: Option<int>)
    requires s.phase == Start && Searched(s.pool, closed, found)
    ensures var rest := if found.Some? then s.pool[|closed| + 1..] else [];
            var next := Taken(s, rest, if found.Some? then found.value else 0);
            Step(s, Take(closed, found)) == Some(next) && next.pool == rest
  {
  }

  // Single steps, for those who take them.

  lemma LearnStep(s: State, reply: Message, token: Option<string>)
    requires s.phase == Probed && (token.Some? ==> AsksForToken(reply))
    ensures Step(s, Learn(reply, token)) == Some(s.(phase := Informed, learned := Some(Lesson(reply, token))))
  {
  }

  lemma ReconnectStep(s: State, fd: int)
    requires s.phase == Informed
    ensures Step(s, Reconnect(s.sd, fd)) == Some(s.(phase := if fd < 0 then Done else Informed, sd := fd))
  {
  }

  lemma SendStep(s: State, request: Message)
    requires || (s.phase == Informed && SendableAfterProbe(s, request))
             || (s.phase == Ready && Forwardable(s, request) && (s.authok || s.noauth || !request.req))
    ensures Step(s, Send(request)) == Some(s.(phase := Sent, current := request))
  {
  }

  lemma RetryStep(s: State, reply: Message)
    requires s.phase == Sent && reply.code == 407 && (s.cached || s.noauth)
    ensures Step(s, Retry(s.sd, reply))
            == Some(s.(phase := Start, sd := 0, cached := false, noauth := false, authok := false, retried := true,
                       learned := None, counted := None))
  {
  }

  lemma RunAppend(s: State, trace: seq<Event>, e: Event)
    requires Run(s, trace).Some?
    ensures Run(s, trace + [e]) == Step(Run(s, trace).value, e)
  {
    assert (trace + [e])[..|trace|] == trace;
  }

  lemma RunSplits(s: State, trace: seq<Event>, e: Event)
    requires Run(s, trace + [e]).Some?
    ensures Run(s, trace).Some? && Step(Run(s, trace).value, e) == Run(s, trace + [e])
  {
    hide Step;
    assert (trace + [e])[..|trace|] == trace;
  }

  // ---------- counting ----------

  function RetriesAfter(retries: nat, e: Event): nat {
    match e
    case Retry(_, _) => retries + 1
    case NewRequest(_) => 0
    case _ => retries
  }

  /** How often the request served last has been started over. */
  function Retries(trace: seq<Event>): nat {
    if trace == [] then 0
    else
      RetriesAfter(Retries(trace[..|trace| - 1]), trace[|trace| - 1])
  }

  function SendsAfter(sends: nat, e: Event): nat {
    match e
    case Send(_) => sends + 1
    case NewRequest(_) => 0
    case _ => sends
  }

  /** How often the request served last has been sent in full, its body taken from the client. */
  function Sends(trace: seq<Event>): nat {
    if trace == [] then 0
    else
      SendsAfter(Sends(trace[..|trace| - 1]), trace[|trace| - 1])
  }

  function BodiesAfter(bodies: nat, e: Event): nat {
    match e
    case Send(request) => if RequestBody(request) != 0 then bodies + 1 else bodies
    case NewRequest(_) => 0
    case _ => bodies
  }

  /** How often a body for the request served last has been asked from the client. */
  function BodiesTaken(trace: seq<Event>): nat {
    if trace == [] then 0 else BodiesAfter(BodiesTaken(trace[..|trace| - 1]), trace[|trace| - 1])
  }

  function Answers(trace: seq<Event>): nat {
    if trace == [] then 0
    else
      var last := trace[|trace| - 1];
      Answers(trace[..|trace| - 1]) + if last.Answer? || last.Page? then 1 else 0
  }

  function One(a: int, b: int): nat {
    if a == b then 1 else 0
  }

  /** How often a descriptor occurs. */
  function Times(fds: seq<int>, fd: int): nat {
    if fds == [] then 0 else One(fds[0], fd) + Times(fds[1..], fd)
  }

  lemma {:induction false} TimesAppends(a: seq<int>, b: seq<int>, fd: int)
    ensures Times(a + b, fd) == Times(a, fd) + Times(b, fd)
  {
    if a == [] {
      assert a + b == b;
    } else {
      TimesAppends(a[1..], b, fd);
      assert (a + b)[1..] == a[1..] + b && (a + b)[0] == a[0];
    }
  }

  function OpenedBy(e: Event, fd: int): nat {
    match e
    case Connect(given) => One(given, fd)
    case Reconnect(_, given) => One(given, fd)
    case _ => 0
  }

  function ClosedBy(e: Event, fd: int): nat {
    match e
    case Take(closed, _) => Times(closed, fd)
    case Reconnect(was, _) => One(was, fd)
    case Retry(was, _) => One(was, fd)
    case Close(was) => One(was, fd)
    case _ => 0
  }

  /** How often proxy_connect has given a descriptor. */
  function Opened(trace: seq<Event>, fd: int): nat {
    if trace == [] then 0 else Opened(trace[..|trace| - 1], fd) + OpenedBy(trace[|trace| - 1], fd)
  }

  /** How often a descriptor was passed to close. */
  function Closed(trace: seq<Event>, fd: int): nat {
    if trace == [] then 0 else Closed(trace[..|trace| - 1], fd) + ClosedBy(trace[|trace| - 1], fd)
  }

  // ---------- retries ----------

  function Max(a: nat, b: nat): nat {
    if a > b then a else b
  }

  /** The retries still possible shrink with the pool, and by one when the current connection is given up. */
  predicate RetryBudget(s: State, retries: nat, pool: nat) {
    && retries <= (if s.number == 0 then pool else Max(1, pool))
    && (s.phase == Replied ==> s.answered)
    && (s.answered ==> s.phase == Replied || s.phase == Done)
    && (s.phase != Done ==> Remaining(s, retries, pool))
  }

  predicate Remaining(s: State, retries: nat, pool: nat) {
    && |s.pool| <= pool
    && (s.phase != Start ==> |s.pool| < pool || |s.pool| == 0)
    && (s.cached ==> |s.pool| < pool)
    && (!s.answered ==> retries + |s.pool| + (if s.cached || s.noauth then 1 else 0) <= Max(1, pool))
    && (s.number == 0 && !s.answered ==> !s.noauth && retries + |s.pool| + (if s.cached then 1 else 0) <= pool)
  }

  lemma BudgetStep(s: State, e: Event, retries: nat, pool: nat)
    requires RetryBudget(s, retries, pool) && Step(s, e).Some?
    ensures RetryBudget(Step(s, e).value, RetriesAfter(retries, e), pool)
  {
    hide IsHead, RequestBody, Forwardable, SendableAfterProbe, ReplyWillDo, AsksForToken, Keeps, Told, FinishedReply;
    if e.Take? {
      assert |s.pool| > 0 ==> |Step(s, e).value.pool| < |s.pool|;
    }
  }

  lemma {:induction false} BudgetIsKept(pool: seq<int>, request: Message, changes: seq<Header>, trace: seq<Event>)
    ensures match Run(Initial(pool, request, changes), trace)
            case Some(s) => RetryBudget(s, Retries(trace), |pool|)
            case None => true
  {
    hide Step, RetryBudget;
    if trace != [] {
      var before := trace[..|trace| - 1];
      BudgetIsKept(pool, request, changes, before);
      match Run(Initial(pool, request, changes), before)
      case Some(s) =>
        if Step(s, trace[|trace| - 1]).Some? {
          BudgetStep(s, trace[|trace| - 1], Retries(before), |pool|);
        }
      case None =>
    } else {
      BudgetAtStart(pool, request, changes);
    }
  }

  lemma BudgetAtStart(pool: seq<int>, request: Message, changes: seq<Header>)
    ensures RetryBudget(Initial(pool, request, changes), 0, |pool|)
  {
  }

  /**
   Serving the request it was called with, forward_request starts over at most once for every connection that was in the
   pool; serving a request it has read later, just as often, or once if the pool was empty.
   */
  lemma RetriesAreBounded(pool: seq<int>, request: Message, changes: seq<Header>, trace: seq<Event>)
    requires Run(Initial(pool, request, changes), trace).Some?
    ensures Retries(trace) <= Max(1, |pool|)
    ensures Run(Initial(pool, request, changes), trace).value.number == 0 ==> Retries(trace) <= |pool|
  {
    BudgetIsKept(pool, request, changes, trace);
  }

  // ---------- one answer for each request, one sending for each attempt ----------

  predicate Tally(s: State, retries: nat, sends: nat, answers: nat) {
    && answers == s.number + (if s.answered then 1 else 0)
    && retries <= sends <= retries + 1
    && (s.phase in {Start, Searching, Refused, Ready, Probed, Informed} ==> sends == retries && !s.answered)
    && (s.phase == Sent ==> sends == retries + 1 && !s.answered)
    && (s.phase == Replied ==> s.answered)
    && s.openedFor <= s.number
    && (s.noauth || (s.authok && !s.cached) ==> s.answered || s.openedFor < s.number)
  }

  lemma TallyStep(s: State, e: Event, retries: nat, sends: nat, answers: nat)
    requires Tally(s, retries, sends, answers) && Step(s, e).Some?
    ensures Tally(Step(s, e).value, RetriesAfter(retries, e), SendsAfter(sends, e),
                  answers + if e.Answer? || e.Page? then 1 else 0)
  {
    hide IsHead, RequestBody, Forwardable, SendableAfterProbe, ReplyWillDo, AsksForToken, Keeps, Told, FinishedReply,
         Searched;
  }

  lemma TallyAtStart(pool: seq<int>, request: Message, changes: seq<Header>)
    ensures Tally(Initial(pool, request, changes), 0, 0, 0)
  {
  }

  lemma {:induction false} TallyIsKept(pool: seq<int>, request: Message, changes: seq<Header>, trace: seq<Event>)
    ensures match Run(Initial(pool, request, changes), trace)
            case Some(s) => Tally(s, Retries(trace), Sends(trace), Answers(trace))
            case None => true
  {
    hide Step, Tally;
    if trace != [] {
      var before, e := trace[..|trace| - 1], trace[|trace| - 1];
      TallyIsKept(pool, request, changes, before);
      match Run(Initial(pool, request, changes), before)
      case Some(s) =>
        if Step(s, e).Some? {
          TallyStep(s, e, Retries(before), Sends(before), Answers(before));
        }
      case None =>
    } else {
      TallyAtStart(pool, request, changes);
    }
  }

  /**
   The client gets one answer to each of its requests, in order: every request before the last one read has been
   answered exactly once, and the last one at most once, however often it was started over.
   */
  lemma OneAnswerEach(pool: seq<int>, request: Message, changes: seq<Header>, trace: seq<Event>)
    requires Run(Initial(pool, request, changes), trace).Some?
    ensures var s := Run(Initial(pool, request, changes), trace).value;
            s.number <= Answers(trace) <= s.number + 1 && (Answers(trace) == s.number + 1 <==> s.answered)
  {
    TallyIsKept(pool, request, changes, trace);
  }

  /**
   A connection that was not in the pool is given up only for a request read later on it: the handshake that finds
   the proxy to want no authentication never starts its own request over.
   */
  lemma HandshakeNeverRetries(pool: seq<int>, request: Message, changes: seq<Header>, trace: seq<Event>, fd: int,
                            reply: Message)
    requires Run(Initial(pool, request, changes), trace + [Retry(fd, reply)]).Some?
    ensures Run(Initial(pool, request, changes), trace).Some?
    ensures var s := Run(Initial(pool, request, changes), trace).value;
            s.sd == fd && reply.code == 407 && (s.cached || (s.noauth && s.openedFor < s.number))
  {
    RunSplits(Initial(pool, request, changes), trace, Retry(fd, reply));
    TallyIsKept(pool, request, changes, trace);
  }

  /** A connection goes into the pool only after it came out of it, or after some request on it was answered. */
  lemma StoredAfterUse(pool: seq<int>, request: Message, changes: seq<Header>, trace: seq<Event>, fd: int)
    requires Run(Initial(pool, request, changes), trace + [Store(fd)]).Some?
    ensures Run(Initial(pool, request, changes), trace).Some?
    ensures var s := Run(Initial(pool, request, changes), trace).value;
            s.sd == fd && (s.cached || s.answered || s.openedFor < s.number)
  {
    RunSplits(Initial(pool, request, changes), trace, Store(fd));
    TallyIsKept(pool, request, changes, trace);
  }

  /** Every sending of a request takes the same body, or none, from the client. */
  predicate BodyTally(s: State, retries: nat, sends: nat, bodies: nat) {
    && (s.retried <==> retries > 0)
    && bodies == (if sends > 0 && RequestBody(s.current) != 0 then sends else 0)
    && (s.retried && s.phase in {Start, Searching, Ready} ==> Settled(s.current, s.changes))
    && (s.phase == Sent && s.learned == None ==> Settled(s.current, s.changes))
  }

  lemma BodyTallyStep(s: State, e: Event, retries: nat, sends: nat, bodies: nat, carried: bool, proven: bool)
    requires Honest(s, carried, proven) && (s.phase == Sent ==> sends == retries + 1)
    requires s.phase in {Ready, Probed, Informed} ==> sends == retries
    requires BodyTally(s, retries, sends, bodies) && Step(s, e).Some?
    ensures BodyTally(Step(s, e).value, RetriesAfter(retries, e), SendsAfter(sends, e), BodiesAfter(bodies, e))
  {
    hide IsHead, RequestBody, ReplyWillDo, AsksForToken, Searched, Settled, Forwardable, Keeps, Told, FinishedReply,
         WithToken;
    match e
    case Probe(asked, _) => ForwardableMeans(s, asked);
    case Send(request) =>
      if s.phase == Ready {
        ForwardableMeans(s, request);
      } else {
        TokenBody(s.current, s.learned.value.token);
      }
    case _ =>
  }

  lemma BodyTallyAtStart(pool: seq<int>, request: Message, changes: seq<Header>)
    ensures BodyTally(Initial(pool, request, changes), 0, 0, 0)
  {
  }

  lemma {:induction false} BodyTallyIsKept(pool: seq<int>, request: Message, changes: seq<Header>, trace: seq<Event>)
    ensures match Run(Initial(pool, request, changes), trace)
            case Some(s) => BodyTally(s, Retries(trace), Sends(trace), BodiesTaken(trace))
            case None => true
  {
    hide Step, Tally, BodyTally, Honest;
    if trace != [] {
      var before, e := trace[..|trace| - 1], trace[|trace| - 1];
      TallyIsKept(pool, request, changes, before);
      HonestIsKept(pool, request, changes, before);
      BodyTallyIsKept(pool, request, changes, before);
      match Run(Initial(pool, request, changes), before)
      case Some(s) =>
        if Step(s, e).Some? {
          SendsTally(s, Retries(before), Sends(before), Answers(before));
          BodyTallyStep(s, e, Retries(before), Sends(before), BodiesTaken(before), Carried(before), Proven(before));
        }
      case None =>
    } else {
      BodyTallyAtStart(pool, request, changes);
    }
  }

  lemma SendsTally(s: State, retries: nat, sends: nat, answers: nat)
    requires Tally(s, retries, sends, answers)
    ensures s.phase == Sent ==> sends == retries + 1
    ensures s.phase in {Ready, Probed, Informed} ==> sends == retries
  {
  }

  /**
   A request goes out in full once for every time it was started over and, unless the run ended before, once more. So
   its body is asked from the client a second time exactly when it has one and the request goes out again after a
   retry.
   */
  lemma BodyIsTakenOnceUnlessRetried(pool: seq<int>, request: Message, changes: seq<Header>, trace: seq<Event>)
    requires Run(Initial(pool, request, changes), trace).Some?
    ensures Retries(trace) <= Sends(trace) <= Retries(trace) + 1
    ensures var s := Run(Initial(pool, request, changes), trace).value;
            && BodiesTaken(trace) == (if RequestBody(s.current) != 0 then Sends(trace) else 0)
            && (s.phase == Sent ==> (BodiesTaken(trace) > 1 <==> Retries(trace) > 0 && RequestBody(s.current) != 0))
  {
    hide RequestBody;
    TallyIsKept(pool, request, changes, trace);
    BodyTallyIsKept(pool, request, changes, trace);
  }

  /** The first request of these runs, once and twice prepared. */
  function Once(asked: Message, changes: seq<Header>): Message {
    PreparedOf(asked, changes)
  }

  function Twice(asked: Message, changes: seq<Header>): Message {
    PreparedOf(PreparedOf(asked, changes), changes)
  }

  function TwiceRun(asked: Message, changes: seq<Header>, token: string, reply: Message): seq<Event> {
    [Take([], Some(7)), Send(Once(asked, changes)), Retry(7, reply),
     Take([], None), Connect(8), Probe(Twice(asked, changes), token), Learn(reply, None), Send(Twice(asked, changes))]
  }

  /** The pooled connection has lost its authentication. */
  lemma DeniedOnce(t: seq<Event>, asked: Message, changes: seq<Header>, reply: Message)
    requires asked.req && reply.code == 407
    requires |t| >= 3 && t[0] == Take([], Some(7)) && t[1] == Send(Once(asked, changes)) && t[2] == Retry(7, reply)
    ensures Run(Initial([7], asked, changes), t[..3])
            == Some(Initial([], Once(asked, changes), changes).(retried := true, host := asked.hostname))
  {
    hide Run, IsHead, RequestBody, Prepared, Has, OtherHost;
    OwnHost(asked);
    var s := Initial([7], asked, changes);
    RunStart(s, t);
    var s1 := TakeOne(s, t, 0);
    assert [7][1..] == [] && s1 == Some(Taken(s, [], 7));
    var s2 := TakeOne(s, t, 1);
    assert s2.value == Taken(s, [], 7).(phase := Sent, current := Once(asked, changes));
    var s3 := TakeOne(s, t, 2);
  }

  lemma TwiceRunIsRun(asked: Message, changes: seq<Header>, token: string, reply: Message)
    requires asked.req && reply.code == 407
    ensures var s := Run(Initial([7], asked, changes), TwiceRun(asked, changes, token, reply));
            s.Some? && s.value.current == Twice(asked, changes) && s.value.phase == Sent
  {
    hide Run, IsHead, RequestBody, ProbeOnly, Prepared, Has, OtherHost;
    OwnHost(Once(asked, changes));
    var t, s := TwiceRun(asked, changes, token, reply), Initial([7], asked, changes);
    DeniedOnce(t, asked, changes, reply);
    var s4 := TakeOne(s, t, 3);
    var s5 := TakeOne(s, t, 4);
    var s6 := TakeOne(s, t, 5);
    var s7 := TakeOne(s, t, 6);
    NoToken(Twice(asked, changes));
    var s8 := TakeOne(s, t, 7);
    assert t[..8] == t;
  }

  /** A run in which that happens. */
  lemma BodyIsTakenTwice(asked: Message, changes: seq<Header>, token: string, reply: Message)
    requires asked.req && RequestBody(Once(asked, changes)) != 0 && reply.code == 407
    ensures var t := TwiceRun(asked, changes, token, reply);
            Run(Initial([7], asked, changes), t).Some? && BodiesTaken(t) == 2
  {
    hide Run, IsHead, RequestBody, Sends, Retries, BodiesTaken, TwiceRun, Initial, Has, Prepared;
    var t := TwiceRun(asked, changes, token, reply);
    TwiceRunIsRun(asked, changes, token, reply);
    TallyIsKept([7], asked, changes, t);
    BodyIsTakenOnceUnlessRetried([7], asked, changes, t);
    RetriedOnce(asked, changes, token, reply);
    SameBodyTwice(asked, changes);
  }

  lemma SameBodyTwice(asked: Message, changes: seq<Header>)
    requires asked.req
    ensures RequestBody(Twice(asked, changes)) == RequestBody(Once(asked, changes))
  {
    hide RequestBody, Prepared;
    PreparedIsSettled(asked, changes);
  }

  lemma RetriedOnce(asked: Message, changes: seq<Header>, token: string, reply: Message)
    ensures Retries(TwiceRun(asked, changes, token, reply)) == 1
  {
    hide Retries, Prepared;
    var t := TwiceRun(asked, changes, token, reply);
    RetriesUpTo(t, 0); RetriesUpTo(t, 1); RetriesUpTo(t, 2); RetriesUpTo(t, 3);
    RetriesUpTo(t, 4); RetriesUpTo(t, 5); RetriesUpTo(t, 6); RetriesUpTo(t, 7);
    assert t[..8] == t;
  }

  lemma RetriesUpTo(trace: seq<Event>, i: nat)
    requires i < |trace|
    ensures Retries(trace[..i + 1]) == RetriesAfter(Retries(trace[..i]), trace[i])
    ensures Retries(trace[..0]) == 0
  {
    assert trace[..i + 1][..i] == trace[..i];
  }

  // ---------- descriptors ----------

  predicate NoConnection(s: State) {
    s.phase in {Start, Searching} ==> s.sd == 0
  }

  lemma DescriptorStep(s: State, e: Event, fd: int)
    requires fd > 0 && Step(s, e).Some? && NoConnection(s)
    ensures var t := Step(s, e).value;
            && NoConnection(t)
            && Times(s.pool, fd) + One(s.sd, fd) + OpenedBy(e, fd)
                == Times(t.pool, fd) + One(t.sd, fd) + ClosedBy(e, fd)
  {
    hide IsHead, RequestBody, Forwardable, SendableAfterProbe, ReplyWillDo, AsksForToken, Keeps, Told, FinishedReply,
         Times;
    match e
    case Take(closed, found) => TakeSplits(s.pool, closed, found, fd);
    case Store(was) =>
      TimesAppends(s.pool, [was], fd);
      TimesOne(was, fd);
    case _ =>
  }

  lemma TimesOne(a: int, fd: int)
    ensures Times([a], fd) == One(a, fd) && Times([], fd) == 0
  {
  }

  lemma TakeSplits(pool: seq<int>, closed: seq<int>, found: Option<int>, fd: int)
    requires Searched(pool, closed, found)
    ensures var rest := if found.Some? then pool[|closed| + 1..] else [];
            Times(pool, fd)
                == Times(closed, fd) + (match found case Some(f) => One(f, fd) case None => 0) + Times(rest, fd)
  {
    hide Times;
    TimesOne(0, fd);
    match found
    case Some(f) =>
      assert pool == closed + [f] + pool[|closed| + 1..];
      TimesAppends(closed + [f], pool[|closed| + 1..], fd);
      TimesAppends(closed, [f], fd);
      TimesOne(f, fd);
    case None =>
  }

  /**
   No descriptor is lost and none is closed twice: counting those that were in the pool and those opened, each is in the
   pool, or closed, or in use, exactly as many times.
   */
  lemma {:induction false} DescriptorsAreConserved(pool: seq<int>, request: Message, changes: seq<Header>,
                                                   trace: seq<Event>, fd: int)
    requires fd > 0
    ensures match Run(Initial(pool, request, changes), trace)
            case Some(s) =>
              && Times(pool, fd) + Opened(trace, fd) == Times(s.pool, fd) + One(s.sd, fd) + Closed(trace, fd)
              && NoConnection(s)
            case None => true
  {
    hide Step, Times;
    if trace != [] {
      var before, e := trace[..|trace| - 1], trace[|trace| - 1];
      DescriptorsAreConserved(pool, request, changes, before, fd);
      match Run(Initial(pool, request, changes), before)
      case Some(s) =>
        if Step(s, e).Some? {
          DescriptorStep(s, e, fd);
        }
      case None =>
    }
  }

  // ---------- where messages go ----------

  function GivenAfter(given: int, e: Event): int {
    match e
    case Take(_, Some(fd)) => fd
    case Connect(fd) => fd
    case Reconnect(_, fd) => fd
    case _ => given
  }

  /** The connection that was taken from the pool or opened last. */
  function LastGiven(trace: seq<Event>): int {
    if trace == [] then 0 else GivenAfter(LastGiven(trace[..|trace| - 1]), trace[|trace| - 1])
  }

  predicate InUse(s: State) {
    s.phase in {Refused, Ready, Probed, Informed, Sent, Replied}
  }

  predicate AllAreDescriptors(fds: seq<int>) {
    forall i :: 0 <= i < |fds| ==> fds[i] > 0
  }

  function LostAfter(lost: bool, e: Event): bool {
    match e
    case Take(_, Some(_)) => false
    case Connect(_) => false
    case Reconnect(_, fd) => fd == 0
    case _ => lost
  }

  /** The last answer that gave a connection was the 0 of a reconnection. */
  predicate Lost(trace: seq<Event>) {
    trace != [] && LostAfter(Lost(trace[..|trace| - 1]), trace[|trace| - 1])
  }

  predicate Connected(s: State, lost: bool) {
    && (s.phase != Done ==> AllAreDescriptors(s.pool))
    && (InUse(s) && s.phase != Refused ==> if lost then s.sd == 0 else s.sd > 0)
  }

  lemma GivenStep(s: State, e: Event, given: int)
    requires Step(s, e).Some? && (InUse(s) ==> given == s.sd)
    ensures var t := Step(s, e).value;
            InUse(t) ==> t.sd == GivenAfter(given, e)
  {
    hide IsHead, RequestBody, Forwardable, SendableAfterProbe, ReplyWillDo, AsksForToken, Keeps, Told, FinishedReply,
         Searched;
  }

  lemma {:induction false} UsesLastGiven(pool: seq<int>, request: Message, changes: seq<Header>, trace: seq<Event>)
    ensures match Run(Initial(pool, request, changes), trace)
            case Some(s) => InUse(s) ==> s.sd == LastGiven(trace)
            case None => true
  {
    hide Step;
    if trace != [] {
      var before, e := trace[..|trace| - 1], trace[|trace| - 1];
      UsesLastGiven(pool, request, changes, before);
      match Run(Initial(pool, request, changes), before)
      case Some(s) =>
        if Step(s, e).Some? {
          GivenStep(s, e, LastGiven(before));
        }
      case None =>
    }
  }

  lemma ConnectedTake(s: State, closed: seq<int>, found: Option<int>, lost: bool)
    requires Connected(s, lost) && Step(s, Take(closed, found)).Some?
    ensures Connected(Step(s, Take(closed, found)).value, LostAfter(lost, Take(closed, found)))
  {
    if found.Some? {
      assert s.pool[|closed|] == (closed + [found.value])[|closed|];
    }
  }

  lemma ConnectedOther(s: State, e: Event, lost: bool)
    requires Connected(s, lost) && Step(s, e).Some? && !e.Take?
    ensures Connected(Step(s, e).value, LostAfter(lost, e))
  {
    hide IsHead, RequestBody, Forwardable, SendableAfterProbe, ReplyWillDo, AsksForToken, Keeps, Told, FinishedReply,
         Searched;
  }

  lemma ConnectedStep(s: State, e: Event, lost: bool)
    requires Connected(s, lost) && Step(s, e).Some?
    ensures Connected(Step(s, e).value, LostAfter(lost, e))
  {
    if e.Take? {
      ConnectedTake(s, e.closed, e.found, lost);
    } else {
      ConnectedOther(s, e, lost);
    }
  }

  lemma {:induction false} ConnectedIsKept(pool: seq<int>, request: Message, changes: seq<Header>, trace: seq<Event>)
    requires AllAreDescriptors(pool)
    ensures match Run(Initial(pool, request, changes), trace) case Some(s) => Connected(s,
                                                                                        Lost(trace)) case None => true
  {
    hide Step;
    if trace != [] {
      var before, e := trace[..|trace| - 1], trace[|trace| - 1];
      ConnectedIsKept(pool, request, changes, before);
      match Run(Initial(pool, request, changes), before)
      case Some(s) =>
        if Step(s, e).Some? {
          ConnectedStep(s, e, Lost(before));
        }
      case None =>
    }
  }

  /**
   What is sent to the proxy goes to the connection taken or opened last, and that is a descriptor exactly unless it was
   a reconnection to which proxy_connect answered 0, which the code does not take for a failure.
   */
  lemma SendsGoToDescriptors(pool: seq<int>, request: Message, changes: seq<Header>, trace: seq<Event>, e: Event)
    requires e.Probe? || e.Send?
    requires Run(Initial(pool, request, changes), trace + [e]).Some?
    ensures Run(Initial(pool, request, changes), trace).Some?
    ensures Run(Initial(pool, request, changes), trace).value.sd == LastGiven(trace)
    ensures AllAreDescriptors(pool) ==> (LastGiven(trace) > 0 <==> !Lost(trace))
  {
    hide Run, Step;
    RunSplits(Initial(pool, request, changes), trace, e);
    UsesLastGiven(pool, request, changes, trace);
    SendingPhases(Run(Initial(pool, request, changes), trace).value, e);
    if AllAreDescriptors(pool) {
      ConnectedIsKept(pool, request, changes, trace);
    }
  }

  lemma SendingPhases(s: State, e: Event)
    requires Step(s, e).Some? && (e.Probe? || e.Send?)
    ensures s.phase in {Ready, Informed}
  {
  }

  // ---------- when proxy_connect is called ----------

  predicate Drained(s: State) {
    && (s.cached ==> s.authok)
    && (s.phase in {Searching, Probed, Informed} ==> !s.authok)
    && (s.phase != Done ==> AllAreDescriptors(s.pool))
    && (s.phase !in {Start, Done} && !s.cached ==> s.pool == [])
  }

  lemma DrainedTake(s: State, closed: seq<int>, found: Option<int>)
    requires Drained(s) && Step(s, Take(closed, found)).Some?
    ensures Drained(Step(s, Take(closed, found)).value)
  {
    if found.Some? {
      assert s.pool[|closed|] == (closed + [found.value])[|closed|];
    }
  }

  lemma DrainedOther(s: State, e: Event)
    requires Drained(s) && Step(s, e).Some? && !e.Take?
    ensures Drained(Step(s, e).value)
  {
    hide IsHead, RequestBody, Forwardable, SendableAfterProbe, ReplyWillDo, AsksForToken, Keeps, Told, FinishedReply,
         Searched;
  }

  lemma DrainedStep(s: State, e: Event)
    requires Drained(s) && Step(s, e).Some?
    ensures Drained(Step(s, e).value)
  {
    if e.Take? {
      DrainedTake(s, e.closed, e.found);
    } else {
      DrainedOther(s, e);
    }
  }

  lemma {:induction false} DrainedIsKept(pool: seq<int>, request: Message, changes: seq<Header>, trace: seq<Event>)
    requires AllAreDescriptors(pool)
    ensures match Run(Initial(pool, request, changes), trace) case Some(s) => Drained(s) case None => true
  {
    hide Step;
    if trace != [] {
      var before, e := trace[..|trace| - 1], trace[|trace| - 1];
      DrainedIsKept(pool, request, changes, before);
      match Run(Initial(pool, request, changes), before)
      case Some(s) =>
        if Step(s, e).Some? {
          DrainedStep(s, e);
        }
      case None =>
    }
  }

  /**
   proxy_connect is called only while the pool is empty. So when it closes the pooled connections because another parent
   was selected, and leaves the list head pointing to freed entries, there are none.
   */
  lemma PoolIsEmptyWhenConnecting(pool: seq<int>, request: Message, changes: seq<Header>, trace: seq<Event>, e: Event)
    requires AllAreDescriptors(pool) && (e.Connect? || e.Reconnect?)
    requires Run(Initial(pool, request, changes), trace + [e]).Some?
    ensures Run(Initial(pool, request, changes), trace).Some?
            && Run(Initial(pool, request, changes), trace).value.pool == []
  {
    hide Run, Step;
    RunSplits(Initial(pool, request, changes), trace, e);
    DrainedIsKept(pool, request, changes, trace);
    ConnectingPhases(Run(Initial(pool, request, changes), trace).value, e);
  }

  lemma ConnectingPhases(s: State, e: Event)
    requires Step(s, e).Some? && (e.Connect? || e.Reconnect?)
    ensures s.phase in {Searching, Informed}
  {
  }

  /** How four of the runs below begin: the pool is empty, and the probe gets a reply of which no token is made. */
  lemma ProbeAnswered(t: seq<Event>, asked: Message, changes: seq<Header>, token: string, reply: Message)
    requires asked.req
    requires |t| >= 4 && t[0] == Take([], None) && t[1] == Connect(5) && t[2] == Probe(Once(asked, changes), token)
             && t[3] == Learn(reply, None)
    ensures Run(Initial([], asked, changes), t[..4])
            == Some(Initial([], Once(asked, changes), changes).(phase := Informed, sd := 5, host := asked.hostname,
                                                                learned := Some(Lesson(reply, None))))
  {
    hide Run, Prepared, OtherHost;
    OwnHost(asked);
    var s := Initial([], asked, changes);
    RunStart(s, t);
    var s1 := TakeOne(s, t, 0);
    var s2 := TakeOne(s, t, 1);
    var s3 := TakeOne(s, t, 2);
    var s4 := TakeOne(s, t, 3);
  }

  function ZeroRun(asked: Message, changes: seq<Header>, token: string, reply: Message): seq<Event> {
    [Take([], None), Connect(5), Probe(Once(asked, changes), token), Learn(reply, None), Reconnect(5, 0),
     Send(Once(asked, changes))]
  }

  /** Such a run: the pool is empty, the proxy hangs up after the probe, its name cannot be resolved any more. */
  lemma ReconnectingToZero(asked: Message, changes: seq<Header>, token: string, reply: Message)
    requires asked.req && reply.code == 407
    ensures var s := Run(Initial([], asked, changes), ZeroRun(asked, changes, token, reply));
            s.Some? && s.value.phase == Sent && s.value.sd == 0
  {
    hide Run, Prepared, ProbeOnly;
    var t, s := ZeroRun(asked, changes, token, reply), Initial([], asked, changes);
    ProbeAnswered(t, asked, changes, token, reply);
    var s5 := TakeOne(s, t, 4);
    NoToken(Once(asked, changes));
    var s6 := TakeOne(s, t, 5);
    assert t[..6] == t;
  }

  lemma RunStart(s: State, trace: seq<Event>)
    ensures Run(s, trace[..0]) == Some(s)
  {
  }

  /** One event more of a trace. */
  lemma TakeOne(s: State, trace: seq<Event>, i: nat) returns (next: Option<State>)
    requires i < |trace| && Run(s, trace[..i]).Some?
    ensures next == Run(s, trace[..i + 1]) == Step(Run(s, trace[..i]).value, trace[i])
  {
    assert trace[..i + 1][..i] == trace[..i];
    next := Run(s, trace[..i + 1]);
  }

  // ---------- what a stored connection has been through ----------

  /** The request carries a token of cntlm's own. */
  predicate Carries(request: Message) {
    request.req && Has(request.headers, AUTHORIZATION)
  }

  function CarriedAfter(carried: bool, e: Event): bool {
    match e
    case Send(request) => Carries(request)
    case _ => carried
  }

  /** The request sent last carries a token. */
  predicate Carried(trace: seq<Event>) {
    trace != [] && CarriedAfter(Carried(trace[..|trace| - 1]), trace[|trace| - 1])
  }

  function ProvenAfter(proven: bool, carried: bool, e: Event): bool {
    match e
    case Take(_, _) => false
    case Connect(_) => false
    case Reconnect(_, _) => false
    case Answer(FromRequest, reply, _) => proven || (carried && reply.code != 407)
    case _ => proven
  }

  /** Over the connection at hand the proxy has answered a request with a token by something else than a 407. */
  predicate Proven(trace: seq<Event>) {
    trace != [] &&
    var before := trace[..|trace| - 1];
    ProvenAfter(Proven(before), Carried(before), trace[|trace| - 1])
  }

  /** The probe was answered by a real 407 with a challenge, and a token was made of it. */
  predicate GotToken(lesson: Option<Lesson>) {
    lesson.Some? && lesson.value.token.Some?
  }

  predicate Honest(s: State, carried: bool, proven: bool) {
    && (GotToken(s.learned) ==> AsksForToken(s.learned.value.reply))
    && (GotToken(s.counted) ==> AsksForToken(s.counted.value.reply))
    && (s.phase in {Searching, Refused, Ready, Probed} ==> s.learned == None)
    && (s.phase in {Searching, Refused, Probed, Informed} ==> !s.authok && !s.noauth)
    && (s.phase == Sent ==> (carried <==> GotToken(s.learned)) && (s.authok || s.noauth ==> s.learned == None))
    && (s.noauth ==> !s.authok) && (s.cached ==> s.authok)
    && (s.phase in {Probed, Informed} ==> s.current.req && !Has(s.current.headers, AUTHORIZATION))
    && (!s.cached && s.phase != Start ==> (proven <==> s.authok && GotToken(s.counted)))
  }

  lemma HonestStep(s: State, e: Event, carried: bool, proven: bool)
    requires Honest(s, carried, proven) && Step(s, e).Some?
    ensures Honest(Step(s, e).value, CarriedAfter(carried, e), ProvenAfter(proven, carried, e))
  {
    hide IsHead, RequestBody, Searched, Has, Mod, ProbeOnly, Forwardable, Keeps, Told, FinishedReply;
    if e.Probe? && s.phase == Ready {
      ForwardableMeans(s, e.asked);
    }
    if e.Send? && s.phase == Ready {
      ForwardableMeans(s, e.request);
    }
    if e.Send? && s.phase == Informed && s.learned.value.token.Some? {
      TokenIsThere(s.current.headers, s.learned.value.token.value);
    }
  }

  lemma TokenIsThere(headers: seq<Header>, token: string)
    ensures Has(Mod(headers, AUTHORIZATION, token, true), AUTHORIZATION)
  {
    hide Mod, SameName;
    GetMod(headers, AUTHORIZATION, token, true, "");
  }

  lemma {:induction false} HonestIsKept(pool: seq<int>, request: Message, changes: seq<Header>, trace: seq<Event>)
    ensures match Run(Initial(pool, request, changes), trace)
            case Some(s) => Honest(s, Carried(trace), Proven(trace))
            case None => true
  {
    hide Step, Honest;
    if trace != [] {
      var before, e := trace[..|trace| - 1], trace[|trace| - 1];
      HonestIsKept(pool, request, changes, before);
      match Run(Initial(pool, request, changes), before)
      case Some(s) =>
        if Step(s, e).Some? {
          HonestStep(s, e, Carried(before), Proven(before));
        }
      case None =>
    } else {
      HonestAtStart(pool, request, changes);
    }
  }

  lemma HonestAtStart(pool: seq<int>, request: Message, changes: seq<Header>)
    ensures Honest(Initial(pool, request, changes), false, false)
  {
  }

  /**
   A connection that did not come from the pool has been authenticated by the time it is stored - a request with a
   token was answered there by something else than a 407 - exactly if the request that made it count as authenticated
   had got a token: its probe was answered by a real 407 with a challenge, and a token was made of that. It was not if
   there was no probe, if the probe was answered by an error or, for a request with a body or a HEAD, by any other
   reply than a 407, if the 407 offered no way to authenticate, or if the challenge was not understood.
   */
  lemma StoredAuthenticatedWhen(pool: seq<int>, request: Message, changes: seq<Header>, trace: seq<Event>, fd: int)
    requires Run(Initial(pool, request, changes), trace + [Store(fd)]).Some?
    ensures Run(Initial(pool, request, changes), trace).Some?
    ensures var s := Run(Initial(pool, request, changes), trace).value;
            && s.sd == fd && s.authok
            && (!s.cached ==> (Proven(trace) <==> GotToken(s.counted)))
            && (GotToken(s.counted) ==> AsksForToken(s.counted.value.reply))
  {
    hide Run;
    RunSplits(Initial(pool, request, changes), trace, Store(fd));
    HonestIsKept(pool, request, changes, trace);
  }

  function ErrorRun(asked: Message, changes: seq<Header>, token: string, reply: Message): seq<Event> {
    [Take([], None), Connect(5), Probe(Once(asked, changes), token), Learn(reply, None),
     Answer(FromProbe, reply, FinishedReply(reply)), Store(5)]
  }

  /** One way to store a connection that has not been authenticated: an error reply to the probe goes to the client. */
  lemma StoredWithoutAuthentication(asked: Message, changes: seq<Header>, token: string, reply: Message)
    requires asked.req && !ProbeOnly(Once(asked, changes)) && Keeps(Once(asked, changes), reply)
    requires reply.code >= 400 && reply.code != 407
    ensures Run(Initial([], asked, changes), ErrorRun(asked, changes, token, reply)).Some?
    ensures Run(Initial([], asked, changes), ErrorRun(asked, changes, token, reply)).value.pool == [5]
  {
    hide Run, Prepared, ProbeOnly, Keeps, FinishedHeaders;
    var t, s := ErrorRun(asked, changes, token, reply), Initial([], asked, changes);
    ProbeAnswered(t, asked, changes, token, reply);
    var s5 := TakeOne(s, t, 4);
    var s6 := TakeOne(s, t, 5);
    assert t[..6] == t;
  }

  function HeadRun(asked: Message, changes: seq<Header>, token: string, reply: Message): seq<Event> {
    [Take([], None), Connect(5), Probe(Once(asked, changes), token), Learn(reply, None), Send(Once(asked, changes)),
     Answer(FromRequest, reply, FinishedReply(reply)), Store(5)]
  }

  /** Another: the proxy wants no authentication, and the request is a HEAD or has a body. */
  lemma StoredWithoutChallenge(asked: Message, changes: seq<Header>, token: string, reply: Message)
    requires asked.req && ProbeOnly(Once(asked, changes)) && Keeps(Once(asked, changes), reply) && reply.code != 407
    ensures Run(Initial([], asked, changes), HeadRun(asked, changes, token, reply)).Some?
    ensures Run(Initial([], asked, changes), HeadRun(asked, changes, token, reply)).value.pool == [5]
  {
    hide Run, Prepared, ProbeOnly, Keeps, FinishedHeaders;
    var t, s := HeadRun(asked, changes, token, reply), Initial([], asked, changes);
    ProbeAnswered(t, asked, changes, token, reply);
    NoToken(Once(asked, changes));
    var s5 := TakeOne(s, t, 4);
    var s6 := TakeOne(s, t, 5);
    var s7 := TakeOne(s, t, 6);
    assert t[..7] == t;
  }

  // ---------- where the body of a reply is read ----------

  /** How many connections have been taken from the pool or opened so far; so each has a number of its own. */
  function Connections(trace: seq<Event>): nat {
    if trace == [] then 0
    else
      var last := trace[|trace| - 1];
      Connections(trace[..|trace| - 1])
      + if (last.Take? && last.found.Some?) || last.Connect? || last.Reconnect? then 1 else 0
  }

  /** The number of the connection on which the reply to the last probe was heard. */
  function HeardOn(trace: seq<Event>): nat {
    if trace == [] then 0
    else
      var before := trace[..|trace| - 1];
      if trace[|trace| - 1].Learn? then Connections(before) else HeardOn(before)
  }

  function ReplacedAfter(replaced: bool, e: Event): bool {
    match e
    case Learn(_, _) => false
    case Reconnect(_, _) => true
    case _ => replaced
  }

  /** The proxy has hung up after its reply to the last probe, and the connection was replaced. */
  predicate Replaced(trace: seq<Event>) {
    trace != [] && ReplacedAfter(Replaced(trace[..|trace| - 1]), trace[|trace| - 1])
  }

  lemma {:induction false} HearingIsKept(pool: seq<int>, request: Message, changes: seq<Header>, trace: seq<Event>)
    ensures match Run(Initial(pool, request, changes), trace)
            case Some(s) =>
              s.phase == Informed ==> HeardOn(trace) <= Connections(trace)
                                      && (HeardOn(trace) == Connections(trace) <==> !Replaced(trace))
            case None => true
  {
    hide Step;
    if trace != [] {
      var before, e := trace[..|trace| - 1], trace[|trace| - 1];
      HearingIsKept(pool, request, changes, before);
      match Run(Initial(pool, request, changes), before)
      case Some(s) =>
        if Step(s, e).Some? && Step(s, e).value.phase == Informed {
          BecomingInformed(s, e);
        }
      case None =>
    }
  }

  lemma BecomingInformed(s: State, e: Event)
    requires Step(s, e).Some? && Step(s, e).value.phase == Informed
    ensures e.Learn? || (e.Reconnect? && s.phase == Informed)
  {
    hide IsHead, RequestBody, Forwardable, SendableAfterProbe, ReplyWillDo, AsksForToken, Keeps, Told, FinishedReply,
         Searched;
  }

  /**
   When the reply to a probe goes to the client, its head came over the connection now in use, from which its body will
   be read, exactly if the proxy did not hang up after the probe and make cntlm open another one.
   */
  lemma ProbeReplyIsWholeWhen(pool: seq<int>, request: Message, changes: seq<Header>, trace: seq<Event>,
                              reply: Message, answer: Message)
    requires Run(Initial(pool, request, changes), trace + [Answer(FromProbe, reply, answer)]).Some?
    ensures HeardOn(trace) == Connections(trace) <==> !Replaced(trace)
  {
    RunSplits(Initial(pool, request, changes), trace, Answer(FromProbe, reply, answer));
    HearingIsKept(pool, request, changes, trace);
  }

  function SplitRun(asked: Message, changes: seq<Header>, token: string, reply: Message): seq<Event> {
    [Take([], None), Connect(5), Probe(Once(asked, changes), token), Learn(reply, None), Reconnect(5, 9),
     Answer(FromProbe, reply, FinishedReply(reply))]
  }

  /** A run in which it did. */
  lemma BodyFromAnotherConnection(asked: Message, changes: seq<Header>, token: string, reply: Message)
    requires asked.req && !ProbeOnly(Once(asked, changes)) && reply.code != 407
    ensures var s := Run(Initial([], asked, changes), SplitRun(asked, changes, token, reply));
            s.Some? && s.value.phase == Replied && s.value.sd == 9
    ensures Replaced(SplitRun(asked, changes, token, reply)[..5])
  {
    hide Run, Prepared, ProbeOnly, Keeps, FinishedHeaders;
    var t, s := SplitRun(asked, changes, token, reply), Initial([], asked, changes);
    ProbeAnswered(t, asked, changes, token, reply);
    var s5 := TakeOne(s, t, 4);
    var s6 := TakeOne(s, t, 5);
    assert t[..6] == t;
    assert t[..5][4] == Reconnect(5, 9);
  }

  // ---------- the replies the client gets ----------

  /**
   The reply to a probe reaches the client only if it is not a 407 and the probe was the request itself: not a HEAD
   request, and no body to send. A 407 reaches the client only over a connection opened for it and authenticated in
   vain.
   */
  lemma ClientGetsRealReplies(pool: seq<int>, request: Message, changes: seq<Header>, trace: seq<Event>,
                              source: Source, reply: Message, answer: Message)
    requires Run(Initial(pool, request, changes), trace + [Answer(source, reply, answer)]).Some?
    ensures Run(Initial(pool, request, changes), trace).Some?
    ensures var s := Run(Initial(pool, request, changes), trace).value;
            && (source == FromProbe ==>
                  && reply.code != 407 && !IsHead(s.current) && RequestBody(s.current) == 0
                  && Sends(trace) == Retries(trace) && s.learned.Some? && reply == s.learned.value.reply)
            && (source == FromRequest ==> Sends(trace) == Retries(trace) + 1)
            && (reply.code == 407 ==> source == FromRequest && !s.cached && !s.noauth)
  {
    RunSplits(Initial(pool, request, changes), trace, Answer(source, reply, answer));
    TallyIsKept(pool, request, changes, trace);
  }

  // ---------- one server for each call ----------

  predicate HostKept(s: State, first: Message) {
    first.hostname.Some? ==>
      s.host == first.hostname || (s.host == None && s.phase == Start && s.current == first)
  }

  lemma HostStep(s: State, e: Event, first: Message)
    requires HostKept(s, first) && Step(s, e).Some?
    ensures HostKept(Step(s, e).value, first)
  {
    hide IsHead, RequestBody, Forwardable, SendableAfterProbe, ReplyWillDo, AsksForToken, Keeps, Told, FinishedReply,
         Searched;
  }

  lemma {:induction false} HostIsKept(pool: seq<int>, request: Message, changes: seq<Header>, trace: seq<Event>)
    ensures match Run(Initial(pool, request, changes), trace) case Some(s) => HostKept(s, request) case None => true
  {
    hide Step;
    if trace != [] {
      var before, e := trace[..|trace| - 1], trace[|trace| - 1];
      HostIsKept(pool, request, changes, before);
      match Run(Initial(pool, request, changes), before)
      case Some(s) =>
        if Step(s, e).Some? {
          HostStep(s, e, request);
        }
      case None =>
    }
  }

  /** The message of a probe or a sending. */
  function SentBy(e: Event): Message
    requires e.Probe? || e.Send?
  {
    match e
    case Probe(asked, _) => asked
    case Send(request) => request
  }

  lemma {:induction false} NoOtherHostProbed(pool: seq<int>, request: Message, changes: seq<Header>, trace: seq<Event>)
    ensures match Run(Initial(pool, request, changes), trace)
            case Some(s) => s.phase in {Probed, Informed} ==> !OtherHost(s.host, s.current)
            case None => true
  {
    hide Step, OtherHost;
    if trace != [] {
      var before, e := trace[..|trace| - 1], trace[|trace| - 1];
      NoOtherHostProbed(pool, request, changes, before);
      match Run(Initial(pool, request, changes), before)
      case Some(s) =>
        if Step(s, e).Some? {
          ProbedHostStep(s, e);
        }
      case None =>
    }
  }

  lemma ProbedHostStep(s: State, e: Event)
    requires Step(s, e).Some? && (s.phase in {Probed, Informed} ==> !OtherHost(s.host, s.current))
    ensures var t := Step(s, e).value;
            t.phase in {Probed, Informed} ==> !OtherHost(t.host, t.current)
  {
    hide IsHead, RequestBody, Forwardable, SendableAfterProbe, ReplyWillDo, AsksForToken, Keeps, Told, FinishedReply,
         Searched, OtherHost;
    if e.Probe? {
      ForwardedHost(s, e.asked);
    }
  }

  lemma ForwardedHost(s: State, request: Message)
    requires Forwardable(s, request)
    ensures !OtherHost(s.host, request)
  {
    hide SameName;
  }

  lemma TokenHost(host: Option<string>, request: Message, token: Option<string>)
    ensures OtherHost(host, WithToken(request, token)) == OtherHost(host, request)
  {
    hide SameName;
  }

  /**
   One call serves one server: every request that goes to the proxy, however it comes to be sent, is for the server that
   the first was for; one for another server is left to the caller.
   */
  lemma OneServerOnly(pool: seq<int>, request: Message, changes: seq<Header>, trace: seq<Event>, e: Event)
    requires Run(Initial(pool, request, changes), trace + [e]).Some? && (e.Probe? || e.Send?)
    ensures !OtherHost(request.hostname, SentBy(e))
  {
    hide Run, Step, OtherHost;
    RunSplits(Initial(pool, request, changes), trace, e);
    HostIsKept(pool, request, changes, trace);
    NoOtherHostProbed(pool, request, changes, trace);
    SentHost(Run(Initial(pool, request, changes), trace).value, e);
    if request.hostname == None {
      NoHostNoOther(SentBy(e));
    }
  }

  lemma NoHostNoOther(request: Message)
    ensures !OtherHost(None, request)
  {
  }

  lemma SentHost(s: State, e: Event)
    requires Step(s, e).Some? && (e.Probe? || e.Send?)
    requires s.phase in {Probed, Informed} ==> !OtherHost(s.host, s.current)
    ensures !OtherHost(s.host, SentBy(e)) && s.phase != Start
  {
    hide IsHead, RequestBody, Forwardable, ReplyWillDo, AsksForToken, ProbeOnly, OtherHost, WithToken;
    if s.phase == Ready {
      ForwardedHost(s, SentBy(e));
    } else {
      TokenHost(s.host, s.current, s.learned.value.token);
    }
  }

  // ---------- what the client is told about the connection ----------

  /** A run that has given its last answer: it can only store or close the connection. */
  predicate Ended(s: State) {
    s.phase == Done || (s.phase == Replied && !s.again)
  }

  lemma EndedStep(s: State, e: Event)
    requires Ended(s) && Step(s, e).Some?
    ensures Ended(Step(s, e).value) && (e.Store? || e.Close?)
  {
  }

  lemma {:induction false} EndedStays(s: State, a: seq<Event>, b: seq<Event>)
    requires Run(s, a + b).Some? && Run(s, a).Some? && Ended(Run(s, a).value)
    ensures Ended(Run(s, a + b).value) && forall i :: 0 <= i < |b| ==> b[i].Store? || b[i].Close?
    decreases |b|
  {
    hide Step, Ended;
    if b == [] {
      assert a + b == a;
    } else {
      var front, last := b[..|b| - 1], b[|b| - 1];
      assert a + b == (a + front) + [last] && b == front + [last];
      RunSplits(s, a + front, last);
      EndedStays(s, a, front);
      EndedStep(Run(s, a + front).value, last);
    }
  }

  /**
   The client is told `close` exactly if the proxy's reply did not speak of keep-alive, and then nothing follows the
   answer but storing or closing the connection: no further request is read.
   */
  lemma CloseIsMeant(pool: seq<int>, request: Message, changes: seq<Header>, a: seq<Event>, source: Source,
                     reply: Message, answer: Message, b: seq<Event>)
    requires Run(Initial(pool, request, changes), a + [Answer(source, reply, answer)]).Some?
    requires Run(Initial(pool, request, changes), a + [Answer(source, reply, answer)] + b).Some?
    ensures Get(answer.headers, "Connection") == Some("close") <==> !Mentions(reply.headers, "Connection", "keep-alive")
    ensures Get(answer.headers, "Connection") == Some("close") ==>
              forall i :: 0 <= i < |b| ==> b[i].Store? || b[i].Close?
  {
    hide Run, Get, Mentions, FinishedHeaders, ReplyWillDo;
    var s := Initial(pool, request, changes);
    RunSplits(s, a, Answer(source, reply, answer));
    ClientIsToldToClose(reply.headers, reply.code, "");
    if !Mentions(reply.headers, "Connection", "keep-alive") {
      EndedStays(s, a + [Answer(source, reply, answer)], b);
    }
  }

  lemma KeepsWhen(request: Message, reply: Message)
    ensures Keeps(request, reply)
            <==> !(IsConnect(request) && reply.code == 200) && Mentions(reply.headers, "Proxy-Connection", "keep-alive")
  {
    hide FinishedHeaders, Find, IsConnect, Occurs;
    ConnectionNames();
    ClientIsToldToClose(reply.headers, reply.code, "Proxy-Connection");
  }

  /**
   After an answer the connection is stored only if the proxy's reply says that it keeps it, and another request of the
   client is read only if the reply speaks of keep-alive besides; never after the proxy has agreed to a CONNECT.
   */
  lemma GoesOnWhen(pool: seq<int>, request: Message, changes: seq<Header>, trace: seq<Event>, source: Source,
                   reply: Message, answer: Message, e: Event)
    requires Run(Initial(pool, request, changes), trace + [Answer(source, reply, answer)] + [e]).Some?
    requires e.Store? || e.NewRequest?
    ensures Run(Initial(pool, request, changes), trace).Some?
    ensures var s := Run(Initial(pool, request, changes), trace).value;
            && !(IsConnect(s.current) && reply.code == 200) && Mentions(reply.headers, "Proxy-Connection", "keep-alive")
            && (e.NewRequest? ==> Mentions(reply.headers, "Connection", "keep-alive"))
  {
    hide Run, FinishedHeaders, Mentions, ReplyWillDo, IsConnect;
    var s := Initial(pool, request, changes);
    RunSplits(s, trace + [Answer(source, reply, answer)], e);
    RunSplits(s, trace, Answer(source, reply, answer));
    KeepsWhen(Run(s, trace).value.current, reply);
  }
}
