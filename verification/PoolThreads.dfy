/**
 Any number of threads that share the connection pool of cntlm-0.92.3/forward.c, in any interleaving: threads that call
 forward_request over and over, each call one of the runs of ForwardRuns, and threads that only call proxy_connect.
 */
module PoolThreads {
  import F = ForwardRuns
  import opened Headers
  import opened Messages
  import opened Options
  import R = Rewriting

  /**
   A thread outside proxy_connect; inside it, with the parent that was selected when it entered; or about to leave it.
   */
  datatype Visit = Outside | Inside(prev: nat) | Compared(moved: bool)

  /**
   What there is to know about a stored connection: how it came to count as authenticated, and whether it has been.
   */
  datatype Record = Record(fd: int, counted: Option<F.Lesson>, proven: bool)

  /** A thread, what is known about the connection it took from the pool, and what ForwardRuns tells of its messages. */
  datatype Thread = Thread(state: F.State, visit: Visit, held: Option<Record>, carried: bool, proven: bool)

  /**
   The pool, whether the head of its list points to freed entries, the selected parent, the configured changes to the
   headers of requests, and the threads.
   */
  datatype Shared = Shared(pool: seq<Record>, dangling: bool, selected: nat, changes: seq<Header>,
                           threads: seq<Thread>)

  datatype Step =
    | Call(t: nat, request: Message)  // forward_request is called
    | Do(t: nat, e: F.Event)          // it does something
    | Enter(t: nat)                   // proxy_connect is called, and remembers the selected parent
    | Select(t: nat, parent: nat)     // it selects one; see ParentThreads
    | Compare(t: nat)                 // it compares
    | Leave(t: nat)                   // it returns to a caller that is not forward_request

  const NOTHING := Message(false, [], [], [], None, 0, 0, [], false, [])

  function Fds(pool: seq<Record>): (fds: seq<int>)
    ensures |fds| == |pool| && forall i :: 0 <= i < |fds| ==> fds[i] == pool[i].fd
  {
    seq(|pool|, i requires 0 <= i < |pool| => pool[i].fd)
  }

  /** proxy_connect returns with this event. */
  predicate Returns(e: F.Event) {
    e.Connect? || e.Reconnect?
  }

  /** The list of the pool is looked at. */
  predicate Touches(e: F.Event, visit: Visit) {
    e.Take? || e.Store? || (Returns(e) && visit == Compared(true))
  }

  /** What is known about a connection as it is stored. */
  function RecordOf(th: Thread, fd: int): Record {
    if th.state.cached && th.held.Some? then th.held.value.(fd := fd) else Record(fd, th.state.counted, th.proven)
  }

  function PoolAfter(pool: seq<Record>, th: Thread, e: F.Event): seq<Record> {
    match e
    case Take(closed, found) => if found.Some? && |closed| < |pool| then pool[|closed| + 1..] else []
    case Store(fd) => pool + [RecordOf(th, fd)]
    case _ => pool
  }

  function HeldAfter(pool: seq<Record>, th: Thread, e: F.Event): Option<Record> {
    match e
    case Take(closed, found) => if found.Some? && |closed| < |pool| then Some(pool[|closed|]) else None
    case _ => th.held
  }

  /** After a change of the parent the pooled connections are closed and freed, and the head is left as it is. */
  function Freed(s: Shared, visit: Visit): Shared {
    if visit == Compared(true) then s.(pool := [], dangling := s.dangling || s.pool != []) else s
  }

  function Initial(threads: nat, changes: seq<Header>): Shared {
    Shared([], false, 0, changes, seq(threads, _ => Idle(changes)))
  }

  function Idle(changes: seq<Header>): Thread {
    Thread(F.Initial([], NOTHING, changes).(phase := F.Done), Outside, None, false, false)
  }

  /** The state after an event of a thread in forward_request. */
  function Done(s: Shared, t: nat, e: F.Event): Option<Shared>
    requires t < |s.threads|
  {
    var th := s.threads[t];
    if (Returns(e) != th.visit.Compared?) || th.visit.Inside? || (s.dangling && Touches(e, th.visit)) then None
    else
      match F.Step(th.state.(pool := Fds(s.pool)), e)
      case None => None
      case Some(next) =>
        var after := if Returns(e) then Freed(s, th.visit) else s.(pool := PoolAfter(s.pool, th, e));
        var th' := Thread(next.(pool := []), Outside, HeldAfter(s.pool, th, e),
                          F.CarriedAfter(th.carried, e), F.ProvenAfter(th.proven, th.carried, e));
        Some(after.(threads := s.threads[t := th']))
  }

  /** One step; None if the thread is elsewhere, or if it would look at freed entries. */
  function Next(s: Shared, step: Step): Option<Shared> {
    if step.t >= |s.threads| then None
    else
      var th := s.threads[step.t];
      match step
      case Call(t, request) =>
        if th.state.phase == F.Done && th.visit == Outside then
          Some(s.(threads := s.threads[t := Thread(F.Initial([], request, s.changes), Outside, None, false, false)]))
        else None
      case Do(t, e) => Done(s, t, e)
      case Enter(t) =>
        if th.visit == Outside && th.state.phase in {F.Searching, F.Informed, F.Done} then
          Some(s.(threads := s.threads[t := th.(visit := Inside(s.selected))]))
        else None
      case Select(t, parent) =>
        if th.visit.Inside? then Some(s.(selected := parent)) else None
      case Compare(t) =>
        if th.visit.Inside? then
          Some(s.(threads := s.threads[t := th.(visit := Compared(th.visit.prev != s.selected))]))
        else None
      case Leave(t) =>
        if th.visit.Compared? && th.state.phase == F.Done && !(s.dangling && th.visit.moved) then
          Some(Freed(s, th.visit).(threads := s.threads[t := th.(visit := Outside)]))
        else None
  }

  function Run(s: Shared, steps: seq<Step>): Option<Shared> {
    if steps == [] then Some(s)
    else
      match Run(s, steps[..|steps| - 1])
      case Some(s') => Next(s', steps[|steps| - 1])
      case None => None
  }

  lemma RunSplits(s: Shared, steps: seq<Step>, step: Step)
    requires Run(s, steps + [step]).Some?
    ensures Run(s, steps).Some? && Next(Run(s, steps).value, step) == Run(s, steps + [step])
  {
    hide Next;
    assert (steps + [step])[..|steps|] == steps;
  }

  // ---------- which pooled connections are authenticated ----------

  /** A connection has been authenticated exactly if a token was made of the challenge in a real 407. */
  predicate Sound(r: Record) {
    && (r.proven <==> F.GotToken(r.counted))
    && (F.GotToken(r.counted) ==> F.AsksForToken(r.counted.value.reply))
  }

  predicate SoundThread(th: Thread) {
    && F.Honest(th.state, th.carried, th.proven)
    && (th.state.cached ==> th.held.Some? && Sound(th.held.value))
  }

  ghost predicate AllSound(s: Shared) {
    && (forall i :: 0 <= i < |s.pool| ==> Sound(s.pool[i]))
    && (forall t :: 0 <= t < |s.threads| ==> SoundThread(s.threads[t]))
  }

  lemma HonestAnyPool(s: F.State, pool: seq<int>, carried: bool, proven: bool)
    ensures F.Honest(s.(pool := pool), carried, proven) == F.Honest(s, carried, proven)
  {
    hide F.AsksForToken;
  }

  /** Only a search makes a connection count as taken from the pool, and it finds a record. */
  lemma CachedStep(s: F.State, e: F.Event)
    requires F.Step(s, e).Some? && F.Step(s, e).value.cached
    ensures e.Take? ==> e.found.Some? && |e.closed| < |s.pool|
    ensures !e.Take? ==> s.cached
  {
    hide F.Forwardable, F.SendableAfterProbe, F.ReplyWillDo, F.AsksForToken, F.ProbeOnly, F.Keeps, R.FinishedReply;
  }

  lemma StoreStep(s: F.State, fd: int)
    requires F.Step(s, F.Store(fd)).Some?
    ensures s.authok && s.sd == fd && s.phase != F.Start
  {
  }

  lemma StoredIsSound(th: Thread, fd: int)
    requires SoundThread(th) && th.state.authok && th.state.phase != F.Start
    ensures Sound(RecordOf(th, fd))
  {
    hide F.AsksForToken;
  }

  lemma DoIsSound(s: Shared, t: nat, e: F.Event)
    requires AllSound(s) && t < |s.threads| && Done(s, t, e).Some?
    ensures AllSound(Done(s, t, e).value)
  {
    hide F.Step, F.Honest, Sound, RecordOf, F.CarriedAfter, F.ProvenAfter, Fds;
    var th := s.threads[t];
    var before := th.state.(pool := Fds(s.pool));
    var after := F.Step(before, e).value;
    HonestAnyPool(th.state, Fds(s.pool), th.carried, th.proven);
    F.HonestStep(before, e, th.carried, th.proven);
    HonestAnyPool(after, [], F.CarriedAfter(th.carried, e), F.ProvenAfter(th.proven, th.carried, e));
    assert SoundThread(th);
    if e.Store? {
      StoreStep(before, e.fd);
      StoredIsSound(th, e.fd);
    }
    if after.cached {
      CachedStep(before, e);
    }
  }

  lemma CallIsSound(request: Message, changes: seq<Header>)
    ensures SoundThread(Thread(F.Initial([], request, changes), Outside, None, false, false))
  {
  }

  lemma StepIsSound(s: Shared, step: Step)
    requires AllSound(s) && Next(s, step).Some?
    ensures AllSound(Next(s, step).value)
  {
    hide Done, Sound, F.Honest;
    match step
    case Call(t, request) => CallIsSound(request, s.changes);
    case Do(t, e) => DoIsSound(s, t, e);
    case _ =>
  }

  lemma {:induction false} RunIsSound(threads: nat, changes: seq<Header>, steps: seq<Step>)
    ensures match Run(Initial(threads, changes), steps) case Some(s) => AllSound(s) case None => true
  {
    hide Next, AllSound;
    if steps == [] {
      StartIsSound(threads, changes);
    } else {
      var before := steps[..|steps| - 1];
      RunIsSound(threads, changes, before);
      match Run(Initial(threads, changes), before)
      case Some(s) =>
        if Next(s, steps[|steps| - 1]).Some? {
          StepIsSound(s, steps[|steps| - 1]);
        }
      case None =>
    }
  }

  lemma StartIsSound(threads: nat, changes: seq<Header>)
    ensures AllSound(Initial(threads, changes))
  {
  }

  /**
   Whatever calls, of whatever threads, have gone before: a connection found in the pool has been authenticated
   exactly if the request by which it came to count as such got a token, made of the challenge in a real 407.
   */
  lemma FoundIsAuthenticatedWhen(threads: nat, changes: seq<Header>, steps: seq<Step>, t: nat, closed: seq<int>,
                                 fd: int)
    requires Run(Initial(threads, changes), steps + [Do(t, F.Take(closed, Some(fd)))]).Some?
    ensures var s := Run(Initial(threads, changes), steps);
            && s.Some? && |closed| < |s.value.pool| && s.value.pool[|closed|].fd == fd
            && Sound(s.value.pool[|closed|])
  {
    hide Run, F.AsksForToken;
    RunSplits(Initial(threads, changes), steps, Do(t, F.Take(closed, Some(fd))));
    RunIsSound(threads, changes, steps);
    var s := Run(Initial(threads, changes), steps).value;
    SearchFinds(Fds(s.pool), closed, fd);
  }

  lemma SearchFinds(pool: seq<int>, closed: seq<int>, fd: int)
    ensures F.Searched(pool, closed, Some(fd)) ==> |closed| < |pool| && pool[|closed|] == fd
  {
    if F.Searched(pool, closed, Some(fd)) {
      assert (closed + [fd])[|closed|] == fd;
    }
  }

  // ---------- if every probe gets a token ----------

  predicate Challenged(step: Step) {
    match step
    case Call(_, request) => request.req
    case Do(_, Learn(_, token)) => token.Some?
    case Do(_, NewRequest(request)) => request.req
    case _ => true
  }

  /** Only requests are forwarded, and of the reply to every probe a token was made. */
  predicate AllChallenged(steps: seq<Step>) {
    forall i :: 0 <= i < |steps| ==> Challenged(steps[i])
  }

  predicate Trusted(s: F.State) {
    && !s.noauth && (s.phase != F.Done ==> s.current.req)
    && (s.phase == F.Informed ==> F.GotToken(s.learned))
    && (s.phase == F.Sent && !s.authok ==> F.GotToken(s.learned))
    && (s.authok && !s.cached ==> F.GotToken(s.counted))
  }

  ghost predicate AllTrusted(s: Shared) {
    && (forall i :: 0 <= i < |s.pool| ==> s.pool[i].proven)
    && (forall t :: 0 <= t < |s.threads| ==>
          Trusted(s.threads[t].state)
              && (s.threads[t].state.cached ==> s.threads[t].held.Some? && s.threads[t].held.value.proven))
  }

  lemma TrustedStep(s: F.State, e: F.Event, carried: bool, proven: bool)
    requires F.Honest(s, carried, proven) && Trusted(s) && F.Step(s, e).Some? && Challenged(Do(0, e))
    ensures Trusted(F.Step(s, e).value)
  {
    hide F.Searched, IsHead, RequestBody, F.ProbeOnly, F.Keeps, R.FinishedReply, R.Prepared;
  }

  lemma DoIsTrusted(s: Shared, t: nat, e: F.Event)
    requires AllSound(s) && AllTrusted(s) && t < |s.threads| && Done(s, t, e).Some? && Challenged(Do(0, e))
    ensures AllTrusted(Done(s, t, e).value)
  {
    hide F.Step, F.Honest, Trusted, RecordOf, F.CarriedAfter, F.ProvenAfter, Fds, Challenged;
    var th := s.threads[t];
    var before := th.state.(pool := Fds(s.pool));
    var after := F.Step(before, e).value;
    HonestAnyPool(th.state, Fds(s.pool), th.carried, th.proven);
    TrustedAnyPool(th.state, Fds(s.pool));
    TrustedAnyPool(after, []);
    assert SoundThread(th);
    TrustedStep(before, e, th.carried, th.proven);
    if e.Store? {
      StoreStep(before, e.fd);
      StoredIsProven(th, e.fd);
    }
    if after.cached {
      CachedStep(before, e);
    }
  }

  lemma TrustedAnyPool(s: F.State, pool: seq<int>)
    ensures Trusted(s.(pool := pool)) == Trusted(s)
  {
  }

  lemma StoredIsProven(th: Thread, fd: int)
    requires SoundThread(th) && Trusted(th.state) && th.state.authok && th.state.phase != F.Start
    requires th.state.cached ==> th.held.value.proven
    ensures RecordOf(th, fd).proven
  {
    hide F.AsksForToken;
  }

  lemma StepIsTrusted(s: Shared, step: Step)
    requires AllSound(s) && AllTrusted(s) && Next(s, step).Some? && Challenged(step)
    ensures AllTrusted(Next(s, step).value)
  {
    hide Done, Sound, F.Honest;
    match step
    case Do(t, e) =>
      assert Challenged(Do(0, e));
      DoIsTrusted(s, t, e);
    case _ =>
  }

  lemma {:induction false} RunIsTrusted(threads: nat, changes: seq<Header>, steps: seq<Step>)
    requires AllChallenged(steps)
    ensures match Run(Initial(threads, changes), steps) case Some(s) => AllTrusted(s) case None => true
  {
    hide Next, AllTrusted, AllSound, Challenged;
    if steps == [] {
      StartIsTrusted(threads, changes);
    } else {
      var before := steps[..|steps| - 1];
      RunIsTrusted(threads, changes, before);
      RunIsSound(threads, changes, before);
      match Run(Initial(threads, changes), before)
      case Some(s) =>
        if Next(s, steps[|steps| - 1]).Some? {
          StepIsTrusted(s, steps[|steps| - 1]);
        }
      case None =>
    }
  }

  lemma StartIsTrusted(threads: nat, changes: seq<Header>)
    ensures AllTrusted(Initial(threads, changes))
  {
  }

  /** What the pool is meant for: if every probe led to a token, all connections in it have been authenticated. */
  lemma PoolIsAuthenticated(threads: nat, changes: seq<Header>, steps: seq<Step>)
    requires AllChallenged(steps) && Run(Initial(threads, changes), steps).Some?
    ensures var pool := Run(Initial(threads, changes), steps).value.pool;
            forall i :: 0 <= i < |pool| ==> pool[i].proven
  {
    hide Run;
    RunIsTrusted(threads, changes, steps);
  }

  // ---------- when the head of the list is left dangling ----------

  function StoredBy(step: Step): nat {
    match step
    case Do(_, Store(_)) => 1
    case _ => 0
  }

  function RemovedBy(step: Step): nat {
    match step
    case Do(_, Take(closed, found)) => |closed| + if found.Some? then 1 else 0
    case _ => 0
  }

  /** The connections put into the pool, by all threads. */
  function Stored(steps: seq<Step>): nat {
    if steps == [] then 0 else Stored(steps[..|steps| - 1]) + StoredBy(steps[|steps| - 1])
  }

  /** The connections taken out of it, open or closed. */
  function Removed(steps: seq<Step>): nat {
    if steps == [] then 0 else Removed(steps[..|steps| - 1]) + RemovedBy(steps[|steps| - 1])
  }

  /** A thread that returns from proxy_connect has seen another parent selected than when it entered. */
  predicate FreesPool(s: Shared, step: Step) {
    && step.t < |s.threads| && s.threads[step.t].visit == Compared(true)
    && (step.Leave? || (step.Do? && Returns(step.e)))
  }

  lemma SearchRemoves(pool: seq<int>, closed: seq<int>, found: Option<int>)
    requires F.Searched(pool, closed, found)
    ensures |closed| + (if found.Some? then 1 else 0) <= |pool|
    ensures found.None? ==> |closed| == |pool|
  {
  }

  lemma TakeSearches(s: F.State, closed: seq<int>, found: Option<int>)
    requires F.Step(s, F.Take(closed, found)).Some?
    ensures F.Searched(s.pool, closed, found) && s.phase == F.Start
  {
  }

  /** The pool is what has been stored and not removed, until the head dangles. */
  lemma PoolStep(s: Shared, step: Step)
    requires Next(s, step).Some? && !s.dangling
    ensures var u := Next(s, step).value;
            && (u.dangling <==> FreesPool(s, step) && s.pool != [])
            && (!u.dangling ==> |u.pool| + RemovedBy(step) == |s.pool| + StoredBy(step))
  {
    hide F.Step, RecordOf, F.CarriedAfter, F.ProvenAfter, Fds;
    match step
    case Do(t, e) =>
      if e.Take? {
        TakeSearches(s.threads[t].state.(pool := Fds(s.pool)), e.closed, e.found);
        SearchRemoves(Fds(s.pool), e.closed, e.found);
        assert |Fds(s.pool)| == |s.pool|;
      }
    case _ =>
  }

  /** Once it dangles, nothing that goes on looks at the list. */
  lemma DanglingStep(s: Shared, step: Step)
    requires Next(s, step).Some? && s.dangling
    ensures Next(s, step).value.dangling && StoredBy(step) == RemovedBy(step) == 0 && !FreesPool(s, step)
  {
    hide F.Step, RecordOf, F.CarriedAfter, F.ProvenAfter, Fds;
  }

  lemma {:induction false} PoolIsCounted(threads: nat, changes: seq<Header>, steps: seq<Step>)
    ensures match Run(Initial(threads, changes), steps)
            case Some(s) => !s.dangling ==> |s.pool| + Removed(steps) == Stored(steps)
            case None => true
  {
    hide Next;
    if steps != [] {
      var before, step := steps[..|steps| - 1], steps[|steps| - 1];
      PoolIsCounted(threads, changes, before);
      match Run(Initial(threads, changes), before)
      case Some(s) =>
        if Next(s, step).Some? {
          if s.dangling {
            DanglingStep(s, step);
          } else {
            PoolStep(s, step);
          }
        }
      case None =>
    }
  }

  /** At some step of the run a thread frees the pool, while more has been stored than removed. */
  ghost predicate FreedInUse(s: Shared, steps: seq<Step>) {
    exists i | 0 <= i < |steps| ::
      Run(s, steps[..i]).Some? && FreesPool(Run(s, steps[..i]).value, steps[i])
          && Stored(steps[..i]) > Removed(steps[..i])
  }

  lemma FreedInUseStep(s: Shared, before: seq<Step>, step: Step)
    requires Run(s, before).Some?
    ensures FreedInUse(s, before + [step])
            <==> FreedInUse(s, before) || (FreesPool(Run(s, before).value, step) && Stored(before) > Removed(before))
  {
    hide Run, FreesPool, Stored, Removed;
    var steps := before + [step];
    assert steps[..|before|] == before && steps[|before|] == step;
    assert forall i | 0 <= i < |before| :: steps[..i] == before[..i] && steps[i] == before[i];
    if FreedInUse(s, before) {
      var i :| 0 <= i < |before| && Run(s, before[..i]).Some? && FreesPool(Run(s, before[..i]).value, before[i])
               && Stored(before[..i]) > Removed(before[..i]);
      assert Run(s, steps[..i]).Some? && FreesPool(Run(s, steps[..i]).value, steps[i]);
    }
  }

  /**
   The head of the list comes to point to freed entries exactly when a thread returns from proxy_connect having seen
   another parent selected than when it entered, while more connections have been stored than taken out.
   */
  lemma {:induction false} HeadDanglesWhen(threads: nat, changes: seq<Header>, steps: seq<Step>)
    ensures match Run(Initial(threads, changes), steps)
            case Some(s) => s.dangling <==> FreedInUse(Initial(threads, changes), steps)
            case None => true
  {
    hide Next, FreedInUse, Initial, FreesPool;
    if steps == [] {
      NotYetFreed(threads, changes);
    } else {
      var before, step := steps[..|steps| - 1], steps[|steps| - 1];
      assert steps == before + [step];
      HeadDanglesWhen(threads, changes, before);
      PoolIsCounted(threads, changes, before);
      match Run(Initial(threads, changes), before)
      case Some(s) =>
        if Next(s, step).Some? {
          FreedInUseStep(Initial(threads, changes), before, step);
          if s.dangling {
            DanglingStep(s, step);
          } else {
            PoolStep(s, step);
          }
        }
      case None =>
    }
  }

  lemma NotYetFreed(threads: nat, changes: seq<Header>)
    ensures !Initial(threads, changes).dangling && !FreedInUse(Initial(threads, changes), [])
  {
  }

  // ---------- when it is not ----------

  function SinceAfter(n: nat, t: nat, step: Step): nat {
    match step
    case Do(t', Take(_, _)) => if t' == t then 0 else n
    case Do(_, Store(_)) => n + 1
    case _ => n
  }

  /** The connections that any thread has stored since the last search of a thread. */
  function StoredSince(steps: seq<Step>, t: nat): nat {
    if steps == [] then 0 else SinceAfter(StoredSince(steps[..|steps| - 1], t), t, steps[|steps| - 1])
  }

  predicate StoresDescriptor(step: Step) {
    match step
    case Do(_, Store(fd)) => fd > 0
    case _ => true
  }

  predicate AreDescriptors(pool: seq<Record>) {
    forall i :: 0 <= i < |pool| ==> pool[i].fd > 0
  }

  /** A thread that found nothing in the pool: what is there now has been stored since. */
  predicate FoundNothing(s: Shared, t: nat, since: nat) {
    && AreDescriptors(s.pool)
    && (t < |s.threads| && s.threads[t].state.phase !in {F.Start, F.Done} && !s.threads[t].state.cached
        ==> |s.pool| <= since)
  }

  /** Without a search a thread stays with what it has. */
  lemma StaysUncached(s: F.State, e: F.Event)
    requires F.Step(s, e).Some? && F.Step(s, e).value.phase !in {F.Start, F.Done} && !F.Step(s, e).value.cached
             && !e.Take?
    ensures s.phase !in {F.Start, F.Done} && !s.cached
  {
    hide F.Forwardable, F.SendableAfterProbe, F.ReplyWillDo, F.AsksForToken, F.ProbeOnly, F.Keeps, R.FinishedReply,
         F.Searched;
    if e.Answer? {
      assert F.Step(s, e).value.cached == s.cached;
    }
  }

  lemma NothingLeft(s: F.State, closed: seq<int>, found: Option<int>)
    requires F.Step(s, F.Take(closed, found)).Some? && F.AllAreDescriptors(s.pool)
    ensures var next := F.Step(s, F.Take(closed, found)).value;
            !next.cached ==> found == None
  {
    if found.Some? {
      assert s.pool[|closed|] == (closed + [found.value])[|closed|];
    }
  }

  lemma DoFindsNothing(s: Shared, t: nat, e: F.Event, me: nat, since: nat)
    requires FoundNothing(s, me, since) && t < |s.threads| && Done(s, t, e).Some? && StoresDescriptor(Do(t, e))
    ensures FoundNothing(Done(s, t, e).value, me, SinceAfter(since, me, Do(t, e)))
  {
    hide F.Step, F.CarriedAfter, F.ProvenAfter, Fds;
    var before := s.threads[t].state.(pool := Fds(s.pool));
    if e.Take? {
      NothingLeft(before, e.closed, e.found);
    } else if t == me {
      var after := F.Step(before, e).value;
      if after.phase !in {F.Start, F.Done} && !after.cached {
        StaysUncached(before, e);
      }
    }
  }

  lemma StepFindsNothing(s: Shared, step: Step, me: nat, since: nat)
    requires FoundNothing(s, me, since) && Next(s, step).Some? && StoresDescriptor(step)
    ensures FoundNothing(Next(s, step).value, me, SinceAfter(since, me, step))
  {
    hide Done;
    match step
    case Do(t, e) => DoFindsNothing(s, t, e, me, since);
    case _ =>
  }

  lemma {:induction false} RunFindsNothing(threads: nat, changes: seq<Header>, steps: seq<Step>, me: nat)
    requires forall i :: 0 <= i < |steps| ==> StoresDescriptor(steps[i])
    ensures match Run(Initial(threads, changes), steps)
            case Some(s) => FoundNothing(s, me, StoredSince(steps, me))
            case None => true
  {
    hide Next, StoresDescriptor;
    if steps != [] {
      var before, step := steps[..|steps| - 1], steps[|steps| - 1];
      RunFindsNothing(threads, changes, before, me);
      match Run(Initial(threads, changes), before)
      case Some(s) =>
        if Next(s, step).Some? {
          StepFindsNothing(s, step, me, StoredSince(before, me));
        }
      case None =>
    }
  }

  lemma ReturningPhases(s: F.State, e: F.Event)
    requires F.Step(s, e).Some? && Returns(e)
    ensures s.phase in {F.Searching, F.Informed}
  {
  }

  /**
   As long as no thread stores a connection between another's search of the pool and its return from proxy_connect,
   forward_request leaves the head of the list as it was, whatever parents are selected meanwhile.
   */
  lemma NoStoreNoDangling(threads: nat, changes: seq<Header>, steps: seq<Step>, t: nat, e: F.Event)
    requires forall i :: 0 <= i < |steps| ==> StoresDescriptor(steps[i])
    requires Run(Initial(threads, changes), steps + [Do(t, e)]).Some? && Returns(e) && StoredSince(steps, t) == 0
    ensures Run(Initial(threads, changes), steps).Some?
    ensures Run(Initial(threads, changes), steps + [Do(t, e)]).value.dangling
            == Run(Initial(threads, changes), steps).value.dangling
  {
    hide Run, F.Step;
    RunSplits(Initial(threads, changes), steps, Do(t, e));
    RunFindsNothing(threads, changes, steps, t);
    RunIsSound(threads, changes, steps);
    var s := Run(Initial(threads, changes), steps).value;
    assert SoundThread(s.threads[t]);
    ReturningPhases(s.threads[t].state.(pool := Fds(s.pool)), e);
  }

  /** One thread that only ever calls forward_request. */
  predicate OneForwarder(steps: seq<Step>) {
    forall i :: 0 <= i < |steps| ==> StoresDescriptor(steps[i]) && !steps[i].Leave?
  }

  lemma StoreEnds(s: F.State, fd: int)
    ensures match F.Step(s, F.Store(fd)) case Some(next) => next.phase == F.Done case None => true
  {
  }

  lemma AloneStep(s: Shared, step: Step, since: nat)
    requires |s.threads| == 1 && Next(s, step).Some? && !step.Leave?
    requires s.threads[0].state.phase !in {F.Start, F.Done} ==> since == 0
    ensures var u := Next(s, step).value;
            |u.threads| == 1 && (u.threads[0].state.phase !in {F.Start, F.Done} ==> SinceAfter(since, 0, step) == 0)
  {
    hide F.Step, F.CarriedAfter, F.ProvenAfter, RecordOf;
    match step
    case Do(t, e) =>
      var before := s.threads[t].state.(pool := Fds(s.pool));
      if e.Store? {
        StoreEnds(before, e.fd);
      } else if !e.Take? && before.phase in {F.Start, F.Done} {
        StartStays(before, e);
      }
    case _ =>
  }

  lemma StartStays(s: F.State, e: F.Event)
    requires F.Step(s, e).Some? && !e.Take? && s.phase in {F.Start, F.Done}
    ensures F.Step(s, e).value.phase in {F.Start, F.Done}
  {
  }

  /** One call after the other, of one thread, never leaves the head of the list dangling. */
  lemma {:induction false} CallsInTurnAreSafe(changes: seq<Header>, steps: seq<Step>)
    requires OneForwarder(steps)
    ensures match Run(Initial(1, changes), steps)
            case Some(s) =>
              && !s.dangling && |s.threads| == 1
              && (s.threads[0].state.phase !in {F.Start, F.Done} ==> StoredSince(steps, 0) == 0)
            case None => true
  {
    hide Next, StoresDescriptor;
    if steps != [] {
      var before, step := steps[..|steps| - 1], steps[|steps| - 1];
      assert steps == before + [step];
      CallsInTurnAreSafe(changes, before);
      match Run(Initial(1, changes), before)
      case Some(s) =>
        if Next(s, step).Some? {
          AloneStep(s, step, StoredSince(before, 0));
          StepInTurn(changes, before, step);
        }
      case None =>
    }
  }

  lemma StepInTurn(changes: seq<Header>, before: seq<Step>, step: Step)
    requires OneForwarder(before) && !step.Leave? && Run(Initial(1, changes), before + [step]).Some?
    requires Run(Initial(1, changes), before).Some?
    requires var s := Run(Initial(1, changes), before).value;
             && !s.dangling && |s.threads| == 1
             && (s.threads[0].state.phase !in {F.Start, F.Done} ==> StoredSince(before, 0) == 0)
    ensures !Run(Initial(1, changes), before + [step]).value.dangling
  {
    hide Run, F.Step;
    RunSplits(Initial(1, changes), before, step);
    var s := Run(Initial(1, changes), before).value;
    PoolStep(s, step);
    if step.Do? && Returns(step.e) {
      ReturningPhases(s.threads[step.t].state.(pool := Fds(s.pool)), step.e);
      NoStoreNoDangling(1, changes, before, step.t, step.e);
    }
  }

  // ---------- one call on its own ----------

  /** What one call does, as steps of the only thread; no other parent is selected meanwhile. */
  function Alone(request: Message, trace: seq<F.Event>): seq<Step> {
    if trace == [] then [Call(0, request)]
    else
      var before, e := trace[..|trace| - 1], trace[|trace| - 1];
      Alone(request, before) + (if Returns(e) then [Enter(0), Compare(0), Do(0, e)] else [Do(0, e)])
  }

  lemma RunAppends(s: Shared, steps: seq<Step>, step: Step)
    requires Run(s, steps).Some?
    ensures Run(s, steps + [step]) == Next(Run(s, steps).value, step)
  {
    hide Next;
    assert (steps + [step])[..|steps|] == steps;
  }

  /** The pool changes as in ForwardRuns. */
  lemma PoolFollows(s: F.State, pool: seq<Record>, th: Thread, e: F.Event)
    requires s.pool == Fds(pool) && F.Step(s, e).Some?
    ensures Fds(PoolAfter(pool, th, e)) == F.Step(s, e).value.pool
  {
    hide F.Forwardable, F.SendableAfterProbe, F.ReplyWillDo, F.AsksForToken, F.ProbeOnly, F.Keeps, R.FinishedReply;
    if e.Take? {
      TakeSearches(s, e.closed, e.found);
      SearchRemoves(s.pool, e.closed, e.found);
    }
  }

  lemma ReturnKeepsPool(s: F.State, e: F.Event)
    requires F.Step(s, e).Some? && Returns(e)
    ensures F.Step(s, e).value.pool == s.pool
  {
  }

  predicate Follows(s: Shared, f: F.State) {
    && |s.threads| == 1 && s.threads[0].state == f.(pool := []) && s.threads[0].visit == Outside
    && Fds(s.pool) == f.pool && !s.dangling
  }

  lemma EnterAndCompare(s: Shared, f: F.State)
    requires Follows(s, f) && f.phase in {F.Searching, F.Informed}
    ensures Next(s, Enter(0)).Some? && Next(Next(s, Enter(0)).value, Compare(0)).Some?
    ensures var u := Next(Next(s, Enter(0)).value, Compare(0)).value;
            u == s.(threads := [s.threads[0].(visit := Compared(false))])
  {
    hide Fds;
    var u := Next(Next(s, Enter(0)).value, Compare(0)).value;
    assert u.threads == [s.threads[0].(visit := Compared(false))];
  }

  lemma DoFollows(s: Shared, f: F.State, e: F.Event)
    requires |s.threads| == 1 && s.threads[0].state == f.(pool := []) && Fds(s.pool) == f.pool && !s.dangling
    requires s.threads[0].visit == (if Returns(e) then Compared(false) else Outside) && F.Step(f, e).Some?
    ensures Next(s, Do(0, e)).Some? && Follows(Next(s, Do(0, e)).value, F.Step(f, e).value)
    ensures var th, th' := s.threads[0], Next(s, Do(0, e)).value.threads[0];
            th'.carried == F.CarriedAfter(th.carried, e) && th'.proven == F.ProvenAfter(th.proven, th.carried, e)
  {
    hide F.Step, F.CarriedAfter, F.ProvenAfter, Fds, PoolAfter;
    assert f.(pool := []).(pool := Fds(s.pool)) == f;
    if Returns(e) {
      ReturnKeepsPool(f, e);
    } else {
      PoolFollows(f, s.pool, s.threads[0], e);
    }
  }

  /**
   A call on its own, with an empty pool, does here what it does in ForwardRuns, and the same is told of its messages.
   */
  lemma {:induction false} OneCallIsForwardRun(request: Message, changes: seq<Header>, trace: seq<F.Event>)
    requires F.Run(F.Initial([], request, changes), trace).Some?
    ensures var r := Run(Initial(1, changes), Alone(request, trace));
            && r.Some? && Follows(r.value, F.Run(F.Initial([], request, changes), trace).value)
                && |r.value.threads| == 1
            && r.value.threads[0].carried == F.Carried(trace) && r.value.threads[0].proven == F.Proven(trace)
  {
    hide Run, Next, F.Step, Follows;
    if trace == [] {
      CallFollows(request, changes);
    } else {
      var before, e := trace[..|trace| - 1], trace[|trace| - 1];
      OneCallIsForwardRun(request, changes, before);
      var steps := Alone(request, before);
      var s, f := Run(Initial(1, changes), steps).value, F.Run(F.Initial([], request, changes), before).value;
      if Returns(e) {
        ReturningPhases(f, e);
        EnterAndCompare(s, f);
        RunAppends(Initial(1, changes), steps, Enter(0));
        RunAppends(Initial(1, changes), steps + [Enter(0)], Compare(0));
        RunAppends(Initial(1, changes), steps + [Enter(0)] + [Compare(0)], Do(0, e));
        assert steps + [Enter(0)] + [Compare(0)] + [Do(0, e)] == Alone(request, trace);
        FollowsMeans(s, f);
        DoFollows(s.(threads := [s.threads[0].(visit := Compared(false))]), f, e);
      } else {
        RunAppends(Initial(1, changes), steps, Do(0, e));
        FollowsMeans(s, f);
        DoFollows(s, f, e);
      }
      FollowsMeans(Run(Initial(1, changes), Alone(request, trace)).value,
                   F.Run(F.Initial([], request, changes), trace).value);
    }
  }

  lemma FollowsMeans(s: Shared, f: F.State)
    requires Follows(s, f)
    ensures |s.threads| == 1 && s.threads[0].state == f.(pool := []) && s.threads[0].visit == Outside
    ensures Fds(s.pool) == f.pool && !s.dangling
  {
  }

  lemma CallFollows(request: Message, changes: seq<Header>)
    ensures Run(Initial(1, changes), [Call(0, request)]).Some?
    ensures var s := Run(Initial(1, changes), [Call(0, request)]).value;
            Follows(s, F.Initial([], request, changes)) && |s.threads| == 1 && !s.threads[0].carried
                && !s.threads[0].proven
  {
    assert [Call(0, request)][..0] == [];
    NoPool([]);
  }

  // ---------- a run that leaves it dangling ----------

  function StaleRun(asked: Message, changes: seq<Header>, first: string, reply: Message): seq<Step> {
    [Enter(0), Call(1, asked), Do(1, F.Take([], None)), Enter(1), Select(1, 1), Compare(1), Do(1, F.Connect(5)),
     Do(1, F.Probe(F.Once(asked, changes), first)), Do(1, F.Learn(reply, None)),
     Do(1, F.Answer(F.FromProbe, reply, R.FinishedReply(reply))), Do(1, F.Store(5)), Compare(0), Leave(0)]
  }

  /** One step more of a run, with the threads and the rest it leads to. */
  lemma TakeStep(changes: seq<Header>, steps: seq<Step>, i: nat, s: Shared) returns (next: Shared)
    requires i < |steps| && Run(Initial(2, changes), steps[..i]) == Some(s) && Next(s, steps[i]).Some?
    ensures next == Next(s, steps[i]).value && Run(Initial(2, changes), steps[..i + 1]) == Some(next)
  {
    hide Next;
    assert steps[..i + 1][..i] == steps[..i];
    next := Next(s, steps[i]).value;
  }

  /** A thread in forward_request, which has taken nothing from the pool. */
  function Serving(s: F.State, visit: Visit): Thread {
    Thread(s, visit, None, false, false)
  }

  /** The tunneling thread in proxy_connect, and the other one. */
  function Both(changes: seq<Header>, pool: seq<Record>, selected: nat, s: F.State, visit: Visit): Shared {
    Shared(pool, false, selected, changes, [Idle(changes).(visit := Inside(0)), Serving(s, visit)])
  }

  lemma Called(asked: Message, changes: seq<Header>, first: string, reply: Message)
    ensures Run(Initial(2, changes), StaleRun(asked, changes, first, reply)[..2])
            == Some(Both(changes, [], 0, F.Initial([], asked, changes), Outside))
  {
    hide Run;
    var t := StaleRun(asked, changes, first, reply);
    StartOf(changes, t);
    var s1 := TakeStep(changes, t, 0, Initial(2, changes));
    var s2 := TakeStep(changes, t, 1, s1);
    assert s2.threads == [Idle(changes).(visit := Inside(0)), Serving(F.Initial([], asked, changes), Outside)];
  }

  lemma Searching(asked: Message, changes: seq<Header>, first: string, reply: Message)
    ensures Run(Initial(2, changes), StaleRun(asked, changes, first, reply)[..4])
            == Some(Both(changes, [], 0, F.Initial([], asked, changes).(phase := F.Searching, host := asked.hostname),
                         Inside(0)))
  {
    hide Run;
    var t := StaleRun(asked, changes, first, reply);
    Called(asked, changes, first, reply);
    NoPool([]);
    var s3 := TakeStep(changes, t, 2, Both(changes, [], 0, F.Initial([], asked, changes), Outside));
    var s4 := TakeStep(changes, t, 3, s3);
    assert s4.threads == [Idle(changes).(visit := Inside(0)),
                          Serving(F.Initial([], asked, changes).(phase := F.Searching, host := asked.hostname),
                                  Inside(0))];
  }

  lemma Connecting(asked: Message, changes: seq<Header>, first: string, reply: Message)
    ensures Run(Initial(2, changes), StaleRun(asked, changes, first, reply)[..7])
            == Some(Both(changes, [], 1,
                         F.Initial([], asked, changes).(phase := F.Ready, sd := 5, host := asked.hostname), Outside))
  {
    hide Run;
    var t := StaleRun(asked, changes, first, reply);
    Searching(asked, changes, first, reply);
    var s4 := Both(changes, [], 0, F.Initial([], asked, changes).(phase := F.Searching, host := asked.hostname),
                   Inside(0));
    var s5 := TakeStep(changes, t, 4, s4);
    var s6 := TakeStep(changes, t, 5, s5);
    NoPool(s6.pool);
    var s7 := TakeStep(changes, t, 6, s6);
    assert s7.threads
           == [Idle(changes).(visit := Inside(0)),
               Serving(F.Initial([], asked, changes).(phase := F.Ready, sd := 5, host := asked.hostname), Outside)];
  }

  /** What an event of the serving thread leads to. */
  lemma ServingStep(changes: seq<Header>, steps: seq<Step>, i: nat, s: F.State, e: F.Event, next: F.State)
    requires i < |steps| && steps[i] == Do(1, e)
             && Run(Initial(2, changes), steps[..i]) == Some(Both(changes, [], 1, s, Outside))
    requires F.Step(s, e) == Some(next) && s.pool == next.pool == [] && (e.Probe? || e.Learn? || e.Answer?)
    requires !F.CarriedAfter(false, e) && !F.ProvenAfter(false, false, e)
    ensures Run(Initial(2, changes), steps[..i + 1]) == Some(Both(changes, [], 1, next, Outside))
  {
    hide Run, F.Step, F.CarriedAfter, F.ProvenAfter;
    NoPool([]);
    assert s.(pool := []) == s && next.(pool := []) == next;
    var after := TakeStep(changes, steps, i, Both(changes, [], 1, s, Outside));
    assert after.threads == [Idle(changes).(visit := Inside(0)), Serving(next, Outside)];
  }

  lemma Answering(asked: Message, changes: seq<Header>, first: string, reply: Message)
    requires asked.req && !F.ProbeOnly(F.Once(asked, changes)) && F.Keeps(F.Once(asked, changes), reply)
    requires reply.code >= 400 && reply.code != 407
    ensures exists s: F.State ::
              && Run(Initial(2, changes), StaleRun(asked, changes, first, reply)[..10])
                  == Some(Both(changes, [], 1, s, Outside))
              && s.phase == F.Replied && s.sd == 5 && s.authok && s.keep && s.pool == []
  {
    hide Run, F.ProbeOnly, F.Keeps, R.Prepared, R.FinishedHeaders, Both, F.OtherHost;
    F.OwnHost(asked);
    var t := StaleRun(asked, changes, first, reply);
    Connecting(asked, changes, first, reply);
    var s7 := F.Initial([], asked, changes).(phase := F.Ready, sd := 5, host := asked.hostname);
    var s8 := F.Step(s7, F.Probe(F.Once(asked, changes), first)).value;
    ServingStep(changes, t, 7, s7, F.Probe(F.Once(asked, changes), first), s8);
    var s9 := F.Step(s8, F.Learn(reply, None)).value;
    ServingStep(changes, t, 8, s8, F.Learn(reply, None), s9);
    var answer := F.Answer(F.FromProbe, reply, R.FinishedReply(reply));
    var s10 := F.Step(s9, answer).value;
    ServingStep(changes, t, 9, s9, answer, s10);
  }

  lemma StartOf(changes: seq<Header>, steps: seq<Step>)
    ensures Run(Initial(2, changes), steps[..0]) == Some(Initial(2, changes))
  {
  }

  lemma NoPool(pool: seq<Record>)
    ensures pool == [] ==> Fds(pool) == []
  {
  }

  /** The tunneling thread finds that another parent has been selected. */
  lemma Returning(changes: seq<Header>, steps: seq<Step>, s: Shared)
    requires |steps| == 13 && steps[11] == Compare(0) && steps[12] == Leave(0)
             && Run(Initial(2, changes), steps[..11]) == Some(s)
    requires |s.threads| == 2 && s.threads[0] == Idle(changes).(visit := Inside(0)) && s.selected == 1 && !s.dangling
             && s.pool != []
    ensures var r := Run(Initial(2, changes), steps[..13]);
            && r.Some? && r.value.dangling
            && forall t, closed, found :: Next(r.value, Do(t, F.Take(closed, found))) == None
  {
    hide Run, F.Step;
    var s12 := TakeStep(changes, steps, 11, s);
    var s13 := TakeStep(changes, steps, 12, s12);
  }

  /**
   A thread that tunnels enters proxy_connect before any parent is selected; another serves a request meanwhile, and
   stores its connection; then the first one returns. Nothing can look at the pool any more.
   */
  lemma TunnelLeavesHeadDangling(asked: Message, changes: seq<Header>, first: string, reply: Message)
    requires asked.req && !F.ProbeOnly(F.Once(asked, changes)) && F.Keeps(F.Once(asked, changes), reply)
    requires reply.code >= 400 && reply.code != 407
    ensures var s := Run(Initial(2, changes), StaleRun(asked, changes, first, reply));
            && s.Some? && s.value.dangling
            && forall t, closed, found :: Next(s.value, Do(t, F.Take(closed, found))) == None
  {
    hide Run, F.ProbeOnly, F.Keeps, R.Prepared, R.FinishedHeaders;
    var t := StaleRun(asked, changes, first, reply);
    Answering(asked, changes, first, reply);
    var served: F.State :| Run(Initial(2, changes), t[..10]) == Some(Both(changes, [], 1, served, Outside))
                           && served.phase == F.Replied && served.sd == 5 && served.authok && served.keep
                               && served.pool == [];
    NoPool([]);
    var s11 := TakeStep(changes, t, 10, Both(changes, [], 1, served, Outside));
    Returning(changes, t, s11);
    assert t[..13] == t;
  }
}
