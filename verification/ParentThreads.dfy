/**
 proxy_connect run by any number of threads at once: what happens between taking and releasing parent_mtx is one
 step, and the steps of different threads interleave in any order.
 */
module ParentThreads {
  import opened Options
  import opened Parents

  /** A thread outside proxy_connect, before looking up the selected parent, or trying the one looked up last. */
  datatype Thread = Outside | Choosing(tried: seq<nat>) | Trying(tried: seq<nat>)

  datatype State = State(current: nat, threads: seq<Thread>)

  datatype Step = Enter(t: nat) | Choose(t: nat) | Fail(t: nat) | Succeed(t: nat)

  function Initial(threads: nat): State {
    State(0, seq(threads, _ => Outside))
  }

  /** One step, with n parents; None if the thread is elsewhere. A thread that has failed n times gives up. */
  function Next(s: State, n: nat, step: Step): Option<State> {
    if step.t >= |s.threads| then None
    else
      match (step, s.threads[step.t])
      case (Enter(t), Outside) =>
        Some(State(Entered(s.current), s.threads[t := Choosing([])]))
      case (Choose(t), Choosing(tried)) =>
        Some(State(s.current, s.threads[t := Trying(tried + [s.current])]))
      case (Fail(t), Trying(tried)) =>
        Some(State(Advanced(s.current, n), s.threads[t := if |tried| < n then Choosing(tried) else Outside]))
      case (Succeed(t), Trying(tried)) =>
        Some(State(s.current, s.threads[t := Outside]))
      case _ => None
  }

  /** The number a step looks up in the parent list while it holds the lock. */
  function Lookup(s: State, n: nat, step: Step): Option<nat> {
    match step
    case Enter(t) => if s.current == 0 then Some(Entered(s.current)) else None
    case Choose(t) => Some(s.current)
    case Fail(t) => Some(Advanced(s.current, n))
    case Succeed(t) => None
  }

  /** Where a run leads; None if some step cannot be taken. */
  function Run(s: State, n: nat, steps: seq<Step>): Option<State> {
    if steps == [] then Some(s)
    else
      match Run(s, n, steps[..|steps| - 1])
      case Some(s') => Next(s', n, steps[|steps| - 1])
      case None => None
  }

  lemma RunSplits(s: State, n: nat, steps: seq<Step>, step: Step)
    requires Run(s, n, steps + [step]).Some?
    ensures Run(s, n, steps).Some? && Next(Run(s, n, steps).value, n, step) == Run(s, n, steps + [step])
  {
    hide Next;
    assert (steps + [step])[..|steps|] == steps;
  }

  /** What can be run has beginnings that can be run. */
  lemma {:induction false} RunBegins(s: State, n: nat, steps: seq<Step>, more: seq<Step>)
    requires Run(s, n, steps + more).Some?
    ensures Run(s, n, steps).Some?
  {
    hide Next;
    if more == [] {
      assert steps + more == steps;
    } else {
      var front := more[..|more| - 1];
      assert (steps + more)[..|steps + more| - 1] == steps + front;
      RunBegins(s, n, steps, front);
    }
  }

  // ---------- some parent is always selected ----------

  /** Some parent is selected as soon as a thread has entered, and every thread knows only parents. */
  ghost predicate Inv(s: State, n: nat) {
    && s.current <= n
    && (s.current == 0 ==> forall t :: 0 <= t < |s.threads| ==> s.threads[t].Outside?)
    && (forall t :: 0 <= t < |s.threads| ==> ThreadInv(s.threads[t], n))
  }

  ghost predicate ThreadInv(thread: Thread, n: nat) {
    match thread
    case Outside => true
    case Choosing(tried) => |tried| < n && forall i :: 0 <= i < |tried| ==> 1 <= tried[i] <= n
    case Trying(tried) => 1 <= |tried| <= n && forall i :: 0 <= i < |tried| ==> 1 <= tried[i] <= n
  }

  lemma {:induction false} RunKeepsInv(threads: nat, n: nat, steps: seq<Step>)
    requires n >= 1
    ensures match Run(Initial(threads), n, steps) case Some(s) => Inv(s, n) && |s.threads| == threads case None => true
  {
    if steps != [] {
      RunKeepsInv(threads, n, steps[..|steps| - 1]);
    }
  }

  /**
   In every interleaving, after every step of a thread inside proxy_connect a parent is selected, every lookup finds
   a parent, and no thread tries more than n times.
   */
  lemma EveryInterleavingSelectsAParent(threads: nat, n: nat, steps: seq<Step>, step: Step)
    requires n >= 1 && Run(Initial(threads), n, steps + [step]).Some?
    ensures var s := Run(Initial(threads), n, steps).value;
            && Run(Initial(threads), n, steps).Some?
            && (match Lookup(s, n, step) case Some(p) => 1 <= p <= n case None => true)
    ensures var s := Run(Initial(threads), n, steps + [step]).value;
            && 1 <= s.current <= n
            && forall t :: 0 <= t < |s.threads| && s.threads[t].Trying? ==> |s.threads[t].tried| <= n
  {
    RunSplits(Initial(threads), n, steps, step);
    RunKeepsInv(threads, n, steps);
    RunKeepsInv(threads, n, steps + [step]);
  }

  // ---------- which parent is selected ----------

  /** The failures of all threads. */
  function Fails(steps: seq<Step>): nat {
    if steps == [] then 0
    else Fails(steps[..|steps| - 1]) + if steps[|steps| - 1].Fail? then 1 else 0
  }

  /** The failures of all threads but one. */
  function OtherFails(steps: seq<Step>, t: nat): nat {
    if steps == [] then 0
    else
      var last := steps[|steps| - 1];
      OtherFails(steps[..|steps| - 1], t) + if last.Fail? && last.t != t then 1 else 0
  }

  /** The parent that is selected after so many failures. */
  function Position(fails: nat, n: nat): nat
    requires n >= 1
  {
    1 + fails % n
  }

  lemma AtLeastOne(d: int, n: nat)
    requires d >= 1
    ensures d * n >= n
  {
  }

  /** Numbers less than n apart that differ by a multiple of n are the same. */
  lemma MultipleIsZero(d: int, n: nat)
    requires 0 - n < d * n < n
    ensures d == 0
  {
    if d >= 1 {
      AtLeastOne(d, n);
    } else if d <= -1 {
      AtLeastOne(-d, n);
    }
  }

  lemma RemainderIs(x: nat, q: nat, r: nat, n: nat)
    requires x == q * n + r && r < n
    ensures x % n == r
  {
    assert x == (x / n) * n + x % n;
    assert (x / n - q) * n == r - x % n;
    MultipleIsZero(x / n - q, n);
  }

  lemma NextRemainder(x: nat, n: nat)
    requires n >= 1
    ensures (x + 1) % n == if x % n + 1 == n then 0 else x % n + 1
  {
    var q, r := x / n, x % n;
    assert x == q * n + r;
    if r + 1 == n {
      assert x + 1 == (q + 1) * n + 0;
      RemainderIs(x + 1, q + 1, 0, n);
    } else {
      RemainderIs(x + 1, q, r + 1, n);
    }
  }

  lemma AdvancedPosition(fails: nat, n: nat)
    requires n >= 1
    ensures Advanced(Position(fails, n), n) == Position(fails + 1, n)
  {
    NextRemainder(fails, n);
  }

  lemma Distribute(q: int, p: int, n: int)
    ensures (q + p) * n == q * n + p * n && (q + p + 1) * n == q * n + p * n + n
  {
  }

  lemma QuotientAndRemainder(x: nat, n: nat)
    requires n >= 1
    ensures x == (x / n) * n + x % n && x % n < n
  {
  }

  lemma SumRemainder(x: nat, o: nat, q: nat, r: nat, p: nat, u: nat, qn: nat, pn: nat, n: nat)
    requires qn == q * n && pn == p * n && x == qn + r && o == pn + u && r < n && u < n
    ensures (x + o) % n == if r + u < n then r + u else r + u - n
  {
    Distribute(q, p, n);
    if r + u < n {
      RemainderIs(x + o, q + p, r + u, n);
    } else {
      RemainderIs(x + o, q + p + 1, r + u - n, n);
    }
  }

  /** Adding o leads to the same remainder exactly if o is a multiple of n. */
  lemma SameRemainder(x: nat, o: nat, n: nat)
    requires n >= 1
    ensures (x + o) % n == x % n <==> o % n == 0
  {
    QuotientAndRemainder(x, n);
    QuotientAndRemainder(o, n);
    SumRemainder(x, o, x / n, x % n, o / n, o % n, (x / n) * n, (o / n) * n, n);
  }

  /** Whatever the threads do, the parent selected is told by the number of failures alone. */
  lemma {:induction false} FailuresSelect(threads: nat, n: nat, steps: seq<Step>)
    requires n >= 1
    ensures match Run(Initial(threads), n, steps)
            case Some(s) => if s.current == 0 then Fails(steps) == 0 else s.current == Position(Fails(steps), n)
            case None => true
  {
    hide Position;
    if steps == [] {
    } else {
      var before := steps[..|steps| - 1];
      FailuresSelect(threads, n, before);
      RunKeepsInv(threads, n, before);
      AdvancedPosition(Fails(before), n);
      FirstPosition(n);
    }
  }

  lemma FirstPosition(n: nat)
    requires n >= 1
    ensures Position(0, n) == 1
  {
  }

  // ---------- two lookups of one thread ----------

  /** The thread neither enters nor looks up a parent. */
  predicate Between(steps: seq<Step>, t: nat) {
    forall i :: 0 <= i < |steps| ==> steps[i] != Enter(t) && steps[i] != Choose(t)
  }

  lemma FailsAppend(a: seq<Step>, step: Step, t: nat)
    ensures Fails(a + [step]) == Fails(a) + if step.Fail? then 1 else 0
    ensures OtherFails(a + [step], t) == OtherFails(a, t) + if step.Fail? && step.t != t then 1 else 0
  {
    assert (a + [step])[..|a|] == a;
  }

  /** Between two lookups the thread has failed once; all other failures are the other threads'. */
  lemma {:induction false} OwnFailure(s: State, n: nat, a: seq<Step>, t: nat, b: seq<Step>)
    requires Run(s, n, a + [Choose(t)] + b).Some? && Between(b, t) && Run(s, n, a + [Choose(t)]).Some?
    ensures var u := Run(s, n, a + [Choose(t)] + b).value;
            && t < |u.threads|
            && (u.threads[t].Trying? ==> Fails(a + [Choose(t)] + b) == Fails(a) + OtherFails(b, t))
            && (u.threads[t].Choosing? ==> Fails(a + [Choose(t)] + b) == Fails(a) + 1 + OtherFails(b, t))
    decreases |b|
  {
    var base := a + [Choose(t)];
    if b == [] {
      assert base + b == base;
      RunSplits(s, n, a, Choose(t));
      FailsAppend(a, Choose(t), t);
    } else {
      var front, last := b[..|b| - 1], b[|b| - 1];
      assert base + b == base + front + [last] && b == front + [last];
      RunSplits(s, n, base + front, last);
      OwnFailure(s, n, a, t, front);
      FailsAppend(base + front, last, t);
      FailsAppend(front, last, t);
    }
  }

  /**
   A thread that failed and looks up the next parent finds the one after the one it tried exactly if the failures of
   the other threads in between number 0 modulo n. So a thread on its own goes round the circle, and each other
   failure moves it on.
   */
  lemma NextLookupIsAfterWhen(threads: nat, n: nat, a: seq<Step>, t: nat, b: seq<Step>)
    requires n >= 1 && Between(b, t)
    requires Run(Initial(threads), n, a + [Choose(t)] + b + [Choose(t)]).Some?
    ensures Run(Initial(threads), n, a).Some? && Run(Initial(threads), n, a + [Choose(t)] + b).Some?
    ensures var first := Run(Initial(threads), n, a).value.current;
            var second := Run(Initial(threads), n, a + [Choose(t)] + b).value.current;
            && 1 <= first <= n && 1 <= second <= n
            && (second == After(first, n) <==> OtherFails(b, t) % n == 0)
  {
    hide Run, Next, Inv, Advanced;
    var s := Initial(threads);
    var both := a + [Choose(t)] + b;
    RunSplits(s, n, both, Choose(t));
    RunBegins(s, n, a + [Choose(t)], b);
    RunSplits(s, n, a, Choose(t));
    OwnFailure(s, n, a, t, b);
    ChoosingThread(Run(s, n, both).value, n, t);
    FailuresSelect(threads, n, a);
    FailuresSelect(threads, n, both);
    EveryInterleavingSelectsAParent(threads, n, a, Choose(t));
    EveryInterleavingSelectsAParent(threads, n, both, Choose(t));
    LookedUp(Run(s, n, a).value, n, t);
    LookedUp(Run(s, n, both).value, n, t);
    AdvancedPosition(Fails(a), n);
    SameRemainder(Fails(a) + 1, OtherFails(b, t), n);
  }

  lemma ChoosingThread(s: State, n: nat, t: nat)
    requires Next(s, n, Choose(t)).Some?
    ensures t < |s.threads| && s.threads[t].Choosing?
  {
  }

  lemma LookedUp(s: State, n: nat, t: nat)
    ensures Lookup(s, n, Choose(t)) == Some(s.current)
  {
  }

  /**
   When an attempt succeeds, the parent that worked is the one selected, for all threads to use, exactly if the
   failures of the other threads since it was looked up number 0 modulo n.
   */
  lemma WorkingParentIsSelectedWhen(threads: nat, n: nat, a: seq<Step>, t: nat, b: seq<Step>)
    requires n >= 1 && Between(b, t)
    requires Run(Initial(threads), n, a + [Choose(t)] + b + [Succeed(t)]).Some?
    ensures Run(Initial(threads), n, a).Some? && Run(Initial(threads), n, a + [Choose(t)] + b).Some?
    ensures var tried := Run(Initial(threads), n, a).value.current;
            var s := Run(Initial(threads), n, a + [Choose(t)] + b).value;
            && t < |s.threads| && s.threads[t].Trying? && s.threads[t].tried != []
            && s.threads[t].tried[|s.threads[t].tried| - 1] == tried
            && (Run(Initial(threads), n, a + [Choose(t)] + b + [Succeed(t)]).value.current == tried
                <==> OtherFails(b, t) % n == 0)
  {
    hide Run, Next, Inv;
    var s := Initial(threads);
    var both := a + [Choose(t)] + b;
    RunSplits(s, n, both, Succeed(t));
    RunBegins(s, n, a + [Choose(t)], b);
    RunSplits(s, n, a, Choose(t));
    OwnFailure(s, n, a, t, b);
    SucceedingThread(Run(s, n, both).value, n, t);
    StillTrying(s, n, a, t, b);
    FailuresSelect(threads, n, a);
    FailuresSelect(threads, n, both);
    EveryInterleavingSelectsAParent(threads, n, a, Choose(t));
    EveryInterleavingSelectsAParent(threads, n, both, Succeed(t));
    LookedUp(Run(s, n, a).value, n, t);
    SameRemainder(Fails(a), OtherFails(b, t), n);
  }

  lemma SucceedingThread(s: State, n: nat, t: nat)
    requires Next(s, n, Succeed(t)).Some?
    ensures t < |s.threads| && s.threads[t].Trying? && Next(s, n, Succeed(t)).value.current == s.current
  {
  }

  /** A thread that is still trying tries the parent it has looked up last. */
  lemma {:induction false} StillTrying(s: State, n: nat, a: seq<Step>, t: nat, b: seq<Step>)
    requires Run(s, n, a + [Choose(t)] + b).Some? && Between(b, t) && Run(s, n, a + [Choose(t)]).Some?
             && Run(s, n, a).Some?
    ensures var u := Run(s, n, a + [Choose(t)] + b).value;
            && t < |u.threads|
            && (u.threads[t].Trying? ==> u.threads[t].tried != []
                                         && u.threads[t].tried[|u.threads[t].tried| - 1] == Run(s, n, a).value.current)
    decreases |b|
  {
    var base := a + [Choose(t)];
    if b == [] {
      assert base + b == base;
      RunSplits(s, n, a, Choose(t));
    } else {
      var front, last := b[..|b| - 1], b[|b| - 1];
      assert base + b == base + front + [last] && b == front + [last];
      RunSplits(s, n, base + front, last);
      StillTrying(s, n, a, t, front);
    }
  }

  // ---------- whether a thread tries every parent ----------

  /** How many failures of any thread came before each lookup of a thread since it has entered. */
  function Counts(steps: seq<Step>, t: nat): seq<nat> {
    if steps == [] then []
    else
      var before, last := steps[..|steps| - 1], steps[|steps| - 1];
      if last == Enter(t) then []
      else if last == Choose(t) then Counts(before, t) + [Fails(before)]
      else Counts(before, t)
  }

  /** A thread has tried the parents that were selected at its lookups. */
  ghost predicate TriedAt(thread: Thread, n: nat, counts: seq<nat>)
    requires n >= 1
  {
    thread.Outside?
        || (|thread.tried| == |counts| && forall i :: 0 <= i < |counts| ==> thread.tried[i] == Position(counts[i], n))
  }

  lemma TriedStep(s: State, n: nat, step: Step, t: nat, counts: seq<nat>, fails: nat)
    requires n >= 1 && Next(s, n, step).Some? && t < |s.threads| && TriedAt(s.threads[t], n, counts)
    requires s.threads[t].Choosing? ==> s.current == Position(fails, n)
    ensures var counts' := if step == Enter(t) then [] else if step == Choose(t) then counts + [fails] else counts;
            TriedAt(Next(s, n, step).value.threads[t], n, counts')
  {
    hide Position;
  }

  lemma {:induction false} TriedIsKept(threads: nat, n: nat, steps: seq<Step>, t: nat)
    requires n >= 1 && t < threads
    ensures match Run(Initial(threads), n, steps)
            case Some(s) => t < |s.threads| && TriedAt(s.threads[t], n, Counts(steps, t))
            case None => true
  {
    hide Next, TriedAt, Position;
    if steps == [] {
      NothingTried(threads, n, t);
    } else {
      var before := steps[..|steps| - 1];
      TriedIsKept(threads, n, before, t);
      RunKeepsInv(threads, n, before);
      RunKeepsInv(threads, n, steps);
      FailuresSelect(threads, n, before);
      match Run(Initial(threads), n, before)
      case Some(s) =>
        if Next(s, n, steps[|steps| - 1]).Some? {
          TriedStep(s, n, steps[|steps| - 1], t, Counts(before, t), Fails(before));
        }
      case None =>
    }
  }

  lemma NothingTried(threads: nat, n: nat, t: nat)
    requires n >= 1 && t < threads
    ensures TriedAt(Initial(threads).threads[t], n, [])
  {
  }

  predicate Distinct(s: seq<nat>) {
    forall i, j :: 0 <= i < j < |s| ==> s[i] != s[j]
  }

  predicate Everyone(s: seq<nat>, n: nat) {
    forall p :: 1 <= p <= n ==> p in s
  }

  function Elements(s: seq<nat>): (e: set<nat>)
    ensures forall p :: p in e <==> p in s
  {
    if s == [] then {} else Elements(s[..|s| - 1]) + {s[|s| - 1]}
  }

  lemma DistinctLast(front: seq<nat>, last: nat)
    ensures Distinct(front + [last]) <==> Distinct(front) && last !in front
  {
    var s := front + [last];
    assert s[|front|] == last && forall i :: 0 <= i < |front| ==> s[i] == front[i];
  }

  lemma {:induction false} DistinctWhen(s: seq<nat>)
    ensures |Elements(s)| <= |s| && (|Elements(s)| == |s| <==> Distinct(s))
  {
    if s != [] {
      hide Distinct;
      var front, last := s[..|s| - 1], s[|s| - 1];
      assert s == front + [last];
      DistinctWhen(front);
      DistinctLast(front, last);
    }
  }

  function UpTo(n: nat): (r: set<nat>)
    ensures |r| == n && forall p :: p in r <==> 1 <= p <= n
  {
    if n == 0 then {} else UpTo(n - 1) + {n}
  }

  lemma SameSize(a: set<nat>, b: set<nat>)
    requires a <= b && |a| == |b|
    ensures a == b
  {
    assert b == a + (b - a);
    assert |b| == |a| + |b - a|;
  }

  /** n numbers up to n are all numbers up to n exactly if no two of them are the same. */
  lemma AllWhenDistinct(s: seq<nat>, n: nat)
    requires |s| == n && forall i :: 0 <= i < n ==> 1 <= s[i] <= n
    ensures Everyone(s, n) <==> Distinct(s)
  {
    hide Distinct;
    DistinctWhen(s);
    assert Elements(s) <= UpTo(n);
    if Everyone(s, n) {
      assert Elements(s) == UpTo(n);
    } else if |Elements(s)| == n {
      SameSize(Elements(s), UpTo(n));
    }
  }

  /**
   A thread that gives up has tried every parent exactly if no two of its lookups came after numbers of failures, of
   all threads together, that are the same modulo n.
   */
  lemma GivesUpAfterAllWhen(threads: nat, n: nat, steps: seq<Step>, t: nat)
    requires n >= 1 && t < threads && Run(Initial(threads), n, steps + [Fail(t)]).Some?
    requires Run(Initial(threads), n, steps + [Fail(t)]).value.threads[t].Outside?
    ensures var counts := Counts(steps, t);
            && |counts| == n && Run(Initial(threads), n, steps).Some?
            && Run(Initial(threads), n, steps).value.threads[t].Trying?
            && (Everyone(Run(Initial(threads), n, steps).value.threads[t].tried, n)
                <==> forall i, j :: 0 <= i < j < n ==> counts[i] % n != counts[j] % n)
  {
    hide Run, Everyone;
    RunSplits(Initial(threads), n, steps, Fail(t));
    RunKeepsInv(threads, n, steps);
    TriedIsKept(threads, n, steps, t);
    var s := Run(Initial(threads), n, steps).value;
    GivingUp(s, n, t);
    AllWhenDistinct(s.threads[t].tried, n);
  }

  lemma GivingUp(s: State, n: nat, t: nat)
    requires t < |s.threads| && Inv(s, n)
    requires Next(s, n, Fail(t)).Some? && Next(s, n, Fail(t)).value.threads[t].Outside?
    ensures s.threads[t].Trying? && |s.threads[t].tried| == n && ThreadInv(s.threads[t], n)
  {
  }

  const OVERTAKING: seq<Step> := [Enter(0), Enter(1), Choose(0), Choose(1), Fail(1), Fail(0), Choose(0), Fail(0)]

  /** The state after one more step, given what it makes of the threads. */
  lemma OneStep(steps: seq<Step>, i: nat, s: State, step: Step, next: State)
    requires i < |steps| && steps[i] == step && Run(Initial(2), 2, steps[..i]) == Some(s) && Next(s, 2, step).Some?
    requires Next(s, 2, step).value.current == next.current && Next(s, 2, step).value.threads == next.threads
    ensures Run(Initial(2), 2, steps[..i + 1]) == Some(next)
  {
    assert steps[..i + 1][..i] == steps[..i];
  }

  lemma BothFail()
    ensures Run(Initial(2), 2, OVERTAKING[..6]) == Some(State(1, [Choosing([1]), Choosing([1])]))
  {
    hide Run;
    var none: seq<nat>, once: seq<nat> := [], [1];
    assert none + [1] == once;
    Start(OVERTAKING);
    OneStep(OVERTAKING, 0, State(0, [Outside, Outside]), Enter(0), State(1, [Choosing(none), Outside]));
    OneStep(OVERTAKING, 1, State(1, [Choosing(none), Outside]), Enter(1), State(1, [Choosing(none), Choosing(none)]));
    OneStep(OVERTAKING, 2, State(1, [Choosing(none), Choosing(none)]), Choose(0),
            State(1, [Trying(once), Choosing(none)]));
    OneStep(OVERTAKING, 3, State(1, [Trying(once), Choosing(none)]), Choose(1), State(1, [Trying(once), Trying(once)]));
    OneStep(OVERTAKING, 4, State(1, [Trying(once), Trying(once)]), Fail(1), State(2, [Trying(once), Choosing(once)]));
    OneStep(OVERTAKING, 5, State(2, [Trying(once), Choosing(once)]), Fail(0),
            State(1, [Choosing(once), Choosing(once)]));
  }

  lemma Start(steps: seq<Step>)
    ensures Run(Initial(2), 2, steps[..0]) == Some(State(0, [Outside, Outside]))
  {
    assert seq(2, _ => Outside) == [Outside, Outside];
  }

  /** A run of two threads and two parents in which one tries the first parent twice, never the second, and gives up. */
  lemma ThreadsCanOvertake()
    ensures Run(Initial(2), 2, OVERTAKING[..7]) == Some(State(1, [Trying([1, 1]), Choosing([1])]))
    ensures Run(Initial(2), 2, OVERTAKING) == Some(State(2, [Outside, Choosing([1])]))
  {
    hide Run;
    BothFail();
    var once: seq<nat>, twice: seq<nat> := [1], [1, 1];
    assert once + [1] == twice;
    OneStep(OVERTAKING, 6, State(1, [Choosing(once), Choosing(once)]), Choose(0),
            State(1, [Trying(twice), Choosing(once)]));
    OneStep(OVERTAKING, 7, State(1, [Trying(twice), Choosing(once)]), Fail(0), State(2, [Outside, Choosing(once)]));
    assert OVERTAKING[..8] == OVERTAKING;
  }

  // ---------- one thread on its own ----------

  /** What one call does when its first attempts fail: it enters, and looks up and fails over and over. */
  function Alone(t: nat, failures: nat): seq<Step> {
    if failures == 0 then [Enter(t)] else Alone(t, failures - 1) + [Choose(t), Fail(t)]
  }

  function FirstTried(start: nat, n: nat, k: nat): (tried: seq<nat>)
    requires 1 <= start <= n
    ensures |tried| == k
  {
    seq(k, i requires 0 <= i < k => Nth(start, n, i))
  }

  lemma TwoMore(s: State, n: nat, steps: seq<Step>, a: Step, b: Step)
    requires Run(s, n, steps).Some? && Next(Run(s, n, steps).value, n, a).Some?
    ensures Run(s, n, steps + [a, b]) == Next(Next(Run(s, n, steps).value, n, a).value, n, b)
  {
    hide Next;
    assert (steps + [a, b])[..|steps| + 1] == steps + [a];
    assert (steps + [a])[..|steps|] == steps;
  }

  /**
   The steps of a thread that nobody disturbs are those of TryParents: after k failures the k-th parent in the circle
   is selected, and the parents before it are the ones tried.
   */
  lemma {:induction false} AloneIsTryParents(s: State, n: nat, t: nat, failures: nat)
    requires t < |s.threads| && s.threads[t].Outside? && s.current <= n && 1 <= n && failures <= n
    ensures var r, start := Run(s, n, Alone(t, failures)), Entered(s.current);
            && r.Some? && r.value.current == Nth(start, n, failures)
            && r.value.threads
                == s.threads[t := if failures < n then Choosing(FirstTried(start, n, failures)) else Outside]
  {
    hide Run;
    var start := Entered(s.current);
    if failures == 0 {
      OnlyStep(s, n, Enter(t));
      assert FirstTried(start, n, 0) == [];
    } else {
      AloneIsTryParents(s, n, t, failures - 1);
      var before := Run(s, n, Alone(t, failures - 1)).value;
      assert FirstTried(start, n, failures - 1) + [Nth(start, n, failures - 1)] == FirstTried(start, n, failures);
      TwoMore(s, n, Alone(t, failures - 1), Choose(t), Fail(t));
    }
  }

  lemma OnlyStep(s: State, n: nat, step: Step)
    ensures Run(s, n, [step]) == Next(s, n, step)
  {
    hide Next;
    assert [step][..0] == [];
  }
}
