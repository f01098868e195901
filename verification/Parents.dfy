/** The list of parent proxies and proxy_connect of cntlm-0.92.3/forward.c: one call on its own. */
module Parents {
  import opened Plist

  /** proxy_t, as far as proxy_connect uses it. */
  class Proxy {
    const hostname: string
    const port: int
    var resolved: bool

    constructor (hostname: string, port: int)
      ensures this.hostname == hostname && this.port == port && !resolved
    {
      this.hostname, this.port, resolved := hostname, port, false;
    }
  }

  /** parent_curr after the first critical section of proxy_connect. */
  function Entered(current: nat): nat {
    if current == 0 then current + 1 else current
  }

  /** parent_curr after the critical section that follows a failure. */
  function Advanced(current: nat, n: nat): nat {
    (if current >= n then 0 else current) + 1
  }

  /** The parent after number p of n, in a circle. */
  function After(p: nat, n: nat): (next: nat)
    requires 1 <= p <= n
    ensures 1 <= next <= n
  {
    Advanced(p, n)
  }

  /** The parent reached from p after a number of failures. */
  function Nth(p: nat, n: nat, failures: nat): (q: nat)
    requires 1 <= p <= n
    ensures 1 <= q <= n
  {
    if failures == 0 then p else After(Nth(p, n, failures - 1), n)
  }

  lemma {:induction false} NthInRound(p: nat, n: nat, failures: nat)
    requires 1 <= p <= n && failures <= n
    ensures Nth(p, n, failures) == if p + failures <= n then p + failures else p + failures - n
  {
    if failures > 0 {
      NthInRound(p, n, failures - 1);
    }
  }

  /** How often the attempt must fail before it is the turn of a parent. */
  function Distance(p: nat, n: nat, q: nat): nat
    requires 1 <= p <= n && 1 <= q <= n
  {
    if q >= p then q - p else q + n - p
  }

  /** In one round no parent comes up twice, every parent comes up, and after the round the first is next again. */
  lemma OneRound(p: nat, n: nat)
    requires 1 <= p <= n
    ensures forall i, j | 0 <= i < j < n :: Nth(p, n, i) != Nth(p, n, j)
    ensures forall q | 1 <= q <= n :: Distance(p, n, q) < n && Nth(p, n, Distance(p, n, q)) == q
    ensures Nth(p, n, n) == p
  {
    forall i: nat | i <= n
      ensures Nth(p, n, i) == if p + i <= n then p + i else p + i - n
    {
      NthInRound(p, n, i);
    }
  }

  /** What the name service and the network answer to the k-th attempt of one call. */
  datatype Network = Network(resolve: nat -> bool, connect: nat -> int)

  /** Whose address has been found. */
  function Resolved(proxies: seq<Proxy>): (known: seq<bool>)
    reads proxies
    ensures |known| == |proxies|
  {
    seq(|proxies|, i requires 0 <= i < |proxies| reads proxies => proxies[i].resolved)
  }

  /** parent_list, parent_count and parent_curr. */
  class ParentList {
    var list: Node?<Proxy>
    var count: nat
    var current: nat
    ghost var nodes: seq<Node<Proxy>>
    ghost var proxies: seq<Proxy>

    /** The numbers from 1 to the count stand for the proxies, each for its own. */
    ghost predicate Valid()
      reads this, nodes
    {
      && IsList(list, nodes)
      && |nodes| == |proxies| == count && current <= count
      && Items(nodes) == Numbered(proxies)
      && (forall i, j :: 0 <= i < j < count ==> proxies[i] != proxies[j])
    }

    lemma Sizes()
      requires Valid()
      ensures |proxies| == count && current <= count
    {
    }

    constructor ()
      ensures Valid() && count == 0 && current == 0
    {
      list, count, current, nodes, proxies := null, 0, 0, [], [];
    }

    /** parent_add with a well-formed name and port; the name has to fit 64 bytes with its terminator. */
    method Add(hostname: string, port: int) returns (aux: Proxy)
      requires Valid()
      modifies this, nodes
      ensures Valid() && current == old(current)
      ensures fresh(aux) && !aux.resolved && aux.port == port
      ensures aux.hostname == if |hostname| < 64 then hostname else hostname[..63]
      ensures proxies == old(proxies) + [aux]
    {
      hide Numbered, Items, IsList;
      aux := new Proxy(if |hostname| < 64 then hostname else hostname[..63], port);
      count := count + 1;
      list, nodes := PlistAdd(list, count, aux, nodes);
      NumberedAppends(proxies, aux);
      proxies := proxies + [aux];
    }

    /** plist_get(parent_list, parent_curr): there is such a proxy. */
    method Fetch() returns (aux: Proxy)
      requires Valid() && 1 <= current <= count
      ensures aux == proxies[current - 1]
    {
      var found := PlistGet(list, current, nodes);
      forall i | 0 <= i < count
        ensures nodes[i].key == i + 1 && nodes[i].aux == proxies[i]
      {
        assert Items(nodes)[i] == Numbered(proxies)[i];
      }
      assert nodes[current - 1].key == current;
      aux := found.value;
    }

    /** The first critical section of proxy_connect: make sure that some parent is selected. */
    method Enter()
      requires Valid() && count >= 1
      modifies this`current
      ensures Valid() && current == Entered(old(current)) && 1 <= current <= count
    {
      if current == 0 {
        current := current + 1;
        var aux := Fetch();
      }
    }

    /** The critical section after a failure: select the next parent. */
    method Advance()
      requires Valid() && 1 <= current <= count
      modifies this`current
      ensures Valid() && current == After(old(current), count)
    {
      if current >= count {
        current := 0;
      }
      current := current + 1;
      var aux := Fetch();
    }

    /** Try the selected parent: resolve its name unless that is done, and connect. */
    method Attempt(net: Network, loop: nat) returns (i: int)
      requires Valid() && 1 <= current <= count
      modifies proxies
      ensures Valid()
      ensures Resolved(proxies) == Look(old(Resolved(proxies)), current, net.resolve(loop))
      ensures i == if Resolved(proxies)[current - 1] then net.connect(loop) else 0
    {
      var aux := Fetch();
      if !aux.resolved {
        if net.resolve(loop) {
          aux.resolved := true;
        }
      }
      i := 0;
      if aux.resolved {
        i := net.connect(loop);
      }
    }
  }

  /** Looking up the address of parent p: it may be found now if it is not known yet. */
  function Look(known: seq<bool>, p: nat, found: bool): seq<bool>
    requires 1 <= p <= |known|
  {
    known[p - 1 := known[p - 1] || found]
  }

  function Numbered<T>(items: seq<T>): seq<Item<T>> {
    seq(|items|, i requires 0 <= i < |items| => Item(i + 1, items[i]))
  }

  lemma NumberedAppends<T>(items: seq<T>, item: T)
    ensures Numbered(items + [item]) == Numbered(items) + [Item(|items| + 1, item)]
  {
  }

  // ---------- proxy_connect ----------

  /** The k-th attempt of a call leads to a connection; known says whose address had been found before the call. */
  predicate Works(known: seq<bool>, start: nat, net: Network, k: nat)
    requires 1 <= start <= |known|
  {
    (known[Nth(start, |known|, k) - 1] || net.resolve(k)) && net.connect(k) > 0
  }

  /** Whose address is known after some attempts. */
  function KnownAfter(known: seq<bool>, start: nat, net: Network, attempts: nat): (k: seq<bool>)
    requires 1 <= start <= |known|
    ensures |k| == |known|
  {
    if attempts == 0 then known
    else Look(KnownAfter(known, start, net, attempts - 1), Nth(start, |known|, attempts - 1), net.resolve(attempts - 1))
  }

  /** An address is looked up at most once: at the attempt that reaches its parent. */
  lemma {:induction false} KnownAfterAttempts(known: seq<bool>, start: nat, net: Network, attempts: nat, j: nat)
    requires 1 <= start <= |known| && attempts <= |known| && j < |known|
    ensures var p := Nth(start, |known|, j) - 1;
            KnownAfter(known, start, net, attempts)[p] == (known[p] || (j < attempts && net.resolve(j)))
  {
    if attempts > 0 {
      KnownAfterAttempts(known, start, net, attempts - 1, j);
      OneRound(start, |known|);
    }
  }

  /** How many attempts of a call fail before the first that works; all of them at most. */
  function Failures(known: seq<bool>, start: nat, net: Network, from: nat): (k: nat)
    requires 1 <= start <= |known| && from <= |known|
    ensures from <= k <= |known|
    ensures forall j | from <= j < k :: !Works(known, start, net, j)
    ensures k < |known| ==> Works(known, start, net, k)
    decreases |known| - from
  {
    if from == |known| || Works(known, start, net, from) then from else Failures(known, start, net, from + 1)
  }

  /** An attempt within the round is the one that works if and only if as many have failed before it. */
  lemma FailsBefore(known: seq<bool>, start: nat, net: Network, attempt: nat)
    requires 1 <= start <= |known| && attempt < |known| && attempt <= Failures(known, start, net, 0)
    ensures Works(known, start, net, attempt) <==> attempt == Failures(known, start, net, 0)
    ensures Failures(known, start, net, 0) <= |known|
  {
  }

  /** The attempt with a number looks up the address of its parent and connects. */
  lemma AttemptStep(known: seq<bool>, start: nat, net: Network, attempt: nat)
    requires 1 <= start <= |known| && attempt < |known|
    ensures KnownAfter(known, start, net, attempt + 1)
            == Look(KnownAfter(known, start, net, attempt), Nth(start, |known|, attempt), net.resolve(attempt))
    ensures Works(known, start, net, attempt)
            <==> (KnownAfter(known, start, net, attempt + 1)[Nth(start, |known|, attempt) - 1]
                  && net.connect(attempt) > 0)
    ensures Nth(start, |known|, attempt + 1) == After(Nth(start, |known|, attempt), |known|)
  {
    KnownAfterAttempts(known, start, net, attempt + 1, attempt);
  }

  /** Close what is in the connection list; the entries are freed, and the list head is left as it is. */
  method CloseCached<T>(list: Node?<T>, ghost nodes: seq<Node<T>>) returns (closedFds: seq<int>)
    requires IsList(list, nodes)
    ensures closedFds == Keys(Items(nodes))
  {
    closedFds := [];
    var t := list;
    ghost var i := 0;
    while t != null
      invariant 0 <= i <= |nodes| && t == if i < |nodes| then nodes[i] else null
      invariant closedFds == Keys(Items(nodes)[..i])
      decreases |nodes| - i
    {
      closedFds := closedFds + [t.key];
      t := t.next;
      i := i + 1;
    }
    assert Items(nodes)[..i] == Items(nodes);
  }

  /** The result of an attempt that fails is 0 when the name was not resolved, and otherwise what connecting gave. */
  function LastResult(known: seq<bool>, start: nat, net: Network): int
    requires 1 <= start <= |known|
  {
    var n := |known|;
    if KnownAfter(known, start, net, n)[Nth(start, n, n - 1) - 1] then net.connect(n - 1) else 0
  }

  lemma NothingTried(known: seq<bool>, start: nat, net: Network)
    requires 1 <= start <= |known|
    ensures KnownAfter(known, start, net, 0) == known && Nth(start, |known|, 0) == start
    ensures Failures(known, start, net, 0) <= |known|
  {
  }

  lemma AllFailed(known: seq<bool>, start: nat, net: Network)
    requires 1 <= start <= |known|
    ensures LastResult(known, start, net)
            == if KnownAfter(known, start, net, |known|)[Nth(start, |known|, |known| - 1) - 1]
               then net.connect(|known| - 1) else 0
  {
  }

  /** The loop of proxy_connect. */
  method TryParents(parents: ParentList, net: Network) returns (i: int)
    requires parents.Valid() && 1 <= parents.current <= parents.count
    modifies parents`current, parents.proxies
    ensures parents.Valid()
    ensures var start, known := old(parents.current), old(Resolved(parents.proxies));
            var n, k := parents.count, Failures(known, start, net, 0);
            && parents.current == Nth(start, n, k)
            && i == (if k < n then net.connect(k) else LastResult(known, start, net))
            && (i > 0 <==> k < n)
            && Resolved(parents.proxies) == KnownAfter(known, start, net, if k < n then k + 1 else n)
  {
    hide *;
    parents.Sizes();
    ghost var start, n, known := parents.current, parents.count, Resolved(parents.proxies);
    ghost var k := Failures(known, start, net, 0);
    NothingTried(known, start, net);
    var loop: nat := 0;
    i := 0;
    while true
      invariant parents.Valid()
      invariant loop < n && loop <= k && parents.current == Nth(start, n, loop)
      invariant Resolved(parents.proxies) == KnownAfter(known, start, net, loop)
      decreases n - loop
    {
      i := parents.Attempt(net, loop);
      AttemptStep(known, start, net, loop);
      FailsBefore(known, start, net, loop);
      if i <= 0 {
        parents.Advance();
      }
      if i > 0 { break; }
      loop := loop + 1;
      if loop >= parents.count { break; }
    }
    if i <= 0 {
      AllFailed(known, start, net);
    }
  }

  /**
   proxy_connect: the parents are tried in a circle beginning with the selected one, none of them twice, up to the
   first that answers, which stays selected. When none answers the selection is where it was, and the
   result is not positive; it is 0 if the last name tried was not resolved. The names resolved stay resolved. Cached
   connections are closed if the selection has changed.
   */
  method ProxyConnect<T>(parents: ParentList, cache: ConnectionCache<T>, net: Network)
      returns (i: int, closedFds: seq<int>)
    requires parents.Valid() && cache.Valid() && parents.count >= 1
    modifies parents`current, parents.proxies
    ensures parents.Valid()
    ensures var start := Entered(old(parents.current));
            var known := old(Resolved(parents.proxies));
            var n, k := parents.count, Failures(known, start, net, 0);
            && (k < n ==> i == net.connect(k) > 0 && parents.current == Nth(start, n, k))
            && (k == n ==> i == LastResult(known, start, net) <= 0 && parents.current == start)
            && Resolved(parents.proxies) == KnownAfter(known, start, net, if k < n then k + 1 else n)
    ensures closedFds == if old(parents.current) != parents.current then Keys(Items(cache.nodes)) else []
  {
    hide ParentList.Valid, IsList, Failures, KnownAfter, LastResult;
    parents.Sizes();
    var prev := parents.current;
    parents.Enter();
    OneRound(parents.current, parents.count);
    i := TryParents(parents, net);
    closedFds := [];
    if prev != parents.current {
      closedFds := CloseCached(cache.head, cache.nodes);
    }
  }
}
