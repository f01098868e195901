/**
 The singly linked lists of cntlm-0.92.3/utils.c that hold cached connections, parent
 proxies and access rules, and the queue discipline of the connection cache.
 */
module Plist {
  import opened Options

  /** struct plist_s */
  class Node<T> {
    var key: int
    var aux: T
    var next: Node?<T>

    constructor (key: int, aux: T)
      ensures this.key == key && this.aux == aux && next == null
    {
      this.key, this.aux, next := key, aux, null;
    }
  }

  datatype Item<T> = Item(key: int, aux: T)

  /** The nodes, in order, are the list that starts at head. */
  ghost predicate IsList<T>(head: Node?<T>, nodes: seq<Node<T>>)
    reads nodes
  {
    && head == (if nodes == [] then null else nodes[0])
    && (forall i {:trigger nodes[i].next} :: 0 <= i < |nodes| ==>
          nodes[i].next == if i + 1 < |nodes| then nodes[i + 1] else null)
    && (forall i, j :: 0 <= i < j < |nodes| ==> nodes[i] != nodes[j])
  }

  ghost function Items<T>(nodes: seq<Node<T>>): (items: seq<Item<T>>)
    reads nodes
    ensures |items| == |nodes|
    ensures forall i {:trigger items[i]} :: 0 <= i < |items| ==> items[i] == Item(nodes[i].key, nodes[i].aux)
  {
    seq(|nodes|, i requires 0 <= i < |nodes| reads nodes => Item(nodes[i].key, nodes[i].aux))
  }

  /** plist_add: append at the end. */
  method PlistAdd<T>(list: Node?<T>, key: int, aux: T, ghost nodes: seq<Node<T>>)
    returns (head: Node<T>, ghost nodes': seq<Node<T>>)
    requires IsList(list, nodes)
    modifies nodes
    ensures IsList(head, nodes')
    ensures |nodes'| == |nodes| + 1 && nodes' == nodes + [nodes'[|nodes|]] && fresh(nodes'[|nodes|])
    ensures Items(nodes') == old(Items(nodes)) + [Item(key, aux)]
  {
    var tmp := new Node(key, aux);
    nodes' := nodes + [tmp];
    if list == null {
      return tmp, nodes';
    }
    var t: Node<T> := list;
    ghost var i := 0;
    while t.next != null
      invariant 0 <= i < |nodes| && t == nodes[i]
      decreases |nodes| - i
    {
      t := t.next;
      i := i + 1;
    }
    t.next := tmp;
    head := list;
  }

  /** plist_get: what is stored under the first entry with the key. */
  method PlistGet<T>(list: Node?<T>, key: int, ghost nodes: seq<Node<T>>) returns (aux: Option<T>)
    requires IsList(list, nodes)
    ensures match aux
            case Some(a) => exists i :: 0 <= i < |nodes| && nodes[i].key == key && a == nodes[i].aux
                                        && forall j :: 0 <= j < i ==> nodes[j].key != key
            case None => forall i :: 0 <= i < |nodes| ==> nodes[i].key != key
  {
    var t := list;
    ghost var i := 0;
    while t != null
      invariant 0 <= i <= |nodes| && t == if i < |nodes| then nodes[i] else null
      invariant forall j :: 0 <= j < i ==> nodes[j].key != key
      decreases |nodes| - i
    {
      if t.key == key {
        return Some(t.aux);
      }
      t := t.next;
      i := i + 1;
    }
    aux := None;
  }

  // ---------- taking connections out of the cache ----------

  /** The first entry whose descriptor is found open, when the entry at position i is found closed iff closed(i). */
  function FirstOpen(n: nat, closed: nat -> bool, from: nat): (k: nat)
    requires from <= n
    ensures from <= k <= n
    ensures forall i :: from <= i < k ==> closed(i)
    ensures k < n ==> !closed(k)
    decreases n - from
  {
    if from == n || !closed(from) then from else FirstOpen(n, closed, from + 1)
  }

  function Keys<T>(items: seq<Item<T>>): (keys: seq<int>)
    ensures |keys| == |items|
  {
    seq(|items|, i requires 0 <= i < |items| => items[i].key)
  }

  /**
   What taking a connection out of a queue gives: descriptor, credentials, the descriptors closed, and the rest of the
   queue.
   */
  function TakeFrom<T>(queue: seq<Item<T>>, closed: nat -> bool): (int, Option<T>, seq<int>, seq<Item<T>>) {
    var k := FirstOpen(|queue|, closed, 0);
    if k < |queue| then (queue[k].key, Some(queue[k].aux), Keys(queue[..k]), queue[k + 1..])
    else (0, None, Keys(queue[..k]), [])
  }

  /** plist_pop: unlink entries until an open descriptor is found; closedFds are those passed to close(). */
  method PlistPop<T>(list: Node?<T>, closed: nat -> bool, ghost nodes: seq<Node<T>>)
    returns (id: int, aux: Option<T>, rest: Node?<T>, closedFds: seq<int>, ghost nodes': seq<Node<T>>)
    requires IsList(list, nodes)
    ensures IsList(rest, nodes')
    ensures id == TakeFrom(Items(nodes), closed).0
    ensures aux == TakeFrom(Items(nodes), closed).1
    ensures closedFds == TakeFrom(Items(nodes), closed).2
    ensures Items(nodes') == TakeFrom(Items(nodes), closed).3 && nodes' == nodes[|nodes| - |nodes'|..]
  {
    closedFds := [];
    aux := None;
    id := 0;
    var t := list;
    ghost var i, k := 0, FirstOpen(|nodes|, closed, 0);
    var probe: nat := 0;
    var ok := false;
    while !ok && t != null
      invariant 0 <= i <= |nodes| && t == if i < |nodes| then nodes[i] else null
      invariant if ok then i == k + 1 && id == nodes[k].key && aux == Some(nodes[k].aux)
                else i <= k && probe == i && aux == None
      invariant closedFds == Keys(Items(nodes)[..if ok then k else i])
      decreases |nodes| - i
    {
      id := t.key;
      if closed(probe) {
        closedFds := closedFds + [id];
      } else {
        ok := true;
        aux := Some(t.aux);
      }
      probe := probe + 1;
      t := t.next;
      i := i + 1;
    }
    rest := t;
    nodes' := nodes[i..];
    if !ok {
      id := 0;
    }
  }

  // ---------- the connection cache ----------

  /** connection_list: the list head, and the descriptors closed while looking for an open one. */
  class ConnectionCache<T> {
    var head: Node?<T>
    ghost var nodes: seq<Node<T>>

    ghost predicate Valid()
      reads this, nodes
    {
      IsList(head, nodes)
    }

    ghost function Queue(): seq<Item<T>>
      reads this, nodes
    {
      Items(nodes)
    }

    constructor ()
      ensures Valid() && Queue() == [] && nodes == []
    {
      head, nodes := null, [];
    }

    method Store(fd: int, aux: T)
      requires Valid()
      modifies this, nodes
      ensures Valid() && Queue() == old(Queue()) + [Item(fd, aux)]
      ensures forall n :: n in nodes ==> n in old(nodes) || fresh(n)
    {
      head, nodes := PlistAdd(head, fd, aux, nodes);
    }

    method Take(closed: nat -> bool) returns (id: int, aux: Option<T>, closedFds: seq<int>)
      requires Valid()
      modifies this
      ensures Valid()
      ensures (id, aux, closedFds, Queue()) == TakeFrom(old(Queue()), closed)
      ensures forall n :: n in nodes ==> n in old(nodes)
    {
      ghost var queue := Queue();
      id, aux, head, closedFds, nodes := PlistPop(head, closed, nodes);
      assert Queue() == queue[|queue| - |nodes|..];
    }
  }

  // ---------- every run of the cache ----------

  datatype Event<T> = Stored(item: Item<T>) | Taken(closed: nat -> bool)

  datatype Fate<T> = HandedOut(item: Item<T>) | Closed(fd: int)

  /** The cache together with everything that has ever been put in and everything that has left it, in order. */
  datatype History<T> = History(queue: seq<Item<T>>, stored: seq<Item<T>>, left: seq<Fate<T>>)

  function ClosedAll<T>(fds: seq<int>): seq<Fate<T>> {
    seq(|fds|, i requires 0 <= i < |fds| => Closed(fds[i]))
  }

  /** What becomes of the entries that one taking removes from the front of the queue. */
  function Fates<T>(queue: seq<Item<T>>, closed: nat -> bool): seq<Fate<T>> {
    var (id, aux, closedFds, rest) := TakeFrom(queue, closed);
    ClosedAll(closedFds) + match aux case Some(a) => [HandedOut(Item(id, a))] case None => []
  }

  function Next<T>(h: History<T>, e: Event<T>): History<T> {
    match e
    case Stored(item) => History(h.queue + [item], h.stored + [item], h.left)
    case Taken(closed) => History(TakeFrom(h.queue, closed).3, h.stored, h.left + Fates(h.queue, closed))
  }

  function Run<T>(events: seq<Event<T>>): History<T> {
    if events == [] then History([], [], []) else Next(Run(events[..|events| - 1]), events[|events| - 1])
  }

  function Descriptor<T>(f: Fate<T>): int {
    match f case HandedOut(item) => item.key case Closed(fd) => fd
  }

  function Descriptors<T>(fates: seq<Fate<T>>): seq<int> {
    seq(|fates|, i requires 0 <= i < |fates| => Descriptor(fates[i]))
  }

  /**
   First in, first out: whatever was stored, in the order it was stored, has either left the cache, in that
   same order and exactly once, handed out or closed, or still waits in it. What is handed out has its own credentials.
   */
  ghost predicate Fifo<T>(h: History<T>) {
    && |h.left| + |h.queue| == |h.stored|
    && h.queue == h.stored[|h.left|..]
    && Descriptors(h.left) == Keys(h.stored[..|h.left|])
    && (forall i :: 0 <= i < |h.left| && h.left[i].HandedOut? ==> h.left[i].item == h.stored[i])
  }

  lemma FatesInOrder<T>(queue: seq<Item<T>>, closed: nat -> bool)
    ensures var fates := Fates(queue, closed);
            && |fates| <= |queue| && TakeFrom(queue, closed).3 == queue[|fates|..]
            && (forall i :: 0 <= i < |fates| ==> Descriptor(fates[i]) == queue[i].key)
            && (forall i :: 0 <= i < |fates| && fates[i].HandedOut? ==> fates[i].item == queue[i])
  {
  }

  lemma TakingKeepsFifo<T>(h: History<T>, closed: nat -> bool)
    requires Fifo(h)
    ensures Fifo(Next(h, Taken(closed)))
  {
    hide TakeFrom, Fates;
    var fates, n := Fates(h.queue, closed), |h.left|;
    FatesInOrder(h.queue, closed);
    forall i | 0 <= i < n + |fates|
      ensures Descriptor((h.left + fates)[i]) == h.stored[i].key
    {
      if i < n {
        assert Descriptors(h.left)[i] == Keys(h.stored[..n])[i];
      }
    }
  }

  lemma {:induction false} EveryRunIsFifo<T>(events: seq<Event<T>>)
    ensures Fifo(Run(events))
  {
    if events != [] {
      var before, e := events[..|events| - 1], events[|events| - 1];
      EveryRunIsFifo(before);
      match e
      case Stored(item) =>
        var h := Run(before);
        assert (h.stored + [item])[..|h.left|] == h.stored[..|h.left|];
      case Taken(closed) =>
        TakingKeepsFifo(Run(before), closed);
    }
  }
}
