/**
 The binary heap of the transfer queue (src/core/QueueManager.ts, 61-99), and the queue it stands
 for: the waiting items, higher priorities first, equal priorities in the order they were accepted.
 */
module Heaps {
  import opened Names

  datatype Peer = Broadcast | To(id: Name)

  /** `number` (the counter `seq`) is given when the item is first accepted, and identifies it; an empty id
      stands for none. */
  datatype Item = Item(number: nat, id: Name, peer: Peer, priority: int, retries: nat)

  predicate Precedes(a: Item, b: Item) {
    if a.priority != b.priority then a.priority > b.priority else a.number < b.number
  }

  function ParentOf(i: nat): nat
    requires i > 0
  {
    (i - 1) / 2
  }

  predicate Above(h: seq<Item>, i: nat)
    requires 0 < i < |h|
  {
    !Precedes(h[i], h[ParentOf(i)])
  }

  /** No item precedes its parent. */
  ghost predicate HeapOrdered(h: seq<Item>) {
    forall i | 0 < i < |h| :: Above(h, i)
  }

  /** Heap order except at `i`, which may precede its parent; its children do not. */
  ghost predicate SiftingUp(h: seq<Item>, i: nat) {
    && (forall k | 0 < k < |h| && k != i :: Above(h, k))
    && forall k | 0 < k < |h| && ParentOf(k) == i && i > 0 :: !Precedes(h[k], h[ParentOf(i)])
  }

  /** Heap order except below `i`, which its children may precede; they do not precede its parent. */
  ghost predicate SiftingDown(h: seq<Item>, i: nat) {
    && (forall k | 0 < k < |h| && ParentOf(k) != i :: Above(h, k))
    && forall k | 0 < k < |h| && ParentOf(k) == i && i > 0 :: !Precedes(h[k], h[ParentOf(i)])
  }

  function Swapped(h: seq<Item>, i: nat, j: nat): seq<Item>
    requires i < |h| && j < |h|
  {
    h[i := h[j]][j := h[i]]
  }

  lemma SwapKeepsItems(h: seq<Item>, i: nat, j: nat)
    requires i < |h| && j < |h|
    ensures multiset(Swapped(h, i, j)) == multiset(h)
  {}

  lemma PrecedesTransitive(a: Item, b: Item, c: Item)
    ensures !Precedes(a, b) && !Precedes(b, c) ==> !Precedes(a, c)
    ensures Precedes(a, b) && !Precedes(c, b) ==> Precedes(a, c)
  {}

  lemma SiftUpStep(h: seq<Item>, i: nat)
    requires 0 < i < |h| && SiftingUp(h, i) && Precedes(h[i], h[ParentOf(i)])
    ensures SiftingUp(Swapped(h, i, ParentOf(i)), ParentOf(i))
  {
    var p, g := ParentOf(i), Swapped(h, i, ParentOf(i));
    forall k | 0 < k < |h| && k != p
      ensures Above(g, k)
    {
      if ParentOf(k) == p && k != i {
        assert Above(h, k);
        PrecedesTransitive(h[i], h[p], h[k]);
      } else if ParentOf(k) == i {
        assert !Precedes(h[k], h[p]);
      } else if k != i {
        assert Above(h, k);
      }
    }
    forall k | 0 < k < |h| && ParentOf(k) == p && p > 0
      ensures !Precedes(g[k], g[ParentOf(p)])
    {
      assert Above(h, p);
      if k != i {
        assert Above(h, k);
        PrecedesTransitive(h[k], h[p], h[ParentOf(p)]);
      }
    }
  }

  lemma SiftUpEnds(h: seq<Item>, i: nat)
    requires i < |h| && SiftingUp(h, i) && (i > 0 ==> !Precedes(h[i], h[ParentOf(i)]))
    ensures HeapOrdered(h)
  {
    forall k | 0 < k < |h| ensures Above(h, k) {}
  }

  /** The child to exchange with: neither the item nor its other child precedes it. */
  ghost predicate IsBest(h: seq<Item>, i: nat, best: nat) {
    && best < |h| && (best == i || (best > 0 && ParentOf(best) == i))
    && !Precedes(h[i], h[best])
    && forall k | 0 < k < |h| && ParentOf(k) == i :: !Precedes(h[k], h[best])
  }

  lemma SiftDownStep(h: seq<Item>, i: nat, best: nat)
    requires i < |h| && SiftingDown(h, i) && IsBest(h, i, best) && best != i
    ensures SiftingDown(Swapped(h, i, best), best)
  {
    var g := Swapped(h, i, best);
    forall k | 0 < k < |h| && ParentOf(k) != best
      ensures Above(g, k)
    {
      if k == i {
        assert !Precedes(h[best], h[ParentOf(i)]);
      } else if ParentOf(k) != i {
        assert Above(h, k);
      }
    }
    forall k | 0 < k < |h| && ParentOf(k) == best
      ensures !Precedes(g[k], g[ParentOf(best)])
    {
      assert Above(h, k);
    }
  }

  lemma SiftDownEnds(h: seq<Item>, i: nat)
    requires i < |h| && SiftingDown(h, i) && IsBest(h, i, i)
    ensures HeapOrdered(h)
  {
    forall k | 0 < k < |h| ensures Above(h, k) {}
  }

  /** Nothing in the heap precedes its first item. */
  lemma {:induction false} TopPrecedesAll(h: seq<Item>, k: nat)
    requires HeapOrdered(h) && k < |h|
    ensures !Precedes(h[k], h[0])
  {
    if k > 0 {
      TopPrecedesAll(h, ParentOf(k));
      assert Above(h, k);
      PrecedesTransitive(h[k], h[ParentOf(k)], h[0]);
    }
  }

  // --- The queue ---

  function Insert(q: seq<Item>, x: Item): seq<Item> {
    if q == [] then [x]
    else if Precedes(x, q[0]) then [x] + q
    else [q[0]] + Insert(q[1..], x)
  }

  /** The items of the array in the order they are due. */
  function Queue(h: seq<Item>): seq<Item> {
    if h == [] then [] else Insert(Queue(h[..|h| - 1]), h[|h| - 1])
  }

  ghost predicate InOrder(q: seq<Item>) {
    forall i, j | 0 <= i < j < |q| :: !Precedes(q[j], q[i])
  }

  /** Each item is there once, and is known by its number. */
  ghost predicate Unique(items: multiset<Item>) {
    && (forall a | a in items :: items[a] == 1)
    && forall a, b | a in items && b in items && a.number == b.number :: a == b
  }

  lemma InsertAfterHead(q: seq<Item>, x: Item, rest: seq<Item>)
    requires q != [] && InOrder(q) && !Precedes(x, q[0])
    requires InOrder(rest) && multiset(rest) == multiset(q[1..]) + multiset{x}
    ensures InOrder([q[0]] + rest)
  {
    forall j | 0 <= j < |rest|
      ensures !Precedes(rest[j], q[0])
    {
      assert rest[j] in multiset(rest);
      if rest[j] != x {
        assert rest[j] in multiset(q[1..]);
        var k :| 0 <= k < |q[1..]| && q[1..][k] == rest[j];
        assert q[k + 1] == rest[j];
      }
    }
  }

  lemma {:induction false} InsertIs(q: seq<Item>, x: Item)
    requires InOrder(q)
    ensures InOrder(Insert(q, x)) && multiset(Insert(q, x)) == multiset(q) + multiset{x}
  {
    if q != [] && !Precedes(x, q[0]) {
      InsertIs(q[1..], x);
      assert q == [q[0]] + q[1..];
      InsertAfterHead(q, x, Insert(q[1..], x));
    } else if q != [] {
      forall j | 0 <= j < |q|
        ensures !Precedes(q[j], x)
      {
        PrecedesTransitive(q[j], q[0], x);
      }
    }
  }

  lemma {:induction false} QueueIs(h: seq<Item>)
    ensures InOrder(Queue(h)) && multiset(Queue(h)) == multiset(h)
  {
    if h != [] {
      var rest := h[..|h| - 1];
      assert h == rest + [h[|h| - 1]];
      QueueIs(rest);
      InsertIs(Queue(rest), h[|h| - 1]);
    }
  }

  lemma WithoutHead(q: seq<Item>)
    requires q != []
    ensures multiset(q[1..]) == multiset(q) - multiset{q[0]}
  {
    assert q == [q[0]] + q[1..];
  }

  lemma HeadIsLeast(q: seq<Item>, x: Item)
    requires InOrder(q) && x in multiset(q)
    ensures q != [] && !Precedes(x, q[0])
  {
    var k :| 0 <= k < |q| && q[k] == x;
  }

  lemma FewerUnique(a: multiset<Item>, b: multiset<Item>)
    requires Unique(a) && b <= a
    ensures Unique(b)
  {
    forall x | x in b ensures x in a && b[x] == 1 { assert b[x] <= a[x]; }
  }

  lemma SameHead(q: seq<Item>, r: seq<Item>)
    requires InOrder(q) && InOrder(r) && multiset(q) == multiset(r) && Unique(multiset(q)) && q != []
    ensures r != [] && q[0] == r[0]
  {
    assert q[0] in multiset(q);
    HeadIsLeast(r, q[0]);
    assert r[0] in multiset(r);
    HeadIsLeast(q, r[0]);
    hide InOrder;
  }

  lemma TailOf(q: seq<Item>)
    requires InOrder(q) && q != [] && Unique(multiset(q))
    ensures InOrder(q[1..]) && multiset(q[1..]) == multiset(q) - multiset{q[0]} && Unique(multiset(q[1..]))
  {
    WithoutHead(q);
    FewerUnique(multiset(q), multiset(q[1..]));
    hide Unique;
  }

  /** In order, the same items can be listed one way only. */
  lemma {:induction false} OrderIsUnique(q: seq<Item>, r: seq<Item>)
    requires InOrder(q) && InOrder(r) && multiset(q) == multiset(r) && Unique(multiset(q))
    ensures q == r
    decreases |q|
  {
    hide InOrder, Unique;
    if q == [] {
      assert |multiset(r)| == |r|;
    } else {
      SameHead(q, r);
      TailOf(q);
      TailOf(r);
      OrderIsUnique(q[1..], r[1..]);
      assert q == [q[0]] + q[1..] && r == [r[0]] + r[1..];
    }
  }

  /** In the queue a higher priority stands before a lower one, and of one priority the item accepted earlier. */
  lemma QueueByPriority(h: seq<Item>, i: nat, j: nat)
    requires Unique(multiset(h)) && i < j < |Queue(h)|
    ensures var a, b := Queue(h)[i], Queue(h)[j];
      a.priority > b.priority || (a.priority == b.priority && a.number < b.number)
  {
    hide Unique, Queue;
    QueueIs(h);
    NoneTwice(Queue(h), i, j);
  }

  lemma NoneTwice(q: seq<Item>, i: nat, j: nat)
    requires Unique(multiset(q)) && i < j < |q|
    ensures q[i].number != q[j].number
  {
    assert q[i] in multiset(q) && q[j] in multiset(q);
    assert multiset(q)[q[i]] == 1;
    if q[i] == q[j] { TwiceThere(q, i, j); }
  }

  lemma TwiceThere(q: seq<Item>, i: nat, j: nat)
    requires i < j < |q| && q[i] == q[j]
    ensures multiset(q)[q[i]] >= 2
  {
    assert q == q[..j] + q[j..];
    assert q[i] in q[..j] && q[i] in q[j..];
  }

  /** Whatever is in `sent` has a higher priority than all in `waits`, or the same and was accepted earlier. */
  ghost predicate SentFirst(sent: seq<Item>, waits: seq<Item>) {
    forall x, y | x in sent && y in waits ::
      x.priority > y.priority || (x.priority == y.priority && x.number < y.number)
  }

  lemma HeadsAreSentFirst(h: seq<Item>, sent: seq<Item>, waits: seq<Item>)
    requires Unique(multiset(h)) && Queue(h) == sent + Queue(waits)
    ensures SentFirst(sent, waits)
  {
    hide Unique, Queue;
    forall x, y | x in sent && y in waits
      ensures x.priority > y.priority || (x.priority == y.priority && x.number < y.number)
    {
      QueueIs(waits);
      assert y in multiset(waits);
      assert y in multiset(Queue(waits));
      var i :| 0 <= i < |sent| && sent[i] == x;
      var j :| 0 <= j < |Queue(waits)| && Queue(waits)[j] == y;
      QueueByPriority(h, i, |sent| + j);
    }
  }

  /** An item added to the heap joins the queue at its place. */
  lemma PushedQueue(h: seq<Item>, x: Item, g: seq<Item>)
    requires multiset(g) == multiset(h) + multiset{x} && Unique(multiset(g))
    ensures Queue(g) == Insert(Queue(h), x)
  {
    QueueIs(h);
    QueueIs(g);
    InsertIs(Queue(h), x);
    OrderIsUnique(Queue(g), Insert(Queue(h), x));
  }

  lemma HeadBeforeRest(h: seq<Item>, q: seq<Item>)
    requires h != [] && HeapOrdered(h) && InOrder(q) && multiset(q) <= multiset(h)
    ensures InOrder([h[0]] + q)
  {
    forall j | 0 <= j < |q|
      ensures !Precedes(q[j], h[0])
    {
      assert q[j] in multiset(q);
      assert q[j] in multiset(h);
      var k :| 0 <= k < |h| && h[k] == q[j];
      TopPrecedesAll(h, k);
    }
    hide HeapOrdered;
  }

  /** The first item of the heap is the head of the queue, and what is left is its tail. */
  lemma PoppedQueue(h: seq<Item>, g: seq<Item>)
    requires h != [] && HeapOrdered(h) && Unique(multiset(h)) && multiset(g) == multiset(h) - multiset{h[0]}
    ensures Queue(h) == [h[0]] + Queue(g)
  {
    hide InOrder, Unique, HeapOrdered, Queue;
    QueueIs(h);
    QueueIs(g);
    var q := [h[0]] + Queue(g);
    assert h[0] in multiset(h);
    assert multiset(q) == multiset(h);
    HeadBeforeRest(h, Queue(g));
    OrderIsUnique(Queue(h), q);
  }
}
