/**
 The transfer queue (src/core/QueueManager.ts): a heap of waiting items, the ids that may not be
 added again while they wait, the items being processed, and those waiting to be retried.
 */
module Queues {
  import opened Names
  import opened Heaps

  /** An item handed to the processor, or waiting for its retry timer, with the epoch it was taken in. */
  datatype Run = Run(item: Item, epoch: nat)

  /** What the caller of `addToQueue` gives; `loadQueue` gets the same from disk. */
  datatype Request = Request(id: Name, peer: Peer, priority: int, retries: nat)

  // --- What is said of the items ---

  ghost predicate Numbered(runs: set<Run>) {
    forall a, b | a in runs && b in runs && a.item.number == b.item.number :: a == b
  }

  ghost predicate Elsewhere(heap: seq<Item>, runs: set<Run>) {
    forall x, r | x in heap && r in runs :: x.number != r.item.number
  }

  ghost predicate Disjoint(runs: set<Run>, timers: set<Run>) {
    forall r, t | r in runs && t in timers :: r.item.number != t.item.number
  }

  ghost predicate Below(heap: seq<Item>, runs: set<Run>, timers: set<Run>, counter: nat) {
    && (forall x | x in heap :: x.number < counter)
    && (forall r | r in runs :: r.item.number < counter)
    && (forall t | t in timers :: t.item.number < counter)
  }

  /** Every accepted item is in one place: waiting, being processed, or waiting to be retried. */
  ghost predicate OnePlace(heap: seq<Item>, runs: set<Run>, timers: set<Run>, counter: nat) {
    && Unique(multiset(heap)) && Numbered(runs) && Numbered(timers)
    && Elsewhere(heap, runs) && Elsewhere(heap, timers) && Disjoint(runs, timers)
    && Below(heap, runs, timers, counter)
  }

  /** An id that may not be added waits in the heap. */
  ghost predicate IdsWait(ids: set<Name>, heap: seq<Item>) {
    [] !in ids && forall id | id in ids :: exists x :: x in heap && x.id == id
  }

  /**
   How often each item was started, against its retries: `given` are those it was accepted with.
   An item starts again only while it has been retried at most three times.
   */
  datatype Ledger = Ledger(starts: map<nat, nat>, given: map<nat, nat>, accepted: map<nat, nat>)

  ghost predicate Counts(l: Ledger, x: Item, running: bool) {
    && x.number in l.starts && x.number in l.given
    && l.starts[x.number] + l.given[x.number] == x.retries + (if running then 1 else 0)
    && (l.starts[x.number] > (if running then 1 else 0) ==> x.retries <= 3)
  }

  ghost predicate AtMostFour(l: Ledger) {
    && l.starts.Keys == l.given.Keys == l.accepted.Keys
    && forall n | n in l.starts :: l.starts[n] <= 1 || l.starts[n] + l.given[n] <= 4
  }

  ghost predicate Accounted(l: Ledger, heap: seq<Item>, runs: set<Run>, timers: set<Run>) {
    && AtMostFour(l)
    && (forall x | x in heap :: Counts(l, x, false))
    && (forall r | r in runs :: Counts(l, r.item, true))
    && (forall t | t in timers :: Counts(l, t.item, false))
  }

  /** Whatever waits was accepted since the queue was last cleared; and so was what may still return to it. */
  ghost predicate Current(l: Ledger, heap: seq<Item>, runs: set<Run>, timers: set<Run>, epoch: nat, cleared: nat) {
    && (forall x | x in heap :: x.number in l.accepted && l.accepted[x.number] == cleared)
    && (forall r | r in runs ::
        r.epoch <= epoch && (r.epoch == epoch ==> r.item.number in l.accepted && l.accepted[r.item.number] == cleared))
    && forall t | t in timers ::
      t.epoch <= epoch && (t.epoch == epoch ==> t.item.number in l.accepted && l.accepted[t.item.number] == cleared)
  }

  // --- What each move keeps ---

  function Accept(l: Ledger, x: Item, cleared: nat): Ledger {
    Ledger(l.starts[x.number := 0], l.given[x.number := x.retries], l.accepted[x.number := cleared])
  }

  function Start(l: Ledger, x: Item): Ledger
    requires x.number in l.starts
  {
    l.(starts := l.starts[x.number := l.starts[x.number] + 1])
  }

  ghost predicate AllOk(heap: seq<Item>, runs: set<Run>, timers: set<Run>, counter: nat, l: Ledger, epoch: nat,
          cleared: nat)
  {
    OnePlace(heap, runs, timers, counter) && Accounted(l, heap, runs, timers)
      && Current(l, heap, runs, timers, epoch, cleared)
  }

  lemma InHeap(h: seq<Item>, x: Item)
    ensures x in h <==> x in multiset(h)
  {}

  ghost predicate Gains(heap: seq<Item>, x: Item, heap': seq<Item>) {
    forall y :: y in heap' <==> y in heap || y == x
  }

  lemma HeapGains(heap: seq<Item>, x: Item, heap': seq<Item>)
    requires multiset(heap') == multiset(heap) + multiset{x}
    ensures Gains(heap, x, heap')
  {
    forall y ensures y in heap' <==> y in heap || y == x { InHeap(heap', y); InHeap(heap, y); }
  }

  lemma AcceptAccounted(heap: seq<Item>, runs: set<Run>, timers: set<Run>, counter: nat, l: Ledger, cleared: nat,
          x: Item, heap': seq<Item>)
    requires Below(heap, runs, timers, counter) && Accounted(l, heap, runs, timers) && x.number == counter
      && Gains(heap, x, heap')
    ensures Accounted(Accept(l, x, cleared), heap', runs, timers)
  {}

  /** A new item is accepted. */
  lemma AcceptKeeps(heap: seq<Item>, runs: set<Run>, timers: set<Run>, counter: nat, l: Ledger, epoch: nat,
          cleared: nat, x: Item, heap': seq<Item>)
    requires AllOk(heap, runs, timers, counter, l, epoch, cleared) && x.number == counter
    requires multiset(heap') == multiset(heap) + multiset{x}
    ensures AllOk(heap', runs, timers, counter + 1, Accept(l, x, cleared), epoch, cleared)
  {
    hide Unique, Accounted;
    HeapGains(heap, x, heap');
    UniqueMore(heap, x, heap');
    AcceptAccounted(heap, runs, timers, counter, l, cleared, x, heap');
  }

  lemma UniqueMore(heap: seq<Item>, x: Item, heap': seq<Item>)
    requires Unique(multiset(heap)) && (forall y | y in heap :: y.number != x.number)
    requires multiset(heap') == multiset(heap) + multiset{x}
    ensures Unique(multiset(heap'))
  {
    InHeap(heap, x);
    forall y | y in multiset(heap') ensures multiset(heap')[y] == 1 { InHeap(heap, y); }
    forall a, b | a in multiset(heap') && b in multiset(heap') && a.number == b.number ensures a == b {
      InHeap(heap, a);
      InHeap(heap, b);
    }
  }

  lemma HeapLoses(heap: seq<Item>, x: Item, heap': seq<Item>)
    requires Unique(multiset(heap)) && x in heap && multiset(heap') == multiset(heap) - multiset{x}
    ensures Unique(multiset(heap'))
    ensures forall y | y in heap' :: y in heap && y.number != x.number
  {
    InHeap(heap, x);
    forall y | y in heap' ensures y in heap && y != x { InHeap(heap', y); InHeap(heap, y); }
    FewerUnique(multiset(heap), multiset(heap'));
    forall y | y in heap' ensures y.number != x.number { InHeap(heap, y); }
  }

  lemma StartPlace(heap: seq<Item>, runs: set<Run>, timers: set<Run>, counter: nat, x: Item, r: Run, heap': seq<Item>)
    requires OnePlace(heap, runs, timers, counter) && x in heap && r.item == x && Unique(multiset(heap'))
    requires forall y | y in heap' :: y in heap && y.number != x.number
    ensures OnePlace(heap', runs + {r}, timers, counter) && r !in runs
  {
    hide Unique;
  }

  lemma StartAccounted(heap: seq<Item>, runs: set<Run>, timers: set<Run>, l: Ledger, x: Item, r: Run, heap': seq<Item>)
    requires Elsewhere(heap, runs) && Elsewhere(heap, timers) && Accounted(l, heap, runs, timers) && x in heap
      && r.item == x
    requires forall y | y in heap' :: y in heap && y.number != x.number
    ensures x.number in l.starts && Accounted(Start(l, x), heap', runs + {r}, timers)
  {
    assert Counts(l, x, false);
  }

  /** The item taken from the heap is started. */
  lemma StartKeeps(heap: seq<Item>, runs: set<Run>, timers: set<Run>, counter: nat, l: Ledger, epoch: nat, cleared: nat,
          x: Item, heap': seq<Item>)
    requires AllOk(heap, runs, timers, counter, l, epoch, cleared) && x in heap
    requires multiset(heap') == multiset(heap) - multiset{x}
    ensures x.number in l.starts && AllOk(heap', runs + {Run(x, epoch)}, timers, counter, Start(l, x), epoch, cleared)
    ensures Run(x, epoch) !in runs
  {
    HeapLoses(heap, x, heap');
    StartPlace(heap, runs, timers, counter, x, Run(x, epoch), heap');
    StartAccounted(heap, runs, timers, l, x, Run(x, epoch), heap');
    hide OnePlace, Accounted;
  }

  /** A failed item waits to be retried. */
  lemma RetryKeeps(heap: seq<Item>, runs: set<Run>, timers: set<Run>, counter: nat, l: Ledger, epoch: nat, cleared: nat,
          r: Run)
    requires AllOk(heap, runs, timers, counter, l, epoch, cleared) && r in runs && r.item.retries < 3
    ensures AllOk(heap, runs - {r}, timers + {Run(r.item.(retries := r.item.retries + 1), r.epoch)},
      counter, l, epoch, cleared)
  {
    hide Unique;
  }

  /** An item is finished with, or its timer no longer brings it back. */
  lemma DropKeeps(heap: seq<Item>, runs: set<Run>, timers: set<Run>, counter: nat, l: Ledger, epoch: nat, cleared: nat,
          r: Run)
    requires AllOk(heap, runs, timers, counter, l, epoch, cleared)
    ensures AllOk(heap, runs - {r}, timers - {r}, counter, l, epoch, cleared)
    ensures AllOk(heap, runs - {r}, timers, counter, l, epoch, cleared)
    ensures AllOk(heap, runs, timers - {r}, counter, l, epoch, cleared)
  {
    hide Unique;
  }

  /** A retried item returns to the heap. */
  lemma ReturnKeeps(heap: seq<Item>, runs: set<Run>, timers: set<Run>, counter: nat, l: Ledger, epoch: nat,
          cleared: nat, t: Run, x: Item, heap': seq<Item>)
    requires AllOk(heap, runs, timers, counter, l, epoch, cleared) && t in timers && t.epoch == epoch
    requires x.number == t.item.number && x.retries == t.item.retries
    requires multiset(heap') == multiset(heap) + multiset{x}
    ensures AllOk(heap', runs, timers - {t}, counter, l, epoch, cleared)
  {
    HeapGains(heap, x, heap');
    UniqueMore(heap, x, heap');
    hide Unique;
  }

  /** Items leave the heap without being started. */
  lemma FewerKeeps(heap: seq<Item>, runs: set<Run>, timers: set<Run>, counter: nat, l: Ledger, epoch: nat, cleared: nat,
          heap': seq<Item>)
    requires AllOk(heap, runs, timers, counter, l, epoch, cleared) && multiset(heap') <= multiset(heap)
    ensures AllOk(heap', runs, timers, counter, l, epoch, cleared)
    ensures AllOk(heap', runs, timers, counter, l, epoch + 1, cleared)
  {
    forall y | y in heap' ensures y in heap { InHeap(heap', y); InHeap(heap, y); }
    FewerUnique(multiset(heap), multiset(heap'));
    hide Unique;
  }

  /** The queue is emptied, and what was taken from it before may not return. */
  lemma ClearKeeps(heap: seq<Item>, runs: set<Run>, timers: set<Run>, counter: nat, l: Ledger, epoch: nat, cleared: nat)
    requires AllOk(heap, runs, timers, counter, l, epoch, cleared)
    ensures AllOk([], runs, timers, counter, l, epoch + 1, cleared + 1)
  {
    FewerUnique(multiset(heap), multiset{});
    hide Unique;
  }

  lemma IdsAfterStart(ids: set<Name>, heap: seq<Item>, x: Item, heap': seq<Item>)
    requires IdsWait(ids, heap) && Unique(multiset(heap)) && x in heap
      && multiset(heap') == multiset(heap) - multiset{x}
    ensures IdsWait(if x.id != [] then ids - {x.id} else ids, heap')
  {
    forall id | id in ids && id != x.id
      ensures exists y :: y in heap' && y.id == id
    {
      var y :| y in heap && y.id == id;
      InHeap(heap, y);
      InHeap(heap', y);
    }
  }

  function IdsOf(heap: seq<Item>): set<Name> {
    set x | x in heap && x.id != [] :: x.id
  }

  lemma IdsOfWait(heap: seq<Item>)
    ensures IdsWait(IdsOf(heap), heap)
  {}

  lemma IdsAfterPush(ids: set<Name>, heap: seq<Item>, x: Item, heap': seq<Item>)
    requires IdsWait(ids, heap) && Gains(heap, x, heap')
    ensures IdsWait(ids, heap') && (x.id != [] ==> IdsWait(ids + {x.id}, heap'))
  {
    forall id | id in ids
      ensures exists y :: y in heap' && y.id == id
    {
      var y :| y in heap && y.id == id;
      assert y in heap';
    }
  }

  // --- Starts ---

  /** How often item `n` was handed to the processor. */
  function StartsOf(started: seq<Item>, n: nat): nat {
    if started == [] then 0
    else StartsOf(started[..|started| - 1], n) + (if started[|started| - 1].number == n then 1 else 0)
  }

  lemma OneMoreStart(started: seq<Item>, x: Item, n: nat)
    ensures StartsOf(started + [x], n) == StartsOf(started, n) + (if x.number == n then 1 else 0)
  {
    assert (started + [x])[..|started|] == started;
  }

  /** The ledger counts the starts there have been. */
  ghost predicate Tallies(l: Ledger, started: seq<Item>, counter: nat) {
    && (forall n | n in l.starts :: n < counter)
    && forall n :: StartsOf(started, n) == if n in l.starts then l.starts[n] else 0
  }

  lemma StartTallies(l: Ledger, started: seq<Item>, counter: nat, x: Item)
    requires Tallies(l, started, counter) && x.number in l.starts
    ensures Tallies(Start(l, x), started + [x], counter)
  {
    forall n ensures StartsOf(started + [x], n) == StartsOf(started, n) + (if x.number == n then 1 else 0) {
      OneMoreStart(started, x, n);
    }
  }

  lemma AcceptTallies(l: Ledger, started: seq<Item>, counter: nat, x: Item, cleared: nat)
    requires Tallies(l, started, counter) && x.number == counter
    ensures Tallies(Accept(l, x, cleared), started, counter + 1)
  {
    assert StartsOf(started, counter) == 0;
  }

  // --- Dropping one peer's items, and loading ---

  function Kept(heap: seq<Item>, peer: Name): seq<Item> {
    if heap == [] then []
    else Kept(heap[..|heap| - 1], peer) + (if heap[|heap| - 1].peer == To(peer) then [] else [heap[|heap| - 1]])
  }

  function KeptOf(items: set<Item>, peer: Name): set<Item> {
    set x | x in items && x.peer != To(peer)
  }

  lemma KeptOfIs(items: set<Item>, peer: Name)
    ensures forall x :: x in KeptOf(items, peer) <==> x in items && x.peer != To(peer)
  {}

  /** What is kept is what is not for that peer. */
  lemma {:induction false} KeptIs(heap: seq<Item>, peer: Name)
    ensures multiset(Kept(heap, peer)) <= multiset(heap)
    ensures forall x :: x in Kept(heap, peer) <==> x in heap && x.peer != To(peer)
  {
    if heap != [] {
      KeptIs(heap[..|heap| - 1], peer);
      assert heap == heap[..|heap| - 1] + [heap[|heap| - 1]];
    }
  }

  lemma DropPeerKeeps(heap: seq<Item>, runs: set<Run>, timers: set<Run>, counter: nat, l: Ledger, epoch: nat,
          cleared: nat, peer: Name)
    requires AllOk(heap, runs, timers, counter, l, epoch, cleared)
    ensures AllOk(Kept(heap, peer), runs, timers, counter, l, epoch + 1, cleared)
      && IdsWait(IdsOf(Kept(heap, peer)), Kept(heap, peer))
    ensures forall t | t in timers :: t.epoch <= epoch
  {
    assert Current(l, heap, runs, timers, epoch, cleared);
    hide AllOk, IdsWait, IdsOf;
    KeptIs(heap, peer);
    FewerKeeps(heap, runs, timers, counter, l, epoch, cleared, Kept(heap, peer));
    IdsOfWait(Kept(heap, peer));
  }

  ghost predicate SavedId(saved: seq<Request>, id: Name) {
    exists i :: 0 <= i < |saved| && saved[i].id == id
  }

  /** What is accepted of a saved queue: the first item of each id, and every item without one; numbered from
      `counter`. */
  ghost function Loaded(saved: seq<Request>, counter: nat): seq<Item> {
    if saved == [] then []
    else
      var rest, r := saved[..|saved| - 1], saved[|saved| - 1];
      var before := Loaded(rest, counter);
      if r.id != [] && SavedId(rest, r.id) then before
      else before + [Item(counter + |before|, r.id, r.peer, r.priority, r.retries)]
  }

  lemma LoadOne(saved: seq<Request>, r: Request, counter: nat)
    ensures var before := Loaded(saved, counter);
      Loaded(saved + [r], counter) ==
        if r.id != [] && SavedId(saved, r.id) then before
        else before + [Item(counter + |before|, r.id, r.peer, r.priority, r.retries)]
    ensures forall id :: SavedId(saved + [r], id) <==> SavedId(saved, id) || id == r.id
  {
    assert (saved + [r])[..|saved|] == saved;
    forall id
      ensures SavedId(saved + [r], id) <==> SavedId(saved, id) || id == r.id
    {
      if i :| 0 <= i < |saved| && saved[i].id == id { assert (saved + [r])[i].id == id; }
      if id == r.id { assert (saved + [r])[|saved|].id == id; }
    }
  }

  lemma PushedOnList(list: seq<Item>, x: Item)
    ensures Queue(list + [x]) == Insert(Queue(list), x)
  {
    assert (list + [x])[..|list|] == list;
  }

  // --- What starting items does ---

  lemma IdsOfMore(items: seq<Item>, x: Item)
    ensures IdsOf(items + [x]) == if x.id != [] then IdsOf(items) + {x.id} else IdsOf(items)
    ensures multiset(items + [x]) == multiset(items) + multiset{x}
  {
    forall y ensures y in items + [x] <==> y in items || y == x {}
  }

  /** The items of `sent`, taken in epoch `epoch`. */
  function Runs(sent: seq<Item>, epoch: nat): set<Run> {
    set x | x in sent :: Run(x, epoch)
  }

  /** `sent` was started out of what waited: nothing else is gone, and their ids are free. */
  ghost predicate Started(waited: multiset<Item>, idsWere: set<Name>, ranBefore: set<Run>, sent: seq<Item>, epoch: nat,
                          waits: seq<Item>, ids: set<Name>, runs: set<Run>) {
    && waited == multiset(sent) + multiset(waits)
    && ids == idsWere - IdsOf(sent) && runs == ranBefore + Runs(sent, epoch)
  }

  lemma NothingStarted(heap: seq<Item>, ids: set<Name>, runs: set<Run>, epoch: nat)
    ensures Started(multiset(heap), ids, runs, [], epoch, heap, ids, runs)
  {}

  lemma OneMoreStarted(waited: multiset<Item>, idsWere: set<Name>, ranBefore: set<Run>, sent: seq<Item>, epoch: nat,
                       waits: seq<Item>, ids: set<Name>, runs: set<Run>, x: Item, waits': seq<Item>)
    requires Started(waited, idsWere, ranBefore, sent, epoch, waits, ids, runs)
    requires multiset(waits) == multiset{x} + multiset(waits')
    ensures Started(waited, idsWere, ranBefore, sent + [x], epoch, waits',
        if x.id != [] then ids - {x.id} else ids, runs + {Run(x, epoch)})
  {
    assert multiset(sent + [x]) == multiset(sent) + multiset{x};
    forall y ensures y in sent + [x] <==> y in sent || y == x {}
    assert IdsOf(sent + [x]) == IdsOf(sent) + (if x.id != [] then {x.id} else {});
    assert Runs(sent + [x], epoch) == Runs(sent, epoch) + {Run(x, epoch)};
  }
}
