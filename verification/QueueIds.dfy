/**
 The ids of the transfer queue (src/core/QueueManager.ts, 133-265): while waiting, an item holds its id
 against being added again. Here is what keeps the ids and the waiting items in step.
 */
module QueueIds {
  import opened Basics
  import opened Names
  import opened Heaps
  import opened Queues

  /** No two waiting items have one id, and the ids held are those that wait. */
  ghost predicate Tidy(ids: set<Name>, heap: seq<Item>) {
    ids == IdsOf(heap) && forall x, y | x in heap && y in heap && x.id == y.id && x.id != [] :: x == y
  }

  ghost predicate Waits(heap: seq<Item>, id: Name) {
    exists x :: x in heap && x.id == id
  }

  /** How many items are started, of `waiting`. */
  function ToStart(active: nat, limit: nat, waiting: nat, paused: bool, disposed: bool): nat {
    if paused || disposed || active >= limit then 0 else Min(limit - active, waiting)
  }

  lemma EmptyIsTidy()
    ensures Tidy({}, [])
  {}

  lemma OfWhichStarted(waited: multiset<Item>, idsWere: set<Name>, ran: set<Run>, sent: seq<Item>, epoch: nat,
                       waits: seq<Item>, ids: set<Name>, runs: set<Run>, x: Item)
    requires Started(waited, idsWere, ran, sent, epoch, waits, ids, runs)
    ensures x in waited <==> x in sent || x in waits
    ensures waited[x] == 1 ==> !(x in sent && x in waits)
  {
    assert waited[x] == multiset(sent)[x] + multiset(waits)[x];
  }

  /** Items of distinct ids are started: what still waits holds its ids, and no more are held. */
  lemma StartingKeepsTidy(heap: seq<Item>, idsWere: set<Name>, ran: set<Run>, sent: seq<Item>, epoch: nat,
                          waits: seq<Item>, ids: set<Name>, runs: set<Run>)
    requires Unique(multiset(heap)) && Tidy(idsWere, heap)
    requires Started(multiset(heap), idsWere, ran, sent, epoch, waits, ids, runs)
    ensures Tidy(ids, waits)
  {
    forall x
      ensures x in heap <==> x in sent || x in waits
      ensures !(x in sent && x in waits)
    {
      OfWhichStarted(multiset(heap), idsWere, ran, sent, epoch, waits, ids, runs, x);
      InHeap(heap, x);
    }
    hide Unique;
  }

  /** An id with two items waiting, or waiting and not held: starting some brings things in step only if none
      of that id is left. */
  lemma StartingOutOfStep(waited: multiset<Item>, idsWere: set<Name>, ran: set<Run>, sent: seq<Item>, epoch: nat,
                          waits: seq<Item>, ids: set<Name>, runs: set<Run>, a: Name)
    requires Unique(waited) && Started(waited, idsWere, ran, sent, epoch, waits, ids, runs) && a != []
    requires forall x, y | x in waited && y in waited && x.id == y.id && x.id != [] && x.id != a :: x == y
    requires forall b | b != a :: b in idsWere <==> b != [] && exists x :: x in waited && x.id == b
    requires (a !in idsWere && exists x :: x in waited && x.id == a)
      || (exists x, y :: x in waited && y in waited && x != y && x.id == a && y.id == a)
    ensures Tidy(ids, waits) <==> !Waits(waits, a)
  {
    forall x
      ensures (x in waited <==> x in sent || x in waits) && !(x in sent && x in waits)
    {
      OfWhichStarted(waited, idsWere, ran, sent, epoch, waits, ids, runs, x);
    }
    assert ids == idsWere - IdsOf(sent);
    hide Unique, Started;
    if Waits(waits, a) {
      SomeLeft(waited, idsWere, sent, waits, ids, a);
    } else {
      NoneLeft(waited, idsWere, sent, waits, ids, a);
    }
  }

  /** What waited is what was started and what still waits, each item in one of them. */
  ghost predicate Parted(waited: multiset<Item>, sent: seq<Item>, waits: seq<Item>) {
    forall x :: (x in waited <==> x in sent || x in waits) && !(x in sent && x in waits)
  }

  lemma SomeLeft(waited: multiset<Item>, idsWere: set<Name>, sent: seq<Item>, waits: seq<Item>, ids: set<Name>, a: Name)
    requires Parted(waited, sent, waits) && ids == idsWere - IdsOf(sent) && a != [] && Waits(waits, a)
    requires a !in idsWere || (exists x, y :: x in waited && y in waited && x != y && x.id == a && y.id == a)
    ensures !Tidy(ids, waits)
  {
    var z :| z in waits && z.id == a;
    assert a in IdsOf(waits);
    if a in ids {
      var x, y :| x in waited && y in waited && x != y && x.id == a && y.id == a;
      assert x !in sent && y !in sent;
    }
  }

  lemma NoneLeft(waited: multiset<Item>, idsWere: set<Name>, sent: seq<Item>, waits: seq<Item>, ids: set<Name>, a: Name)
    requires Parted(waited, sent, waits) && ids == idsWere - IdsOf(sent) && a != [] && !Waits(waits, a)
    requires forall x, y | x in waited && y in waited && x.id == y.id && x.id != [] && x.id != a :: x == y
    requires forall b | b != a :: b in idsWere <==> b != [] && exists x :: x in waited && x.id == b
    requires a in idsWere ==> exists x :: x in waited && x.id == a
    ensures Tidy(ids, waits)
  {
    forall b
      ensures b in ids <==> b in IdsOf(waits)
    {
      if b in ids {
        var x :| x in waited && x.id == b;
        assert x in waits;
      }
      if x :| x in waits && x.id == b && b != [] {
        assert x in waited;
        forall y | y in sent ensures y.id != b { assert y in waited; }
      }
    }
  }

  // --- What each operation makes of it ---

  /** An item whose id is not held joins. */
  lemma JoiningKeepsTidy(ids: set<Name>, heap: seq<Item>, x: Item, heap': seq<Item>)
    requires Tidy(ids, heap) && (x.id == [] || x.id !in ids) && Gains(heap, x, heap')
    ensures Tidy(if x.id != [] then ids + {x.id} else ids, heap')
  {
    forall b
      ensures b in IdsOf(heap') <==> b in IdsOf(heap) || (b == x.id && b != [])
    {
      if y :| y in heap' && y.id == b && b != [] { assert y in heap || y == x; }
      if y :| y in heap && y.id == b && b != [] { assert y in heap'; }
      assert x in heap';
    }
  }

  lemma KeptIsTidy(heap: seq<Item>, peer: Name)
    requires forall x, y | x in heap && y in heap && x.id == y.id && x.id != [] :: x == y
    ensures Tidy(IdsOf(Kept(heap, peer)), Kept(heap, peer))
  {
    KeptIs(heap, peer);
  }

  lemma InMore(heap: seq<Item>, x: Item)
    ensures multiset(heap + [x]) == multiset(heap) + multiset{x} && Gains(heap, x, heap + [x])
  {
    HeapGains(heap, x, heap + [x]);
  }

  /** An item returns with an id that may be held by another: in step afterwards exactly if not, or if none of
      that id was left waiting. */
  lemma ReturningTidy(heap: seq<Item>, idsWere: set<Name>, x: Item, ran: set<Run>, sent: seq<Item>, epoch: nat,
                      waits: seq<Item>, ids: set<Name>, runs: set<Run>)
    requires Unique(multiset(heap) + multiset{x}) && Tidy(idsWere, heap) && x.id != []
    requires Started(multiset(heap) + multiset{x}, idsWere + {x.id}, ran, sent, epoch, waits, ids, runs)
    ensures Tidy(ids, waits) <==> !(x.id in idsWere && Waits(waits, x.id))
  {
    InMore(heap, x);
    hide Started;
    if x.id in idsWere {
      var y :| y in heap && y.id == x.id;
      var waited := multiset(heap) + multiset{x};
      forall z ensures z in waited <==> z in heap || z == x { InHeap(heap, z); }
      assert x != y by { InHeap(heap, y); assert waited[y] == multiset(heap)[y] + multiset{x}[y]; }
      assert y in waited && x in waited;
      hide Unique;
      StartingOutOfStep(waited, idsWere + {x.id}, ran, sent, epoch, waits, ids, runs, x.id);
    } else {
      hide Unique, Tidy, Gains;
      JoiningKeepsTidy(idsWere, heap, x, heap + [x]);
      StartingKeepsTidy(heap + [x], idsWere + {x.id}, ran, sent, epoch, waits, ids, runs);
    }
  }

  /** An id is freed while an item may wait with it: in step afterwards exactly if none did, or if it was started. */
  lemma FreeingTidy(heap: seq<Item>, idsWere: set<Name>, a: Name, ran: set<Run>, sent: seq<Item>, epoch: nat,
                    waits: seq<Item>, ids: set<Name>, runs: set<Run>)
    requires Unique(multiset(heap)) && Tidy(idsWere, heap) && a != []
    requires Started(multiset(heap), idsWere - {a}, ran, sent, epoch, waits, ids, runs)
    ensures Tidy(ids, waits) <==> !(a in idsWere && Waits(waits, a))
  {
    hide Started;
    if a in idsWere {
      var waited := multiset(heap);
      forall z ensures z in waited <==> z in heap { InHeap(heap, z); }
      var y :| y in heap && y.id == a;
      assert y in waited;
      hide Unique;
      StartingOutOfStep(waited, idsWere - {a}, ran, sent, epoch, waits, ids, runs, a);
    } else {
      assert idsWere - {a} == idsWere;
      hide Unique, Tidy;
      StartingKeepsTidy(heap, idsWere, ran, sent, epoch, waits, ids, runs);
    }
  }

  /** None of the queue `q` past its first `n` items has the id. */
  ghost predicate NonePast(q: seq<Item>, n: nat, id: Name) {
    forall k | n <= k < |q| :: q[k].id != id
  }

  lemma QueueTells(q: seq<Item>, sent: seq<Item>, waits: seq<Item>, id: Name)
    requires q == sent + Queue(waits)
    ensures Waits(waits, id) <==> !NonePast(q, |sent|, id)
  {
    QueueIs(waits);
    hide Queue, InOrder;
    if x :| x in waits && x.id == id {
      assert x in multiset(Queue(waits)) by { InHeap(waits, x); }
      var k :| 0 <= k < |Queue(waits)| && Queue(waits)[k] == x;
      assert q[|sent| + k] == x;
    }
    if k :| |sent| <= k < |q| && q[k].id == id {
      assert q[k] == Queue(waits)[k - |sent|];
      assert q[k] in multiset(Queue(waits));
      InHeap(waits, q[k]);
    }
  }
}
