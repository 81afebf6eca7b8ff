/**
 The transfer queue as the program runs it (src/core/QueueManager.ts, 61-265): an array heap changed
 in place, and the sets and counters around it.
 */
module QueueManagers {
  import opened Names
  import opened Heaps
  import opened Queues
  import opened QueueDrops
  import opened QueueIds

  class QueueManager {
    var syncQueue: seq<Item>
    var ids: set<Name>
    var active: nat
    var inFlight: set<Run>
    var timers: set<Run>
    var retrying: set<Item>
    var limit: nat
    var paused: bool
    var disposed: bool
    var epoch: nat
    var counter: nat
    /** The items handed to the processor, oldest first. */
    var started: seq<Item>

    ghost var ledger: Ledger
    ghost var cleared: nat

    ghost predicate Valid()
      reads this
    {
      && AllOk(syncQueue, inFlight, timers, counter, ledger, epoch, cleared)
      && IdsWait(ids, syncQueue) && active == |inFlight| && Tallies(ledger, started, counter)
    }

    constructor (limit: nat)
      ensures Valid() && syncQueue == [] && ids == {} && inFlight == {} && active == counter == 0 && started == []
        && timers == {} && epoch == 0 && !paused && !disposed && this.limit == limit
    {
      syncQueue, ids, active, inFlight, timers, retrying := [], {}, 0, {}, {}, {};
      this.limit, paused, disposed, epoch, counter, started := limit, false, false, 0, 0, [];
      ledger, cleared := Ledger(map[], map[], map[]), 0;
    }

    // --- The heap ---

    method HeapPush(item: Item)
      modifies `syncQueue
      ensures multiset(syncQueue) == multiset(old(syncQueue)) + multiset{item}
      ensures HeapOrdered(old(syncQueue)) ==> HeapOrdered(syncQueue)
    {
      ghost var ordered := HeapOrdered(syncQueue);
      syncQueue := syncQueue + [item];
      var i := |syncQueue| - 1;
      StartSiftUp(old(syncQueue), item);
      while i > 0
        invariant 0 <= i < |syncQueue|
        invariant multiset(syncQueue) == multiset(old(syncQueue)) + multiset{item}
        invariant ordered ==> SiftingUp(syncQueue, i)
      {
        var parent := ParentOf(i);
        if !Precedes(syncQueue[i], syncQueue[parent]) { break; }
        SwapKeepsItems(syncQueue, i, parent);
        if ordered { SiftUpStep(syncQueue, i); }
        syncQueue := Swapped(syncQueue, i, parent);
        i := parent;
      }
      if ordered { SiftUpEnds(syncQueue, i); }
    }

    method HeapPop() returns (top: Item)
      requires syncQueue != []
      modifies `syncQueue
      ensures top == old(syncQueue)[0]
      ensures multiset(syncQueue) == multiset(old(syncQueue)) - multiset{top}
      ensures HeapOrdered(old(syncQueue)) ==> HeapOrdered(syncQueue)
      ensures HeapOrdered(old(syncQueue)) ==> forall y | y in old(syncQueue) ::
        top.priority > y.priority || (top.priority == y.priority && top.number <= y.number)
    {
      ghost var ordered := HeapOrdered(syncQueue);
      if ordered { TopIsHighest(syncQueue); }
      top := syncQueue[0];
      var last := syncQueue[|syncQueue| - 1];
      StartSiftDown(syncQueue);
      syncQueue := syncQueue[..|syncQueue| - 1];
      if |syncQueue| > 0 {
        syncQueue := syncQueue[0 := last];
        SiftDown(ordered);
      }
    }

    /** The first item sinks below those that precede it. */
    method SiftDown(ghost ordered: bool)
      requires |syncQueue| > 0 && (ordered ==> SiftingDown(syncQueue, 0))
      modifies `syncQueue
      ensures multiset(syncQueue) == multiset(old(syncQueue))
      ensures ordered ==> HeapOrdered(syncQueue)
    {
      var i := 0;
      while true
        invariant 0 <= i < |syncQueue|
        invariant multiset(syncQueue) == multiset(old(syncQueue))
        invariant ordered ==> SiftingDown(syncQueue, i)
        decreases |syncQueue| - i
      {
        var left, right := 2 * i + 1, 2 * i + 2;
        var best := i;
        if left < |syncQueue| && Precedes(syncQueue[left], syncQueue[best]) { best := left; }
        if right < |syncQueue| && Precedes(syncQueue[right], syncQueue[best]) { best := right; }
        BestChosen(syncQueue, i, best);
        if best == i { break; }
        SwapKeepsItems(syncQueue, i, best);
        if ordered { SiftDownStep(syncQueue, i, best); }
        syncQueue := Swapped(syncQueue, i, best);
        i := best;
      }
      if ordered { SiftDownEnds(syncQueue, i); }
    }

    // --- Processing ---

    /** The first item of the heap is handed to the processor, and its id may be added again. */
    method StartNext() returns (item: Item)
      requires Valid() && syncQueue != []
      modifies `syncQueue, `ids, `active, `inFlight, `started, `ledger
      ensures Valid() && started == old(started) + [item] && ids <= old(ids) && active == old(active) + 1
      ensures ledger.given == old(ledger.given) && ledger.accepted == old(ledger.accepted)
      ensures multiset(old(syncQueue)) == multiset{item} + multiset(syncQueue)
        && inFlight == old(inFlight) + {Run(item, epoch)}
      ensures ids == if item.id != [] then old(ids) - {item.id} else old(ids)
      ensures HeapOrdered(old(syncQueue))
        ==> HeapOrdered(syncQueue) && Queue(old(syncQueue)) == [item] + Queue(syncQueue)
    {
      hide AllOk, HeapOrdered, IdsWait, Unique, Queue, Tallies;
      ghost var heap := syncQueue;
      item := HeapPop();
      AreUnique(heap, inFlight, timers, counter, ledger, epoch, cleared);
      StartKeeps(heap, inFlight, timers, counter, ledger, epoch, cleared, item, syncQueue);
      IdsAfterStart(ids, heap, item, syncQueue);
      if HeapOrdered(heap) { PoppedQueue(heap, syncQueue); }
      active := active + 1;
      inFlight := inFlight + {Run(item, epoch)};
      if item.id != [] { ids := ids - {item.id}; }
      StartTallies(ledger, started, counter, item);
      ledger := Start(ledger, item);
      started := started + [item];
    }

    /** Start waiting items while fewer than the limit are being processed. */
    method ProcessQueue() returns (ghost sent: seq<Item>)
      requires Valid()
      modifies `syncQueue, `ids, `active, `inFlight, `started, `ledger
      ensures Valid() && started == old(started) + sent && ids <= old(ids)
      ensures ledger.given == old(ledger.given) && ledger.accepted == old(ledger.accepted)
      ensures Started(multiset(old(syncQueue)), old(ids), old(inFlight), sent, epoch, syncQueue, ids, inFlight)
      ensures sent == [] ==> syncQueue == old(syncQueue) && ids == old(ids) && inFlight == old(inFlight)
      ensures active == old(active) + |sent|
        && |sent| == ToStart(old(active), limit, |old(syncQueue)|, paused, disposed)
      ensures Tidy(old(ids), old(syncQueue)) ==> Tidy(ids, syncQueue)
      ensures HeapOrdered(old(syncQueue)) ==> HeapOrdered(syncQueue) && Queue(old(syncQueue)) == sent + Queue(syncQueue)
      ensures HeapOrdered(old(syncQueue)) ==> SentFirst(sent, syncQueue)
      ensures active <= limit || sent == []
      ensures paused || disposed || active >= limit || syncQueue == []
    {
      hide AllOk, HeapOrdered, IdsWait, Queue, Valid, Started, Unique, Tidy, SentFirst;
      WaitingAreUnique();
      sent := [];
      NothingStarted(syncQueue, ids, inFlight, epoch);
      assert [] + Queue(syncQueue) == Queue(syncQueue);
      HeadsAreSentFirst(syncQueue, sent, syncQueue);
      if paused || disposed { return; }
      while active < limit && |syncQueue| > 0
        invariant Valid() && started == old(started) + sent && ids <= old(ids)
        invariant ledger.given == old(ledger.given) && ledger.accepted == old(ledger.accepted)
        invariant active == old(active) + |sent| && (active <= limit || sent == [])
        invariant |old(syncQueue)| == |sent| + |syncQueue|
        invariant sent == [] ==> syncQueue == old(syncQueue) && ids == old(ids) && inFlight == old(inFlight)
        invariant Started(multiset(old(syncQueue)), old(ids), old(inFlight), sent, epoch, syncQueue, ids, inFlight)
        invariant HeapOrdered(old(syncQueue))
          ==> HeapOrdered(syncQueue) && Queue(old(syncQueue)) == sent + Queue(syncQueue)
        decreases limit - active
      {
        ghost var waits, free, runs := syncQueue, ids, inFlight;
        var item := StartNext();
        OneMoreStarted(multiset(old(syncQueue)), old(ids), old(inFlight), sent, epoch, waits,
          free, runs, item, syncQueue);
        assert sent + ([item] + Queue(syncQueue)) == (sent + [item]) + Queue(syncQueue);
        FewerWait(waits, item, syncQueue);
        sent := sent + [item];
      }
      if Tidy(old(ids), old(syncQueue)) {
        StartingKeepsTidy(old(syncQueue), old(ids), old(inFlight), sent, epoch, syncQueue, ids, inFlight);
      }
      if HeapOrdered(old(syncQueue)) { HeadsAreSentFirst(old(syncQueue), sent, syncQueue); }
    }

    method SetConcurrencyLimit(limit: nat)
      requires Valid()
      modifies `limit
      ensures Valid() && this.limit == limit
    {
      this.limit := limit;
    }

    method Pause()
      requires Valid()
      modifies `paused
      ensures Valid() && paused
    {
      paused := true;
    }

    method Resume() returns (ghost sent: seq<Item>)
      requires Valid()
      modifies `paused, `syncQueue, `ids, `active, `inFlight, `started, `ledger
      ensures Valid() && !paused && started == old(started) + sent
      ensures |sent| == ToStart(old(active), limit, |old(syncQueue)|, false, disposed)
      ensures Tidy(old(ids), old(syncQueue)) ==> Tidy(ids, syncQueue)
      ensures Started(multiset(old(syncQueue)), old(ids), old(inFlight), sent, epoch, syncQueue, ids, inFlight)
      ensures HeapOrdered(old(syncQueue)) ==> HeapOrdered(syncQueue) && Queue(old(syncQueue)) == sent + Queue(syncQueue)
    {
      paused := false;
      sent := ProcessQueue();
    }

    // --- Adding ---

    /** A new item joins the queue at its place, unless one with its id waits already. `generated` names one
        that comes without an id. */
    method AddToQueue(r: Request, generated: Name) returns (ghost sent: seq<Item>)
      requires Valid() && generated != []
      modifies `syncQueue, `ids, `active, `inFlight, `started, `counter, `ledger
      ensures Valid() && started == old(started) + sent
      ensures Tidy(old(ids), old(syncQueue)) ==> Tidy(ids, syncQueue)
      ensures var id := if r.id == [] then generated else r.id;
        var x := Item(old(counter), id, r.peer, r.priority, r.retries);
        if old(disposed) || id in old(ids) then
          && sent == [] && syncQueue == old(syncQueue) && ids == old(ids) && inFlight == old(inFlight)
          && counter == old(counter)
          && (!old(disposed) ==> exists y :: y in syncQueue && y.id == id)
        else
          && counter == old(counter) + 1
          && |sent| == ToStart(old(active), limit, |old(syncQueue)| + 1, paused, disposed)
          && Started(multiset(old(syncQueue)) + multiset{x}, old(ids) + {id}, old(inFlight), sent, epoch,
            syncQueue, ids, inFlight)
          && ledger.given == old(ledger.given)[x.number := x.retries]
          && ledger.accepted == old(ledger.accepted)[x.number := cleared]
          && (HeapOrdered(old(syncQueue))
              ==> HeapOrdered(syncQueue) && Insert(Queue(old(syncQueue)), x) == sent + Queue(syncQueue))
    {
      hide Valid, HeapOrdered, Queue, Insert, Started, Tidy, ToStart;
      sent := [];
      if disposed { return; }
      var id := if r.id == [] then generated else r.id;
      if id in ids {
        WhatWaits(id, Item(counter, id, r.peer, r.priority, r.retries));
        return;
      }
      var x := JoinItem(r.(id := id));
      OneMoreWaits(old(syncQueue), x, syncQueue);
      sent := ProcessQueue();
    }

    /** An item takes its number and its place; its id, if it has one, is held. */
    method JoinItem(r: Request) returns (x: Item)
      requires Valid() && (r.id == [] || r.id !in ids)
      modifies `syncQueue, `ids, `counter, `ledger
      ensures Valid() && counter == old(counter) + 1 && x == Item(old(counter), r.id, r.peer, r.priority, r.retries)
      ensures ids == if r.id != [] then old(ids) + {r.id} else old(ids)
      ensures ledger.given == old(ledger.given)[x.number := x.retries]
        && ledger.accepted == old(ledger.accepted)[x.number := cleared]
      ensures Queue(syncQueue) == Insert(Queue(old(syncQueue)), x)
        && multiset(syncQueue) == multiset(old(syncQueue)) + multiset{x}
      ensures HeapOrdered(old(syncQueue)) ==> HeapOrdered(syncQueue)
      ensures Tidy(old(ids), old(syncQueue)) ==> Tidy(ids, syncQueue)
    {
      hide AllOk, HeapOrdered, Queue, Insert, Tallies, Started, Tidy, Unique;
      x := Item(counter, r.id, r.peer, r.priority, r.retries);
      HeapPush(x);
      AcceptKeeps(old(syncQueue), inFlight, timers, counter, ledger, epoch, cleared, x, syncQueue);
      HeapGains(old(syncQueue), x, syncQueue);
      IdsAfterPush(ids, old(syncQueue), x, syncQueue);
      hide IdsWait, Gains;
      if Tidy(old(ids), old(syncQueue)) { JoiningKeepsTidy(ids, old(syncQueue), x, syncQueue); }
      if r.id != [] { ids := ids + {r.id}; }
      AcceptTallies(ledger, started, counter, x, cleared);
      ledger := Accept(ledger, x, cleared);
      counter := counter + 1;
      AreUnique(syncQueue, inFlight, timers, counter, ledger, epoch, cleared);
      PushedQueue(old(syncQueue), x, syncQueue);
    }

    /** A retried item returns at the place its number gives it, unless another with its id waits. */
    method AddAgain(t: Run, generated: Name) returns (ghost sent: seq<Item>)
      requires Valid() && t in timers && t.epoch == epoch && generated != []
      modifies `syncQueue, `ids, `active, `inFlight, `started, `timers, `ledger
      ensures Valid() && started == old(started) + sent && timers == old(timers) - {t}
      ensures ledger.given == old(ledger.given) && ledger.accepted == old(ledger.accepted)
      ensures var x := t.item.(id := if t.item.id == [] then generated else t.item.id);
        if old(disposed) || x.id in old(ids)
          then sent == [] && syncQueue == old(syncQueue) && ids == old(ids) && inFlight == old(inFlight)
        else
          && Unique(multiset(old(syncQueue)) + multiset{x})
          && |sent| == ToStart(old(active), limit, |old(syncQueue)| + 1, paused, disposed)
          && Started(multiset(old(syncQueue)) + multiset{x}, old(ids) + {x.id}, old(inFlight), sent, epoch,
            syncQueue, ids, inFlight)
          && (HeapOrdered(old(syncQueue))
              ==> HeapOrdered(syncQueue) && Insert(Queue(old(syncQueue)), x) == sent + Queue(syncQueue))
    {
      hide AllOk, HeapOrdered, Queue, Tallies, Started;
      sent := [];
      timers := timers - {t};
      DropKeeps(syncQueue, inFlight, old(timers), counter, ledger, epoch, cleared, t);
      if disposed { return; }
      var x := t.item.(id := if t.item.id == [] then generated else t.item.id);
      if x.id in ids { return; }
      HeapPush(x);
      ReturnKeeps(old(syncQueue), inFlight, old(timers), counter, ledger, epoch, cleared, t, x, syncQueue);
      HeapGains(old(syncQueue), x, syncQueue);
      IdsAfterPush(ids, old(syncQueue), x, syncQueue);
      hide IdsWait, Gains;
      OneMoreWaits(old(syncQueue), x, syncQueue);
      ids := ids + {x.id};
      AreUnique(syncQueue, inFlight, timers, counter, ledger, epoch, cleared);
      PushedQueue(old(syncQueue), x, syncQueue);
      sent := ProcessQueue();
    }

    // --- Ending and retrying ---

    /** The processor is done with an item: a failed one waits for its timer, at most three times. */
    method Settle(r: Run, success: bool) returns (ghost sent: seq<Item>)
      requires Valid() && r in inFlight
      modifies `syncQueue, `ids, `active, `inFlight, `started, `timers, `retrying, `ledger
      ensures Valid() && started == old(started) + sent
      ensures ledger.given == old(ledger.given) && ledger.accepted == old(ledger.accepted)
      ensures timers == if !success && r.item.retries < 3 && !disposed
        then old(timers) + {Run(r.item.(retries := r.item.retries + 1), r.epoch)} else old(timers)
      ensures retrying
        == if !success && r.item.retries < 3 && !disposed then old(retrying) + {r.item.(retries := r.item.retries + 1)}
        else old(retrying)
      ensures var free :=
        if !success && r.item.retries < 3 && !disposed then old(ids) else Released(old(ids), r, epoch);
        Started(multiset(old(syncQueue)), free, old(inFlight) - {r}, sent, epoch, syncQueue, ids, inFlight)
      ensures |sent| == ToStart(old(active) - 1, limit, |old(syncQueue)|, paused, disposed)
        && active == old(active) - 1 + |sent|
      ensures HeapOrdered(old(syncQueue)) ==> HeapOrdered(syncQueue) && Queue(old(syncQueue)) == sent + Queue(syncQueue)
      ensures Tidy(old(ids), old(syncQueue)) ==>
        (Tidy(ids, syncQueue)
         <==> !((success || r.item.retries >= 3 || disposed) && Frees(old(ids), r, epoch)
                && Waits(syncQueue, r.item.id)))
      ensures HeapOrdered(old(syncQueue)) ==>
        (Waits(syncQueue, r.item.id)
         <==> !NonePast(Queue(old(syncQueue)),
           ToStart(old(active) - 1, limit, |old(syncQueue)|, paused, disposed), r.item.id))
    {
      hide Valid, HeapOrdered, Queue, Started, Tidy, Unique, Waits, ToStart, NonePast;
      WaitingAreUnique();
      Ended(r, success);
      sent := ProcessQueue();
      if Tidy(old(ids), old(syncQueue)) && (success || r.item.retries >= 3 || disposed) && r.item.id != []
        && r.epoch == epoch {
        FreeingTidy(old(syncQueue), old(ids), r.item.id, old(inFlight) - {r}, sent, epoch, syncQueue, ids, inFlight);
      }
      if HeapOrdered(old(syncQueue)) { QueueTells(Queue(old(syncQueue)), sent, syncQueue, r.item.id); }
    }

    /** It is no longer being processed: it is finished with, or its timer runs. */
    method Ended(r: Run, success: bool)
      requires Valid() && r in inFlight
      modifies `ids, `active, `inFlight, `timers, `retrying
      ensures Valid() && inFlight == old(inFlight) - {r} && active == old(active) - 1
      ensures timers == if !success && r.item.retries < 3 && !disposed
        then old(timers) + {Run(r.item.(retries := r.item.retries + 1), r.epoch)} else old(timers)
      ensures retrying
        == if !success && r.item.retries < 3 && !disposed then old(retrying) + {r.item.(retries := r.item.retries + 1)}
        else old(retrying)
      ensures ids == if !success && r.item.retries < 3 && !disposed then old(ids) else Released(old(ids), r, epoch)
    {
      hide AllOk, Tallies;
      if !success && r.item.retries < 3 && !disposed {
        var again := r.item.(retries := r.item.retries + 1);
        RetryKeeps(syncQueue, inFlight, timers, counter, ledger, epoch, cleared, r);
        retrying := retrying + {again};
        timers := timers + {Run(again, r.epoch)};
      } else {
        DropKeeps(syncQueue, inFlight, timers, counter, ledger, epoch, cleared, r);
        Release(r);
      }
      active := active - 1;
      inFlight := inFlight - {r};
    }

    /** The id of an item may be added again, unless the queue was cleared since the item was taken. */
    method Release(r: Run)
      modifies `ids
      ensures ids == Released(old(ids), r, epoch)
    {
      if r.item.id != [] && r.epoch == epoch { ids := ids - {r.item.id}; }
    }

    /** A retry timer fires: its item returns, even if another with its id waits by now, unless the queue was
        cleared or disposed. */
    method FireTimer(t: Run, generated: Name) returns (ghost sent: seq<Item>)
      requires Valid() && t in timers && generated != []
      modifies `syncQueue, `ids, `active, `inFlight, `started, `timers, `retrying, `ledger
      ensures Valid() && started == old(started) + sent && timers == old(timers) - {t}
        && retrying == old(retrying) - {t.item}
      ensures Tidy(old(ids), old(syncQueue))
        ==> (Tidy(ids, syncQueue) <==> !(Frees(old(ids), t, epoch) && Waits(syncQueue, t.item.id)))
      ensures HeapOrdered(old(syncQueue)) && Frees(old(ids), t, epoch) && !disposed ==>
        (Waits(syncQueue, t.item.id)
         <==> !NonePast(Insert(Queue(old(syncQueue)), t.item),
           ToStart(old(active), limit, |old(syncQueue)| + 1, paused, disposed), t.item.id))
      ensures ledger.given == old(ledger.given) && ledger.accepted == old(ledger.accepted)
      ensures var x := t.item.(id := if t.item.id == [] then generated else t.item.id);
        if t.epoch != epoch || old(disposed) || (t.item.id == [] && generated in old(ids)) then
          && sent == [] && syncQueue == old(syncQueue)
          && ids == Released(old(ids), t, epoch) && inFlight == old(inFlight)
        else
          && |sent| == ToStart(old(active), limit, |old(syncQueue)| + 1, paused, disposed)
          && Started(multiset(old(syncQueue)) + multiset{x}, old(ids) + {x.id}, old(inFlight), sent, epoch,
            syncQueue, ids, inFlight)
          && (HeapOrdered(old(syncQueue))
              ==> HeapOrdered(syncQueue) && Insert(Queue(old(syncQueue)), x) == sent + Queue(syncQueue))
    {
      hide AllOk, HeapOrdered, Queue, Tallies, Started, Tidy, Unique, Insert, NonePast, Waits, ToStart;
      WaitingAreUnique();
      sent := [];
      retrying := retrying - {t.item};
      Release(t);
      if t.epoch == epoch {
        ghost var id := if t.item.id == [] then generated else t.item.id;
        assert ids + {id} == old(ids) + {id};
        sent := AddAgain(t, generated);
        if HeapOrdered(old(syncQueue)) && Frees(old(ids), t, epoch) && !disposed {
          QueueTells(Insert(Queue(old(syncQueue)), t.item), sent, syncQueue, t.item.id);
        }
        if Tidy(old(ids), old(syncQueue)) {
          if disposed {
            NothingStarted(syncQueue, ids, inFlight, epoch);
            if Frees(old(ids), t, epoch) {
              FreeingTidy(syncQueue, old(ids), id, inFlight, [], epoch, syncQueue, ids, inFlight);
            }
          } else if t.item.id != [] || generated !in old(ids) {
            ReturningTidy(old(syncQueue), old(ids), t.item.(id := id), old(inFlight), sent, epoch,
              syncQueue, ids, inFlight);
          }
        }
      } else {
        DropKeeps(syncQueue, inFlight, timers, counter, ledger, epoch, cleared, t);
        timers := timers - {t};
      }
    }

    // --- Clearing ---

    /** Nothing waits any more; what is being processed may finish, and timers that still fire bring nothing back. */
    method Clear()
      requires Valid()
      modifies `syncQueue, `ids, `retrying, `epoch, `cleared
      ensures Valid() && syncQueue == [] && ids == {} && retrying == {} && epoch == old(epoch) + 1
        && cleared == old(cleared) + 1
      ensures Tidy(ids, syncQueue) && forall t | t in timers :: t.epoch < epoch
    {
      hide AllOk, Tallies, IdsWait, Tidy;
      TimersAreOld(syncQueue, inFlight, timers, counter, ledger, epoch, cleared);
      EmptyIsTidy();
      NoIdsWait();
      ClearKeeps(syncQueue, inFlight, timers, counter, ledger, epoch, cleared);
      epoch := epoch + 1;
      cleared := cleared + 1;
      syncQueue, ids, retrying := [], {}, {};
    }

    method Dispose()
      requires Valid()
      modifies `syncQueue, `ids, `retrying, `epoch, `cleared, `disposed
      ensures Valid() && disposed && syncQueue == [] && ids == {} && retrying == {} && Tidy(ids, syncQueue)
      ensures forall t | t in timers :: t.epoch < epoch
    {
      disposed := true;
      Clear();
    }

    /** One peer's waiting items are dropped; no timer set before brings anything back, whoever its item is for. */
    method ClearForPeer(peer: Name)
      requires Valid()
      modifies `syncQueue, `ids, `retrying, `epoch
      ensures Valid() && syncQueue == Kept(old(syncQueue), peer) && retrying == KeptOf(old(retrying), peer)
        && ids == IdsOf(syncQueue)
      ensures forall x :: x in syncQueue <==> x in old(syncQueue) && x.peer != To(peer)
      ensures forall x :: x in retrying <==> x in old(retrying) && x.peer != To(peer)
      ensures epoch == old(epoch) + 1 && forall t | t in timers :: t.epoch < epoch
      ensures Tidy(old(ids), old(syncQueue)) ==> Tidy(ids, syncQueue)
      ensures HeapOrdered(old(syncQueue)) && KeepsShape(Drops(old(syncQueue), peer)) ==> HeapOrdered(syncQueue)
    {
      hide AllOk, Tallies, Kept, IdsWait, IdsOf, KeptOf, HeapOrdered, KeepsShape;
      if HeapOrdered(syncQueue) && KeepsShape(Drops(syncQueue, peer)) { ShapeKeepsOrder(syncQueue, peer); }
      if Tidy(ids, syncQueue) { KeptIsTidy(syncQueue, peer); }
      DropPeerKeeps(syncQueue, inFlight, timers, counter, ledger, epoch, cleared, peer);
      KeptIs(syncQueue, peer);
      KeptOfIs(retrying, peer);
      epoch := epoch + 1;
      syncQueue := Kept(syncQueue, peer);
      retrying := KeptOf(retrying, peer);
      ids := IdsOf(syncQueue);
    }

    // --- Loading ---

    /** What was saved replaces what waits; of items with one id, the first. */
    method LoadQueue(saved: seq<Request>) returns (ghost sent: seq<Item>)
      requires Valid()
      modifies `syncQueue, `ids, `active, `inFlight, `started, `counter, `ledger
      ensures Valid() && started == old(started) + sent && Tidy(ids, syncQueue)
      ensures HeapOrdered(syncQueue) && Queue(Loaded(saved, old(counter))) == sent + Queue(syncQueue)
      ensures var loaded := Loaded(saved, old(counter));
        Started(multiset(loaded), IdsOf(loaded), old(inFlight), sent, epoch, syncQueue, ids, inFlight)
    {
      hide Valid, HeapOrdered, Queue, Loaded, Started, Tidy, IsLoaded;
      NoneLoaded(old(counter));
      Empty();
      for i := 0 to |saved|
        invariant Valid() && HeapOrdered(syncQueue) && Tidy(ids, syncQueue)
        invariant IsLoaded(saved[..i], old(counter), syncQueue, ids, counter)
        modifies `syncQueue, `ids, `counter, `ledger
      {
        var r := saved[i];
        assert saved[..i + 1] == saved[..i] + [r];
        if r.id == [] || r.id !in ids {
          ghost var waits, held := syncQueue, ids;
          var x := JoinItem(r);
          OneMoreLoaded(saved[..i], r, old(counter), waits, held, x, syncQueue);
        } else {
          OnePassedOver(saved[..i], r, old(counter), syncQueue, ids, counter);
        }
      }
      assert saved[..|saved|] == saved;
      AllLoaded(saved, old(counter), syncQueue, ids, counter);
      sent := ProcessQueue();
    }

    method Empty()
      requires Valid()
      modifies `syncQueue, `ids
      ensures Valid() && syncQueue == [] && ids == {}
    {
      hide AllOk, Tallies, IdsWait;
      NoIdsWait();
      FewerKeeps(syncQueue, inFlight, timers, counter, ledger, epoch, cleared, []);
      syncQueue, ids := [], {};
    }

    // --- What holds whenever no method is running ---

    lemma WaitingAreUnique()
      requires Valid()
      ensures Unique(multiset(syncQueue))
    {
      AreUnique(syncQueue, inFlight, timers, counter, ledger, epoch, cleared);
      hide *;
    }

    /** An item accepted with no retries is handed to the processor four times at most. */
    lemma StartedAtMostFourTimes(n: nat)
      requires Valid() && n in ledger.given
      ensures StartsOf(started, n) <= if ledger.given[n] < 3 then 4 - ledger.given[n] else 1
    {
      assert StartsOf(started, n) == ledger.starts[n];
    }

    /** A refused id waits in the queue; as many items are being processed as were counted; what waits was
        accepted since the queue was last cleared. */
    lemma WhatWaits(id: Name, x: Item)
      requires Valid()
      ensures id in ids ==> exists y :: y in syncQueue && y.id == id
      ensures x in syncQueue ==> x.number in ledger.accepted && ledger.accepted[x.number] == cleared
    {
      assert Current(ledger, syncQueue, inFlight, timers, epoch, cleared);
    }
  }

  /** Nothing in the heap has a higher priority than its first item, or the same and an earlier number. */
  lemma TopIsHighest(h: seq<Item>)
    requires h != [] && HeapOrdered(h)
    ensures forall y | y in h ::
      h[0].priority > y.priority || (h[0].priority == y.priority && h[0].number <= y.number)
  {
    hide HeapOrdered;
    forall k | 0 <= k < |h| ensures !Precedes(h[k], h[0]) { TopPrecedesAll(h, k); }
  }

  lemma FewerWait(waits: seq<Item>, x: Item, waits': seq<Item>)
    requires multiset(waits) == multiset{x} + multiset(waits')
    ensures |waits| == 1 + |waits'|
  {
    assert |multiset(waits)| == |waits| && |multiset(waits')| == |waits'|;
  }

  lemma OneMoreWaits(waits: seq<Item>, x: Item, waits': seq<Item>)
    requires multiset(waits') == multiset(waits) + multiset{x}
    ensures |waits'| == |waits| + 1
  {
    FewerWait(waits', x, waits);
  }

  /** The id of `r` is held, and would be freed. */
  ghost predicate Frees(ids: set<Name>, r: Run, epoch: nat) {
    r.epoch == epoch && r.item.id != [] && r.item.id in ids
  }

  lemma NoIdsWait()
    ensures IdsWait({}, [])
  {}

  /** What the heap, the ids and the counter are once `saved` was loaded into an empty queue. */
  ghost predicate IsLoaded(saved: seq<Request>, begun: nat, heap: seq<Item>, ids: set<Name>, counter: nat) {
    var loaded := Loaded(saved, begun);
    && (forall id :: id in ids <==> id != [] && SavedId(saved, id)) && ids == IdsOf(loaded)
    && multiset(heap) == multiset(loaded) && Queue(heap) == Queue(loaded) && counter == begun + |loaded|
  }

  lemma NoneLoaded(counter: nat)
    ensures IsLoaded([], counter, [], {}, counter) && HeapOrdered([]) && Tidy({}, [])
  {}

  lemma AllLoaded(saved: seq<Request>, begun: nat, heap: seq<Item>, ids: set<Name>, counter: nat)
    requires IsLoaded(saved, begun, heap, ids, counter)
    ensures var loaded := Loaded(saved, begun);
      ids == IdsOf(loaded) && multiset(heap) == multiset(loaded) && Queue(heap) == Queue(loaded)
  {
    hide Loaded, Queue, SavedId;
  }

  lemma OnePassedOver(saved: seq<Request>, r: Request, begun: nat, heap: seq<Item>, ids: set<Name>, counter: nat)
    requires IsLoaded(saved, begun, heap, ids, counter) && r.id != [] && r.id in ids
    ensures IsLoaded(saved + [r], begun, heap, ids, counter)
  {
    hide Loaded, Queue, SavedId, IdsOf;
    LoadOne(saved, r, begun);
  }

  lemma OneMoreLoaded(saved: seq<Request>, r: Request, begun: nat, heap: seq<Item>, ids: set<Name>, x: Item,
          heap': seq<Item>)
    requires IsLoaded(saved, begun, heap, ids, x.number) && (r.id == [] || r.id !in ids)
    requires x == Item(x.number, r.id, r.peer, r.priority, r.retries)
    requires multiset(heap') == multiset(heap) + multiset{x} && Queue(heap') == Insert(Queue(heap), x)
    ensures IsLoaded(saved + [r], begun, heap', if r.id != [] then ids + {r.id} else ids, x.number + 1)
  {
    hide Loaded, Queue, SavedId, Insert, IdsOf;
    LoadOne(saved, r, begun);
    PushedOnList(Loaded(saved, begun), x);
    IdsOfMore(Loaded(saved, begun), x);
  }

  lemma TimersAreOld(heap: seq<Item>, runs: set<Run>, timers: set<Run>, counter: nat, l: Ledger, epoch: nat,
          cleared: nat)
    requires AllOk(heap, runs, timers, counter, l, epoch, cleared)
    ensures forall t | t in timers :: t.epoch <= epoch
  {}

  /** The ids that may not be added, with that of `r` freed, unless the queue was cleared since it was taken. */
  function Released(ids: set<Name>, r: Run, epoch: nat): set<Name> {
    if r.item.id != [] && r.epoch == epoch then ids - {r.item.id} else ids
  }

  lemma AreUnique(heap: seq<Item>, runs: set<Run>, timers: set<Run>, counter: nat, l: Ledger, epoch: nat, cleared: nat)
    requires AllOk(heap, runs, timers, counter, l, epoch, cleared)
    ensures Unique(multiset(heap))
  {}

  lemma StartSiftUp(h: seq<Item>, x: Item)
    ensures multiset(h + [x]) == multiset(h) + multiset{x}
    ensures HeapOrdered(h) ==> SiftingUp(h + [x], |h|)
  {
    if HeapOrdered(h) {
      forall k | 0 < k < |h| ensures Above(h + [x], k) { assert Above(h, k); }
    }
  }

  lemma StartSiftDown(h: seq<Item>)
    requires h != []
    ensures var rest := h[..|h| - 1];
      if rest == [] then multiset(h) == multiset{h[0]}
      else
        multiset(rest[0 := h[|h| - 1]]) == multiset(h) - multiset{h[0]}
        && (HeapOrdered(h) ==> SiftingDown(rest[0 := h[|h| - 1]], 0))
  {
    var last, rest := h[|h| - 1], h[..|h| - 1];
    assert h == rest + [last];
    if rest != [] && HeapOrdered(h) {
      forall k | 0 < k < |rest| && ParentOf(k) != 0 ensures Above(rest[0 := last], k) { assert Above(h, k); }
    }
  }

  /** Of an item and its children, the one chosen is not preceded by the others. */
  lemma BestChosen(h: seq<Item>, i: nat, best: nat)
    requires i < |h|
    requires var left, right := 2 * i + 1, 2 * i + 2;
      var first := if left < |h| && Precedes(h[left], h[i]) then left else i;
      best == if right < |h| && Precedes(h[right], h[first]) then right else first
    ensures IsBest(h, i, best)
  {
    forall k | 0 < k < |h| && ParentOf(k) == i ensures k == 2 * i + 1 || k == 2 * i + 2 {}
  }

  // --- Two ways to two waiting items of one id ---

  lemma OneStarted(waited: multiset<Item>, x: Item, ids: set<Name>, sent: seq<Item>, epoch: nat, waits: seq<Item>,
          idsLeft: set<Name>, runs: set<Run>)
    requires waited == multiset{x} && Started(waited, ids, {}, sent, epoch, waits, idsLeft, runs) && |sent| == 1
    ensures waits == [] && idsLeft == ids - (if x.id != [] then {x.id} else {}) && runs == {Run(x, epoch)}
  {
    assert |waited| == 1 && |multiset(sent)| == 1 && |multiset(waits)| == |waits|;
    assert sent[0] in multiset(sent);
    assert sent[0] in waited && sent == [x];
    assert Runs([x], epoch) == {Run(x, epoch)};
    assert IdsOf([x]) == if x.id != [] then {x.id} else {};
  }

  lemma NoneStarted(waited: multiset<Item>, ids: set<Name>, ran: set<Run>, sent: seq<Item>, epoch: nat,
          waits: seq<Item>, idsLeft: set<Name>, runs: set<Run>)
    requires Started(waited, ids, ran, sent, epoch, waits, idsLeft, runs) && sent == []
    ensures multiset(waits) == waited && idsLeft == ids && runs == ran
  {
    assert Runs([], epoch) == {} && IdsOf([]) == {};
  }

  lemma BothWait(heap: seq<Item>, x: Item, y: Item, ids: set<Name>)
    requires multiset(heap) == multiset{x, y} && x != y && x.id == y.id && x.id != []
    ensures |heap| == 2 && !Tidy(ids, heap) && forall z | z in heap :: z.id == x.id
  {
    InHeap(heap, x);
    InHeap(heap, y);
    assert |multiset(heap)| == |heap|;
    forall z | z in heap ensures z.id == x.id { InHeap(heap, z); }
  }

  /** An item is being processed, with nothing waiting. */
  method OneBeingProcessed(r: Request) returns (q: QueueManager, run: Run)
    requires r.id != []
    ensures fresh(q) && q.Valid() && q.syncQueue == [] && q.ids == {} && q.timers == {} && q.epoch == 0 && !q.paused
      && !q.disposed && q.limit == 1
    ensures run == Run(Item(0, r.id, r.peer, r.priority, r.retries), 0) && q.inFlight == {run} && q.counter == 1
  {
    hide QueueManager.Valid, Started, Tidy;
    q := new QueueManager(1);
    var sent := q.AddToQueue(r, r.id);
    var x := Item(0, r.id, r.peer, r.priority, r.retries);
    OneStarted(multiset([]) + multiset{x}, x, {} + {r.id}, sent, 0, q.syncQueue, q.ids, q.inFlight);
    run := Run(x, 0);
  }

  /** It fails, and waits for its timer. */
  method OneFailed(r: Request) returns (q: QueueManager, t: Run)
    requires r.id != [] && r.retries < 3
    ensures fresh(q) && q.Valid() && q.syncQueue == [] && q.ids == {} && q.inFlight == {} && q.epoch == 0 && !q.disposed
      && q.counter == 1
    ensures t == Run(Item(0, r.id, r.peer, r.priority, r.retries + 1), 0) && q.timers == {t}
  {
    hide QueueManager.Valid, Started, Tidy, Waits, NonePast, HeapOrdered, Queue, Insert;
    var run;
    q, run := OneBeingProcessed(r);
    var sent := q.Settle(run, false);
    NoneStarted(multiset([]), {}, {run} - {run}, sent, 0, q.syncQueue, q.ids, q.inFlight);
    assert |multiset(q.syncQueue)| == |q.syncQueue|;
    t := Run(run.item.(retries := r.retries + 1), 0);
  }

  /** While its timer runs another is added with its id. */
  method FailedAndAddedAgain(r: Request) returns (q: QueueManager, t: Run, y: Item)
    requires r.id != [] && r.retries < 3
    ensures fresh(q) && q.Valid() && q.paused && !q.disposed && q.epoch == 0
    ensures t == Run(Item(0, r.id, r.peer, r.priority, r.retries + 1), 0) && q.timers == {t}
    ensures y == Item(1, r.id, r.peer, r.priority, r.retries) && multiset(q.syncQueue) == multiset{y} && q.ids == {r.id}
      && q.inFlight == {}
  {
    hide QueueManager.Valid, Started, Tidy, Waits, NonePast, HeapOrdered, Queue, Insert;
    q, t := OneFailed(r);
    q.Pause();
    y := Item(1, r.id, r.peer, r.priority, r.retries);
    var sent := q.AddToQueue(r, r.id);
    NoneStarted(multiset([]) + multiset{y}, {} + {r.id}, {}, sent, 0, q.syncQueue, q.ids, q.inFlight);
  }

  /** Then its timer fires: the two wait side by side. */
  method RetryJoinsNewer(r: Request) returns (q: QueueManager)
    requires r.id != [] && r.retries < 3
    ensures fresh(q) && q.Valid() && |q.syncQueue| == 2 && !Tidy(q.ids, q.syncQueue)
    ensures forall x | x in q.syncQueue :: x.id == r.id
  {
    hide QueueManager.Valid, Started, Tidy, Waits, NonePast, HeapOrdered, Queue, Insert;
    var t, y;
    q, t, y := FailedAndAddedAgain(r);
    ghost var waited, ids := multiset(q.syncQueue), q.ids;
    var sent := q.FireTimer(t, r.id);
    NoneStarted(waited + multiset{t.item}, ids + {r.id}, {}, sent, 0, q.syncQueue, q.ids, q.inFlight);
    BothWait(q.syncQueue, t.item, y, q.ids);
  }

  /** While it is processed another is added with its id. */
  method AddedMeanwhile(r: Request) returns (q: QueueManager, run: Run, x: Item)
    requires r.id != []
    ensures fresh(q) && q.Valid() && q.paused && !q.disposed && q.epoch == 0 && q.counter == 2
    ensures run.item.id == r.id && run.epoch == 0 && q.inFlight == {run}
    ensures x == Item(1, r.id, r.peer, r.priority, r.retries) && multiset(q.syncQueue) == multiset{x} && q.ids == {r.id}
  {
    hide QueueManager.Valid, Started, Tidy, Waits, NonePast, HeapOrdered, Queue, Insert;
    q, run := OneBeingProcessed(r);
    q.Pause();
    x := Item(1, r.id, r.peer, r.priority, r.retries);
    var sent := q.AddToQueue(r, r.id);
    NoneStarted(multiset([]) + multiset{x}, {r.id}, {run}, sent, 0, q.syncQueue, q.ids, q.inFlight);
  }

  /** Then it succeeds, which frees the id of the one that waits, and a third is let in. */
  method SuccessLetsAnotherIn(r: Request) returns (q: QueueManager)
    requires r.id != []
    ensures fresh(q) && q.Valid() && |q.syncQueue| == 2 && !Tidy(q.ids, q.syncQueue)
    ensures forall x | x in q.syncQueue :: x.id == r.id
  {
    hide QueueManager.Valid, Started, Tidy, Waits, NonePast, HeapOrdered, Queue, Insert;
    var run, x;
    q, run, x := AddedMeanwhile(r);
    var y := Item(2, r.id, r.peer, r.priority, r.retries);
    var sent := q.Settle(run, true);
    NoneStarted(multiset{x}, Released({r.id}, run, 0), {run} - {run}, sent, 0, q.syncQueue, q.ids, q.inFlight);
    assert q.ids == {} && q.inFlight == {};
    ghost var waited := multiset(q.syncQueue);
    sent := q.AddToQueue(r, r.id);
    NoneStarted(waited + multiset{y}, {} + {r.id}, {}, sent, 0, q.syncQueue, q.ids, q.inFlight);
    BothWait(q.syncQueue, x, y, q.ids);
  }
}
