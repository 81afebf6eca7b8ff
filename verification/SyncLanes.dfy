/** Every event keeps the invariant of the lane it happens on. */
module SyncLanes {
  import opened Basics
  import opened Pulls
  import opened Serves
  import opened Parties
  import opened SyncRuns

  lemma ListsSame(owner: Owner, owner': Owner, ids: set<BatchId>, id: BatchId, paths: seq<Path>)
    requires SameBatches(owner, owner', ids) && id in ids && Lists(owner, id, paths)
    ensures Lists(owner', id, paths)
  {
    forall x ensures x in paths <==> x in owner' && owner'[x] == id {
      assert (x in owner && owner[x] == id) <==> (x in owner' && owner'[x] == id);
    }
  }

  // --- Searching a sequence of messages ---

  lemma InRequestsJoined(a: seq<Request>, b: seq<Request>, id: BatchId)
    ensures InRequests(a + b, id) <==> InRequests(a, id) || InRequests(b, id)
  {
    if InRequests(a, id) {
      var k :| 0 <= k < |a| && a[k].id == id;
      assert (a + b)[k].id == id;
    }
    if InRequests(b, id) {
      var k :| 0 <= k < |b| && b[k].id == id;
      assert (a + b)[|a| + k].id == id;
    }
  }

  lemma InRepliesJoined(a: seq<Reply>, b: seq<Reply>, id: BatchId)
    ensures InReplies(a + b, id) <==> InReplies(a, id) || InReplies(b, id)
  {
    if InReplies(a, id) {
      var k :| 0 <= k < |a| && a[k].id == id;
      assert (a + b)[k].id == id;
    }
    if InReplies(b, id) {
      var k :| 0 <= k < |b| && b[k].id == id;
      assert (a + b)[|a| + k].id == id;
    }
  }

  lemma InRequestsWithout(a: seq<Request>, k: nat, id: BatchId)
    requires k < |a|
    ensures InRequests(a, id) ==> InRequests(Without(a, k), id) || id == a[k].id
  {
    if InRequests(a, id) {
      var j :| 0 <= j < |a| && a[j].id == id;
      if j != k { assert Without(a, k)[if j < k then j else j - 1].id == id; }
    }
  }

  lemma InRepliesWithout(a: seq<Reply>, k: nat, id: BatchId)
    requires k < |a|
    ensures InReplies(a, id) ==> InReplies(Without(a, k), id) || id == a[k].id
  {
    if InReplies(a, id) {
      var j :| 0 <= j < |a| && a[j].id == id;
      if j != k { assert Without(a, k)[if j < k then j else j - 1].id == id; }
    }
  }

  lemma WithoutIs<T>(a: seq<T>, k: nat)
    requires k < |a|
    ensures |Without(a, k)| == |a| - 1
    ensures forall j | 0 <= j < |a| - 1 :: Without(a, k)[j] == a[if j < k then j else j + 1]
  {}

  // --- The puller requests ---

  lemma RequestsStayPlaced(p: Puller, s: Server, lane: Lane, q: Puller, owner': Owner, requests: seq<Request>)
    requires OwnerOk(p, lane.owner) && Placed(p, s, lane) && Sends(p, lane.owner, q, owner', requests)
    ensures Placed(q, s, lane.(requests := lane.requests + requests, owner := owner'))
  {
    var all := lane.requests + requests;
    forall id, paths | id in p.active && Lists(lane.owner, id, paths)
      ensures Lists(owner', id, paths)
    {
      ListsSame(lane.owner, owner', p.active, id, paths);
    }
    forall id | id in q.active
      ensures InRequests(all, id) || id in s.serving || InReplies(lane.replies, id)
    {
      InRequestsJoined(lane.requests, requests, id);
    }
    forall k | 0 <= k < |all|
      ensures all[k] == if k < |lane.requests| then lane.requests[k] else requests[k - |lane.requests|]
    {}
  }

  lemma SameSlots(p: Puller, q: Puller)
    requires q.pending == p.pending && q.retries == p.retries
    ensures forall x :: Slot(q, x) == Slot(p, x)
  {}

  lemma LaneRequests(p: Puller, s: Server, lane: Lane)
    requires LaneInv(p, s, lane)
    ensures var (q, requests) := RequestAll(p);
      && LaneInv(q, s, lane.(requests := lane.requests + requests, owner := AskAll(lane.owner, requests)))
      && q.pending == p.pending && (p.pending != {} ==> q.active != {}) && p.active <= q.active && q.cfg.maxBatches > 0
      && (requests == [] ==> q.active == p.active)
      && (forall x :: Slot(q, x) == Slot(p, x))
  {
    RequestAllKeeps(p, lane.owner);
    var (q, requests) := RequestAll(p);
    SameSlots(p, q);
    RequestsStayPlaced(p, s, lane, q, AskAll(lane.owner, requests), requests);
    if requests == [] {
      assert forall id | id in q.active :: id in p.active;
    }
  }

  // --- A request arrives ---

  lemma RequestArrives(p: Puller, s: Server, lane: Lane, k: nat, vault: Path -> Entry)
    requires LaneInv(p, s, lane) && k < |lane.requests|
    ensures var r := lane.requests[k];
      var w := Serve(s, r.id, r.paths, vault);
      LaneInv(p, w.server, lane.(requests := Without(lane.requests, k), asked := lane.asked[r.id := r.paths],
                                 tasks := lane.tasks + w.tasks, replies := lane.replies + w.replies))
      && (w.replies == [] ==> w.server.serving != map[])
  {
    var r := lane.requests[k];
    var w := Serve(s, r.id, r.paths, vault);
    ServeKeeps(s, lane.tasks, r.id, r.paths, vault, lane.asked, lane.delivered, ToSet(lane.plan));
    ArrivalRequests(p, s, lane, k, w.server);
    ArrivalCovered(p, s, lane, k, w.server, w.replies);
    ArrivalReplies(p, s, lane, r, w.server, w.replies, lane.tasks + w.tasks);
  }

  lemma ArrivalRequests(p: Puller, s: Server, lane: Lane, k: nat, s': Server)
    requires k < |lane.requests| && Placed(p, s, lane) && OwnerOk(p, lane.owner)
      && OthersServed(s, s', lane.requests[k].id)
    ensures var r := lane.requests[k]; var asked' := lane.asked[r.id := r.paths];
      && RequestsPlaced(p, lane.owner, asked', Without(lane.requests, k)) && ServingPlaced(p, lane.owner, asked', s')
      && (forall id | id in asked' :: id < p.nextId)
      && r.id in p.active && r.id !in lane.asked && Lists(lane.owner, r.id, r.paths)
  {
    var rest := Without(lane.requests, k);
    WithoutIs(lane.requests, k);
    forall j | 0 <= j < |rest|
      ensures rest[j].id != lane.requests[k].id && rest[j] in lane.requests
    {
      assert rest[j] == lane.requests[if j < k then j else j + 1];
    }
  }

  lemma ArrivalCovered(p: Puller, s: Server, lane: Lane, k: nat, s': Server, replies: seq<Reply>)
    requires k < |lane.requests| && Covered(p, s, lane.requests, lane.replies)
    requires OthersServed(s, s', lane.requests[k].id)
    requires replies == [] ==> lane.requests[k].id in s'.serving
    requires replies != [] ==> replies[0].id == lane.requests[k].id
    ensures Covered(p, s', Without(lane.requests, k), lane.replies + replies)
  {
    forall id | id in p.active
      ensures InRequests(Without(lane.requests, k), id) || id in s'.serving || InReplies(lane.replies + replies, id)
    {
      InRequestsWithout(lane.requests, k, id);
      InRepliesJoined(lane.replies, replies, id);
    }
  }

  lemma ArrivalReplies(p: Puller, s: Server, lane: Lane, r: Request, s': Server, replies: seq<Reply>, tasks: seq<Task>)
    requires RepliesPlaced(p, lane.owner, lane.asked, s, lane.replies)
    requires r.id in p.active && r.id !in lane.asked && Lists(lane.owner, r.id, r.paths)
    requires RepliesOk(replies, r.id, r.paths, s', tasks) && OthersServed(s, s', r.id)
    ensures RepliesPlaced(p, lane.owner, lane.asked[r.id := r.paths], s', lane.replies + replies)
  {
    var all, asked' := lane.replies + replies, lane.asked[r.id := r.paths];
    forall k | 0 <= k < |all|
      ensures ReplyPlaced(p, lane.owner, asked', s', all[k])
    {
      if k < |lane.replies| {
        assert ReplyPlaced(p, lane.owner, lane.asked, s, lane.replies[k]) && all[k] == lane.replies[k];
      } else {
        assert all[k] == replies[0];
      }
    }
    forall k, l | 0 <= k < l < |all|
      ensures all[k].id != all[l].id
    {
      assert ReplyPlaced(p, lane.owner, lane.asked, s, lane.replies[k]);
      assert all[k] == lane.replies[k];
    }
  }

  // --- A task ends ---

  lemma TaskEnds(p: Puller, s: Server, lane: Lane, k: nat, success: bool)
    requires LaneInv(p, s, lane) && k < |lane.tasks|
    ensures var t := lane.tasks[k];
      var (s', replies) := RecordTask(s, t.id, t.paths, success, true);
      LaneInv(p, s', lane.(tasks := Without(lane.tasks, k), delivered := DeliveredBy(lane.delivered, t.paths, success),
          replies := lane.replies + replies))
      && (replies == [] ==> s'.serving != map[])
  {
    var t := lane.tasks[k];
    var (s', replies) := RecordTask(s, t.id, t.paths, success, true);
    TaskEndKeeps(s, lane.tasks, k, success, lane.asked, lane.delivered, ToSet(lane.plan));
    TaskEndOfBatch(s, lane.tasks, k, success, lane.asked[t.id]);
    EndCovered(p, s, lane, t.id, s', replies);
    EndReplies(p, s, lane, t.id, s', replies, Without(lane.tasks, k));
  }

  lemma EndCovered(p: Puller, s: Server, lane: Lane, id: BatchId, s': Server, replies: seq<Reply>)
    requires Covered(p, s, lane.requests, lane.replies) && OthersServed(s, s', id)
    requires replies == [] ==> id in s'.serving
    requires replies != [] ==> replies[0].id == id
    ensures Covered(p, s', lane.requests, lane.replies + replies)
  {
    forall other | other in p.active
      ensures InRequests(lane.requests, other) || other in s'.serving || InReplies(lane.replies + replies, other)
    {
      InRepliesJoined(lane.replies, replies, other);
    }
  }

  lemma EndReplies(p: Puller, s: Server, lane: Lane, id: BatchId, s': Server, replies: seq<Reply>, tasks: seq<Task>)
    requires RepliesPlaced(p, lane.owner, lane.asked, s, lane.replies) && ServingPlaced(p, lane.owner, lane.asked, s)
    requires id in s.serving && RepliesOk(replies, id, lane.asked[id], s', tasks) && OthersServed(s, s', id)
    ensures RepliesPlaced(p, lane.owner, lane.asked, s', lane.replies + replies)
      && ServingPlaced(p, lane.owner, lane.asked, s')
  {
    var all := lane.replies + replies;
    forall k | 0 <= k < |all|
      ensures ReplyPlaced(p, lane.owner, lane.asked, s', all[k])
    {
      if k < |lane.replies| {
        assert ReplyPlaced(p, lane.owner, lane.asked, s, lane.replies[k]) && all[k] == lane.replies[k];
      } else {
        assert all[k] == replies[0];
      }
    }
    forall k, l | 0 <= k < l < |all|
      ensures all[k].id != all[l].id
    {
      assert ReplyPlaced(p, lane.owner, lane.asked, s, lane.replies[k]);
      assert all[k] == lane.replies[k];
    }
  }

  // --- A reply arrives ---

  lemma ReplyArrives(p: Puller, s: Server, lane: Lane, k: nat, fast: bool)
    requires LaneInv(p, s, lane) && k < |lane.replies|
    ensures var r := lane.replies[k];
      var q := Settled(p, r.id, r.received, r.failed, fast);
      && r.id in p.active
      && LaneInv(q, s, lane.(replies := Without(lane.replies, k), owner := lane.owner - ToSet(r.received + r.failed),
                             received := lane.received + ToSet(r.received), fails := CountFails(lane, r.failed)))
      && q.pending <= p.pending && q.active <= p.active
      && (forall x :: Slot(q, x) <= Slot(p, x)) && (exists x :: x in lane.plan && Slot(q, x) < Slot(p, x))
  {
    var r := lane.replies[k];
    assert ReplyPlaced(p, lane.owner, lane.asked, s, r);
    var paths := lane.asked[r.id];
    var q, owner' := Settled(p, r.id, r.received, r.failed, fast), lane.owner - ToSet(paths);
    SettledKeeps(p, lane.owner, r.id, paths, r.received, r.failed, fast);
    DividedWithoutDuplicates(paths, r.received, r.failed);
    assert ToSet(r.received + r.failed) == ToSet(paths);
    ReplyTaken(p, s, lane, k, q, owner');
    RecordsDoNotMatter(q, s, lane.(replies := Without(lane.replies, k), owner := owner'),
      lane.received + ToSet(r.received), CountFails(lane, r.failed));
    SomethingSettled(p, lane, r.id, paths, q);
  }

  /** The lane's invariant does not depend on the record of what was received and what failed. */
  lemma RecordsDoNotMatter(p: Puller, s: Server, lane: Lane, received: set<Path>, fails: map<Path, nat>)
    requires LaneInv(p, s, lane)
    ensures LaneInv(p, s, lane.(received := received, fails := fails))
  {}

  lemma SomethingSettled(p: Puller, lane: Lane, id: BatchId, paths: seq<Path>, q: Puller)
    requires PullInv(p, lane.owner) && NonEmpty(p, lane.owner) && id in p.active && Lists(lane.owner, id, paths)
    requires p.pending <= ToSet(lane.plan) && forall x | x in paths :: Slot(q, x) < Slot(p, x)
    ensures exists x :: x in lane.plan && Slot(q, x) < Slot(p, x)
  {
    var x :| x in lane.owner && lane.owner[x] == id;
    assert x in paths && x in lane.plan;
  }

  lemma ReplyTaken(p: Puller, s: Server, lane: Lane, k: nat, q: Puller, owner': Owner)
    requires k < |lane.replies| && Placed(p, s, lane) && SameBatches(lane.owner, owner', q.active)
    requires q.active == p.active - {lane.replies[k].id} && q.nextId == p.nextId
    ensures Placed(q, s, lane.(replies := Without(lane.replies, k), owner := owner'))
  {
    var r, rest := lane.replies[k], Without(lane.replies, k);
    assert ReplyPlaced(p, lane.owner, lane.asked, s, r);
    forall id, paths | id in q.active && Lists(lane.owner, id, paths)
      ensures Lists(owner', id, paths)
    {
      ListsSame(lane.owner, owner', q.active, id, paths);
    }
    WithoutIs(lane.replies, k);
    assert RepliesPlaced(q, owner', lane.asked, s, rest) by {
      forall j | 0 <= j < |rest|
        ensures ReplyPlaced(q, owner', lane.asked, s, rest[j])
      {
        var i := if j < k then j else j + 1;
        assert rest[j] == lane.replies[i] && lane.replies[i].id != r.id;
        assert ReplyPlaced(p, lane.owner, lane.asked, s, lane.replies[i]);
      }
    }
    forall id | id in q.active
      ensures InRequests(lane.requests, id) || id in s.serving || InReplies(rest, id)
    {
      InRepliesWithout(lane.replies, k, id);
    }
  }

  // --- A side leaves, or hears that the other needs nothing more ---

  /** Whatever is under way belongs to an active batch. */
  lemma UnderWayIsActive(p: Puller, s: Server, lane: Lane)
    requires Placed(p, s, lane) && ServeInv(s, lane.tasks, lane.asked, lane.delivered, ToSet(lane.plan))
    ensures lane.requests != [] ==> lane.requests[0].id in p.active
    ensures lane.replies != [] ==> lane.replies[0].id in p.active
    ensures lane.tasks != [] ==> lane.tasks[0].id in s.serving
    ensures s.serving.Keys <= p.active
  {
    assert lane.replies != [] ==> ReplyPlaced(p, lane.owner, lane.asked, s, lane.replies[0]);
  }

  lemma ActiveHasOwned(p: Puller, owner: Owner)
    requires NonEmpty(p, owner)
    ensures p.active != {} ==> owner.Keys != {}
  {
    if p.active != {} {
      var id :| id in p.active;
      var x :| x in owner && owner[x] == id;
      assert x in owner.Keys;
    }
  }

  /** A puller that wants nothing has nothing under way. */
  lemma NothingWanted(p: Puller, s: Server, lane: Lane)
    requires LaneInv(p, s, lane) && p.pending == {}
    ensures p.active == {} && lane.owner == map[] && lane.requests == [] && lane.replies == [] && s.serving == map[]
      && lane.tasks == []
  {
    UnderWayIsActive(p, s, lane);
    assert lane.owner.Keys == {};
    ActiveHasOwned(p, lane.owner);
    assert s.serving.Keys == {};
  }

  lemma PullerLeaves(p: Puller, s: Server, lane: Lane)
    requires LaneInv(p, s, lane) && p.pending == {}
    ensures LaneInv(ClearedPuller(p), s, lane)
  {
    NothingWanted(p, s, lane);
  }

  lemma AllowedShrinks(s: Server, lane: Lane, allowed: set<Path>)
    requires ServeInv(s, lane.tasks, lane.asked, lane.delivered, ToSet(lane.plan)) && allowed <= s.allowed
    ensures ServeInv(Server(allowed, s.serving), lane.tasks, lane.asked, lane.delivered, ToSet(lane.plan))
  {
    assert Exclusive(allowed, AllOutstanding(lane.tasks), lane.delivered, ToSet(lane.plan));
  }

  lemma ServerForgets(p: Puller, s: Server, lane: Lane, allowed: set<Path>)
    requires LaneInv(p, s, lane) && allowed <= s.allowed
    ensures LaneInv(p, Server(allowed, s.serving), lane)
  {
    AllowedShrinks(s, lane, allowed);
    var s' := Server(allowed, s.serving);
    forall k | 0 <= k < |lane.replies|
      ensures ReplyPlaced(p, lane.owner, lane.asked, s', lane.replies[k])
    {
      assert ReplyPlaced(p, lane.owner, lane.asked, s, lane.replies[k]);
    }
  }
}
