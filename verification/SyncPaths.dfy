/** What becomes of each planned path: it is received, or it failed four times; it is never asked for more often. */
module SyncPaths {
  import opened Basics
  import opened Pulls
  import opened Serves
  import opened Parties
  import opened SyncRuns
  import opened SyncLanes
  import opened SyncTheorems
  import opened SyncOutcomes

  // --- One batch-complete, path by path ---

  /** `x` failed in a batch: it is wanted again, with one retry more, or given up after three. */
  ghost predicate FailedOnce(p: Puller, q: Puller, x: Path) {
    if RetriesOf(p, x) < 3 then x in q.pending && RetriesOf(q, x) == RetriesOf(p, x) + 1 else x !in q.pending
  }

  ghost predicate Untouched(p: Puller, q: Puller, x: Path) {
    (x in q.pending <==> x in p.pending) && RetriesOf(q, x) == RetriesOf(p, x)
  }

  lemma {:induction false} FailedPathByPath(p: Puller, paths: seq<Path>)
    requires NoDuplicates(paths) && forall x | x in paths :: x in p.pending
    ensures forall x | x in paths :: FailedOnce(p, Failed(p, paths), x)
    ensures forall x | x !in paths :: Untouched(p, Failed(p, paths), x)
    decreases paths
  {
    if paths != [] {
      TailWithoutHead(paths);
      var q := FailedOne(p, paths[0]);
      FailedPathByPath(q, paths[1..]);
      assert Untouched(q, Failed(q, paths[1..]), paths[0]);
    }
  }

  lemma SettledPathByPath(p: Puller, owner: Owner, r: Reply, asked: seq<Path>, fast: bool)
    requires PullInv(p, owner) && Lists(owner, r.id, asked) && Divides(asked, r.received, r.failed)
    ensures var q := Settled(p, r.id, r.received, r.failed, fast);
      && (forall x | x in r.received :: x in p.pending && x !in q.pending && x !in r.failed)
      && (forall x | x in r.failed :: x in p.pending && FailedOnce(p, q, x))
      && (forall x | x !in r.received && x !in r.failed :: Untouched(p, q, x))
  {
    DividedWithoutDuplicates(asked, r.received, r.failed);
    var p1 := Received(p.(active := p.active - {r.id}), r.received);
    FailedPathByPath(p1, r.failed);
    var f, q := Failed(p1, r.failed), Settled(p, r.id, r.received, r.failed, fast);
    assert q.pending == f.pending && q.retries == f.retries;
    forall x | x in r.received ensures Untouched(p1, f, x) {}
  }

  // --- The account of every planned path ---

  /** A wanted path failed as often as it was retried; one no longer wanted was received or failed four times.
      Requests answered never exceed four. */
  ghost predicate Accounted(p: Puller, lane: Lane, x: Path) {
    && FailsOf(lane, x) + (if x in lane.received then 1 else 0) <= 4
    && (x in p.pending ==> RetriesOf(p, x) == FailsOf(lane, x) <= 3 && x !in lane.received)
    && (x in lane.plan && x !in p.pending ==> x in lane.received || FailsOf(lane, x) == 4)
  }

  ghost predicate AllAccounted(p: Puller, lane: Lane) {
    forall x :: Accounted(p, lane, x)
  }

  ghost predicate AccountAt(s: Sync, d: Side) {
    AllAccounted(s.parties.Of(d).pull, s.lanes.Of(d))
  }

  lemma ReplyAccounted(p: Puller, lane: Lane, lane': Lane, r: Reply, asked: seq<Path>, fast: bool)
    requires PullInv(p, lane.owner) && Lists(lane.owner, r.id, asked) && Divides(asked, r.received, r.failed)
    requires AllAccounted(p, lane) && lane'.plan == lane.plan
    requires lane'.received == lane.received + ToSet(r.received) && lane'.fails == CountFails(lane, r.failed)
    ensures AllAccounted(Settled(p, r.id, r.received, r.failed, fast), lane')
  {
    SettledPathByPath(p, lane.owner, r, asked, fast);
    var q := Settled(p, r.id, r.received, r.failed, fast);
    hide Settled;
    forall x
      ensures Accounted(q, lane', x)
    {
      assert Accounted(p, lane, x);
      assert FailsOf(lane', x) == FailsOf(lane, x) + if x in r.failed then 1 else 0;
      if x !in r.received && x !in r.failed { assert Untouched(p, q, x); }
      if x in r.failed { assert FailedOnce(p, q, x); }
    }
  }

  /** A change that wants the same paths with the same retries, or that gives up wanting when nothing is wanted. */
  ghost predicate SameWanted(p: Puller, q: Puller) {
    q.pending == p.pending && (q.retries == p.retries || p.pending == {})
  }

  lemma SameWantedAccounted(p: Puller, q: Puller, lane: Lane, lane': Lane)
    requires AllAccounted(p, lane) && SameWanted(p, q)
    requires lane'.plan == lane.plan && lane'.received == lane.received && lane'.fails == lane.fails
    ensures AllAccounted(q, lane')
  {
    forall x ensures Accounted(q, lane', x) { assert Accounted(p, lane, x); }
  }

  lemma CheckWantsTheSame(p: Party)
    requires PartyCore(p)
    ensures SameWanted(p.pull, Check(p).party.pull)
  {}

  lemma RequestNextWantsTheSame(p: Party)
    requires PartyCore(p) && p.pull.cfg.filesPerBatch > 0
    ensures SameWanted(p.pull, RequestNext(p).party.pull)
  {
    RequestingKeepsWanted(p.pull);
  }

  /** The puller that the handler starts from: after a batch-complete, the settled one. */
  lemma HandlerWantsTheSame(s: Sync, e: Event)
    requires Configured(s) && Possible(s, e) && PartyCore(s.parties.Of(Handler(e)))
    requires e.DeliverReply? ==>
      && s.parties.Of(e.d).syncing && s.parties.Of(e.d).phase.Transferring?
      && s.lanes.Of(e.d).replies[e.k].id in s.parties.Of(e.d).pull.active
    ensures SameWanted(PullSeen(s, e), Handled(s, e).party.pull)
  {
    hide RequestAll, Serve, RecordTask;
    var p := s.parties.Of(Handler(e));
    match e
    case Start(_) => RequestNextWantsTheSame(p);
    case DeliverReply(d, k, fast) =>
      var r := s.lanes.Of(d).replies[k];
      FailedOnlyDrops(Received(p.pull.(active := p.pull.active - {r.id}), r.received), r.failed);
      SettledConfigured(p.pull, r, fast);
      RequestNextWantsTheSame(p.(pull := Settled(p.pull, r.id, r.received, r.failed, fast)));
    case HearComplete(_) => CheckWantsTheSame(p.(peerDone := true, serve := p.serve.(allowed := {})));
    case HearAck(_) => CheckWantsTheSame(p.(delivered := true));
    case DeliverRequest(d, k, vault) =>
      if p.syncing {
        var r := s.lanes.Of(d).requests[k];
        CheckWantsTheSame(p.(phase := Transferring, serve := Serve(p.serve, r.id, r.paths, vault).server));
      }
    case EndTask(d, k, success) =>
      CheckWantsTheSame(p.(serve := RecordTask(p.serve, s.lanes.Of(d).tasks[k].id,
            s.lanes.Of(d).tasks[k].paths, success, true).0));
  }

  lemma ReplyIsPlaced(s: Sync, d: Side, k: nat)
    requires SyncInv(s) && k < |s.lanes.Of(d).replies|
    ensures var p, lane := s.parties.Of(d), s.lanes.Of(d);
      var r := lane.replies[k];
      && p.syncing && p.phase.Transferring? && r.id in p.pull.active && PullInv(p.pull, lane.owner)
      && r.id in lane.asked && Lists(lane.owner, r.id, lane.asked[r.id])
      && Divides(lane.asked[r.id], r.received, r.failed)
  {
    PreOfInv(s, d);
    assert ReplyPlaced(s.parties.Of(d).pull, s.lanes.Of(d).owner, s.lanes.Of(d).asked, s.parties.Of(d.Other()).serve,
      s.lanes.Of(d).replies[k]);
    PeerListens(s, d);
  }

  lemma NextKeepsAccount(s: Sync, e: Event, d: Side)
    requires SyncInv(s) && Configured(s) && Possible(s, e) && AccountAt(s, d)
    ensures AccountAt(Next(s, e), d)
  {
    hide LaneInv, WordInv, Handled, Settled, AllAccounted;
    var h, c, s0 := Handler(e), Handled(s, e), Taken(s, e);
    PreOfInv(s, h);
    if e.DeliverReply? {
      ReplyIsPlaced(s, e.d, e.k);
      var lane := s.lanes.Of(e.d);
      var r := lane.replies[e.k];
      if d == h { ReplyAccounted(s.parties.Of(d).pull, lane, s0.lanes.Of(d), r, lane.asked[r.id], e.fast); }
    }
    HandlerWantsTheSame(s, e);
    EmitShape(s0, h, c);
    TakenKeepsParties(s, e);
    AccountStep(s, e, d, c);
  }

  lemma AccountStep(s: Sync, e: Event, d: Side, c: Effect)
    requires Possible(s, e) && AccountAt(s, d) && SameWanted(PullSeen(s, e), c.party.pull)
    requires e.DeliverReply? && d == e.d ==> AllAccounted(PullSeen(s, e), Taken(s, e).lanes.Of(d))
    ensures AccountAt(Emit(Taken(s, e), Handler(e), c), d)
  {
    hide AllAccounted, Settled;
    var h, s0, s' := Handler(e), Taken(s, e), Emit(Taken(s, e), Handler(e), c);
    EmitShape(s0, h, c);
    TakenKeepsParties(s, e);
    var p := s.parties.Of(d).pull;
    if d == h {
      if e.DeliverReply? {
        SameWantedAccounted(PullSeen(s, e), c.party.pull, s0.lanes.Of(d), s'.lanes.Of(d));
      } else {
        SameWantedAccounted(p, c.party.pull, s.lanes.Of(d), s'.lanes.Of(d));
      }
    } else {
      SameWantedAccounted(p, p, s.lanes.Of(d), s'.lanes.Of(d));
    }
  }

  lemma {:induction false} SyncKeepsAccount(states: seq<Sync>, events: seq<Event>, i: nat, d: Side)
    requires IsSync(states, events) && i < |states|
    ensures AccountAt(states[i], d)
  {
    if i > 0 {
      SyncKeepsAccount(states, events, i - 1, d);
      SyncKeepsInv(states, events, i - 1);
      RunStep(states, events, i - 1);
      NextKeepsAccount(states[i - 1], events[i - 1], d);
    }
  }

  /** At no time has a path been asked for more than four times, the request under way included, and it never
      fails after it was received. */
  lemma AtMostFourRequests(states: seq<Sync>, events: seq<Event>, i: nat, d: Side, x: Path)
    requires IsSync(states, events) && i < |states|
    ensures var p, lane := states[i].parties.Of(d).pull, states[i].lanes.Of(d);
      FailsOf(lane, x) + (if x in lane.received then 1 else 0) + (if x in p.inFlight then 1 else 0) <= 4
  {
    SyncKeepsAccount(states, events, i, d);
    SyncKeepsInv(states, events, i);
    PreOfInv(states[i], d);
    hide IsSync, WordInv, PartyInv;
    var p := states[i].parties.Of(d).pull;
    assert p.inFlight <= p.pending;
    assert Accounted(p, states[i].lanes.Of(d), x);
  }

  /** Once a side has left, every path either side planned to pull was received or failed four times. */
  lemma LeftMeansAccounted(states: seq<Sync>, events: seq<Event>, i: nat, d: Side, puller: Side, x: Path)
    requires IsSync(states, events) && i < |states| && !states[i].parties.Of(d).syncing
    requires x in states[i].lanes.Of(puller).plan
    ensures var lane := states[i].lanes.Of(puller); x in lane.received || FailsOf(lane, x) == 4
  {
    LeftMeansSettled(states, events, i, d);
    assert SettledAt(states[i], puller);
    SyncKeepsAccount(states, events, i, puller);
    assert Accounted(states[i].parties.Of(puller).pull, states[i].lanes.Of(puller), x);
  }

  // --- What is served ---

  /** In every run, a path is sent successfully once at most, and only if it was planned. */
  lemma NeverDeliveredTwice(states: seq<Sync>, events: seq<Event>, i: nat)
    requires IsSync(states, events) && i < |events| && events[i].EndTask? && events[i].success
    ensures var lane, paths := states[i].lanes.Of(events[i].d),
      states[i].lanes.Of(events[i].d).tasks[events[i].k].paths;
      lane.delivered !! ToSet(paths) && ToSet(paths) <= ToSet(lane.plan)
  {
    hide SyncInv, Next;
    SyncKeepsInv(states, events, i);
    RunStep(states, events, i);
    var s, d, k := states[i], events[i].d, events[i].k;
    PreOfInv(s, d);
    var lane, sv := s.lanes.Of(d), s.parties.Of(d.Other()).serve;
    TaskEndKeeps(sv, lane.tasks, k, true, lane.asked, lane.delivered, ToSet(lane.plan));
    OutstandingWithout(lane.tasks, k, lane.tasks[k].id);
    forall x | x in lane.tasks[k].paths
      ensures x in ToSet(lane.plan)
    {
      assert x in multiset(lane.tasks[k].paths);
      assert x in AllOutstanding(lane.tasks);
    }
  }
}
