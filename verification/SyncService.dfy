/**
 Why a planned path fails: in every run only because a task that was to send it failed, or because it was not
 in the vault when it was asked for. So a path is received before the sync ends, unless that happens four times.
 */
module SyncServices {
  import opened Basics
  import opened Pulls
  import opened Serves
  import opened ServeWorks
  import opened Parties
  import opened SyncRuns
  import opened SyncLanes
  import opened SyncTheorems
  import opened SyncOutcomes
  import opened SyncPaths

  // --- Where a path is ---

  ghost predicate InFailed(sv: Server, replies: seq<Reply>, x: Path) {
    || (exists id :: id in sv.serving && x in sv.serving[id].failed)
    || (exists k :: 0 <= k < |replies| && x in replies[k].failed)
  }

  ghost predicate InReceived(sv: Server, replies: seq<Reply>, x: Path) {
    || (exists id :: id in sv.serving && x in sv.serving[id].succeeded)
    || (exists k :: 0 <= k < |replies| && x in replies[k].received)
  }

  /** A path that is wanted may still be taken, or is in a task, or was sent and the puller will hear of it. */
  ghost predicate Welcome(p: Puller, sv: Server, lane: Lane, x: Path) {
    x in p.pending ==> x in sv.allowed || x in AllOutstanding(lane.tasks) || InReceived(sv, lane.replies, x)
  }

  /** The failures counted, and the one the puller will hear of, are `n` at most. */
  ghost predicate Charged(sv: Server, lane: Lane, x: Path, n: nat) {
    FailsOf(lane, x) + (if InFailed(sv, lane.replies, x) then 1 else 0) <= n
  }

  lemma {:induction false} OutstandingInTask(tasks: seq<Task>, x: Path)
    requires x in AllOutstanding(tasks)
    ensures exists k :: 0 <= k < |tasks| && x in tasks[k].paths
  {
    if x in tasks[0].paths {
    } else {
      assert multiset(tasks[0].paths)[x] == 0;
      OutstandingInTask(tasks[1..], x);
      var k :| 0 <= k < |tasks[1..]| && x in tasks[1..][k].paths;
      assert tasks[k + 1] == tasks[1..][k];
    }
  }

  /** What is divided among served, failed and outstanding paths was asked for, each path in one part only. */
  lemma PartOfBatch(b: Batch, asked: seq<Path>, outstanding: multiset<Path>, x: Path)
    requires Conserves(b, asked, outstanding) && NoDuplicates(asked)
    ensures x in b.succeeded || x in b.failed || x in outstanding ==> x in asked
    ensures x in outstanding ==> x !in b.succeeded && x !in b.failed
    ensures !(x in b.succeeded && x in b.failed)
  {
    OnceOnly(asked, x);
    assert multiset(asked)[x] == multiset(b.succeeded)[x] + multiset(b.failed)[x] + outstanding[x];
    assert x in b.succeeded <==> multiset(b.succeeded)[x] > 0;
    assert x in b.failed <==> multiset(b.failed)[x] > 0;
    assert x in asked <==> multiset(asked)[x] > 0;
  }

  lemma {:induction false} OnceOnly(s: seq<Path>, x: Path)
    requires NoDuplicates(s)
    ensures multiset(s)[x] <= 1
  {
    if s != [] {
      OnceOnly(s[1..], x);
      assert s == [s[0]] + s[1..];
      if s[0] == x { forall i | 0 <= i < |s[1..]| ensures s[1..][i] != x { assert s[1..][i] == s[i + 1]; } }
    }
  }

  lemma PartOfReply(asked: seq<Path>, received: seq<Path>, failed: seq<Path>, x: Path)
    requires Divides(asked, received, failed) && NoDuplicates(asked)
    ensures x in received || x in failed ==> x in asked
    ensures !(x in received && x in failed)
  {
    DividedWithoutDuplicates(asked, received, failed);
    assert ToSet(received + failed) == ToSet(asked);
    assert x in received ==> x in ToSet(received + failed);
    assert x in failed ==> x in ToSet(received + failed);
  }

  /** Wherever a path is met between the two sides, it is there for the batch that asks for it. */
  lemma BatchOfPath(p: Puller, sv: Server, lane: Lane, x: Path)
    requires LaneInv(p, sv, lane)
    ensures forall k | 0 <= k < |lane.requests| && x in lane.requests[k].paths ::
      x in lane.owner && lane.owner[x] == lane.requests[k].id
    ensures forall id | id in sv.serving && (x in sv.serving[id].succeeded || x in sv.serving[id].failed) ::
      x in lane.owner && lane.owner[x] == id && x !in Outstanding(lane.tasks, id)
    ensures forall k | 0 <= k < |lane.tasks| && x in lane.tasks[k].paths ::
      x in lane.owner && lane.owner[x] == lane.tasks[k].id && lane.tasks[k].id in sv.serving
      && x in Outstanding(lane.tasks, lane.tasks[k].id)
    ensures forall k | 0 <= k < |lane.replies| && (x in lane.replies[k].received || x in lane.replies[k].failed) ::
      x in lane.owner && lane.owner[x] == lane.replies[k].id && lane.replies[k].id !in sv.serving
  {
    hide Outstanding, Conserves, Divides;
    forall id | id in sv.serving
      ensures x in sv.serving[id].succeeded || x in sv.serving[id].failed ==>
        x in lane.owner && lane.owner[x] == id && x !in Outstanding(lane.tasks, id)
      ensures x in Outstanding(lane.tasks, id) ==> x in lane.owner && lane.owner[x] == id
    {
      PartOfBatch(sv.serving[id], lane.asked[id], Outstanding(lane.tasks, id), x);
    }
    forall k | 0 <= k < |lane.tasks| && x in lane.tasks[k].paths
      ensures x in Outstanding(lane.tasks, lane.tasks[k].id)
    {
      OutstandingTaskIs(lane.tasks, k, lane.tasks[k].id);
    }
    forall k | 0 <= k < |lane.replies| && (x in lane.replies[k].received || x in lane.replies[k].failed)
      ensures x in lane.owner && lane.owner[x] == lane.replies[k].id && lane.replies[k].id !in sv.serving
    {
      assert ReplyPlaced(p, lane.owner, lane.asked, sv, lane.replies[k]);
      PartOfReply(lane.asked[lane.replies[k].id], lane.replies[k].received, lane.replies[k].failed, x);
    }
  }

  // --- A request arrives ---

  /** A path that is asked for may be taken, and nothing is known of it yet. */
  lemma AskedIsWelcome(p: Puller, sv: Server, lane: Lane, k: nat, x: Path)
    requires LaneInv(p, sv, lane) && k < |lane.requests| && x in lane.requests[k].paths
    requires Welcome(p, sv, lane, x)
    ensures x in sv.allowed && !InFailed(sv, lane.replies, x)
  {
    BatchOfPath(p, sv, lane, x);
    RequestElsewhere(p, sv, lane, k);
    if x in AllOutstanding(lane.tasks) { OutstandingInTask(lane.tasks, x); }
    hide Outstanding, ServeInv;
  }

  lemma RequestElsewhere(p: Puller, sv: Server, lane: Lane, k: nat)
    requires LaneInv(p, sv, lane) && k < |lane.requests|
    ensures var r := lane.requests[k];
      && r.id !in sv.serving && NoDuplicates(r.paths)
      && (forall j | 0 <= j < |lane.replies| :: lane.replies[j].id != r.id)
  {
    forall j | 0 <= j < |lane.replies| ensures lane.replies[j].id != lane.requests[k].id {
      assert ReplyPlaced(p, lane.owner, lane.asked, sv, lane.replies[j]);
    }
    hide Outstanding, ServeInv;
  }

  lemma RequestServed(p: Puller, sv: Server, lane: Lane, k: nat, vault: Path -> Entry, x: Path, n: nat)
    requires LaneInv(p, sv, lane) && k < |lane.requests| && Welcome(p, sv, lane, x) && Charged(sv, lane, x, n)
    ensures var r := lane.requests[k];
      var w := Serve(sv, r.id, r.paths, vault);
      var lane' := lane.(requests := Without(lane.requests, k), asked := lane.asked[r.id := r.paths],
        tasks := lane.tasks + w.tasks, replies := lane.replies + w.replies);
      && Welcome(p, w.server, lane', x)
      && Charged(w.server, lane', x, n + if x in r.paths && vault(x).Missing? then 1 else 0)
  {
    hide LaneInv, Serve, AllOutstanding, Sent, Refused, InFailed, InReceived;
    var r := lane.requests[k];
    if x in r.paths { AskedIsWelcome(p, sv, lane, k, x); }
    RequestElsewhere(p, sv, lane, k);
    SentIs(sv, r.paths, vault);
    PathServed(sv, r, vault, lane.replies, x);
    OutstandingJoins(lane.tasks, Serve(sv, r.id, r.paths, vault).tasks, r.id);
  }

  lemma PathServed(sv: Server, r: Request, vault: Path -> Entry, replies: seq<Reply>, x: Path)
    requires r.id !in sv.serving && NoDuplicates(r.paths)
    ensures var w := Serve(sv, r.id, r.paths, vault);
      && (x in w.server.allowed <==> x in sv.allowed && x !in Sent(sv, r.paths, vault))
      && (x in AllOutstanding(w.tasks) <==> x in Sent(sv, r.paths, vault))
      && (InFailed(w.server, replies + w.replies, x) <==> InFailed(sv, replies, x) || x in Refused(sv, r.paths, vault))
      && (InReceived(sv, replies, x) ==> InReceived(w.server, replies + w.replies, x))
  {
    hide Serve, AllOutstanding, Sent, Refused, InFailed, InReceived;
    ServeIsExact(sv, r.id, r.paths, vault);
    var w, refused := Serve(sv, r.id, r.paths, vault), Refused(sv, r.paths, vault);
    ServedPath(sv, w.server, replies, w.replies, r.id, |r.paths|, refused, x);
  }

  /** Where `x` is met once a request was looked at of which `refused` were refused. */
  lemma ServedPath(sv: Server, sv': Server, replies: seq<Reply>, more: seq<Reply>, id: BatchId, total: nat,
          refused: seq<Path>, x: Path)
    requires id !in sv.serving
    requires || (more == [] && sv'.serving == sv.serving[id := Batch(total, |refused|, [], refused)])
      || (more == [Reply(id, [], refused)] && sv'.serving == sv.serving - {id})
    ensures InFailed(sv', replies + more, x) <==> InFailed(sv, replies, x) || x in refused
    ensures InReceived(sv, replies, x) ==> InReceived(sv', replies + more, x)
  {
    var all := replies + more;
    assert forall k | 0 <= k < |replies| :: all[k] == replies[k];
    if x in refused && more != [] { assert x in all[|replies|].failed; }
    if x in refused && more == [] { assert id in sv'.serving && x in sv'.serving[id].failed; }
    if i :| i in sv.serving && x in sv.serving[i].failed { assert i in sv'.serving && x in sv'.serving[i].failed; }
    if i :| i in sv.serving && x in sv.serving[i].succeeded {
      assert i in sv'.serving && x in sv'.serving[i].succeeded;
    }
  }

  // --- A task ends ---

  lemma TaskDone(p: Puller, sv: Server, lane: Lane, k: nat, success: bool, x: Path, n: nat)
    requires LaneInv(p, sv, lane) && k < |lane.tasks| && Welcome(p, sv, lane, x) && Charged(sv, lane, x, n)
    ensures var t := lane.tasks[k];
      var (sv', replies) := RecordTask(sv, t.id, t.paths, success, true);
      var lane' := lane.(tasks := Without(lane.tasks, k), delivered := DeliveredBy(lane.delivered, t.paths, success),
        replies := lane.replies + replies);
      && Welcome(p, sv', lane', x) && Charged(sv', lane', x, n + if !success && x in t.paths then 1 else 0)
  {
    var t := lane.tasks[k];
    BatchOfPath(p, sv, lane, x);
    TaskServed(p, sv, lane, k);
    hide LaneInv, AllOutstanding, Outstanding, RecordTask;
    OutstandingWithout(lane.tasks, k, t.id);
    var (sv', replies) := RecordTask(sv, t.id, t.paths, success, true);
    EndedPath(sv, lane.replies, t, success, x);
    assert x in t.paths <==> x in multiset(t.paths);
    if x in t.paths { assert !InFailed(sv, lane.replies, x); }
    hide InFailed, InReceived;
  }

  lemma TaskServed(p: Puller, sv: Server, lane: Lane, k: nat)
    requires LaneInv(p, sv, lane) && k < |lane.tasks|
    ensures lane.tasks[k].id in sv.serving && lane.tasks[k].paths != []
  {}

  lemma EndedPath(sv: Server, replies: seq<Reply>, t: Task, success: bool, x: Path)
    requires t.id in sv.serving && t.paths != []
    ensures var (sv', more) := RecordTask(sv, t.id, t.paths, success, true);
      && (InFailed(sv', replies + more, x) <==> InFailed(sv, replies, x) || (!success && x in t.paths))
      && (InReceived(sv', replies + more, x) <==> InReceived(sv, replies, x) || (success && x in t.paths))
      && (x in sv'.allowed <==> x in sv.allowed || (!success && x in t.paths))
  {
    var (sv', more) := RecordTask(sv, t.id, t.paths, success, true);
    var all := replies + more;
    assert forall k | 0 <= k < |replies| :: all[k] == replies[k];
    var b, b' := sv.serving[t.id], Counting(sv.serving[t.id], t.paths, success);
    assert x in b'.failed <==> x in b.failed || (!success && x in t.paths);
    assert x in b'.succeeded <==> x in b.succeeded || (success && x in t.paths);
    if more == [] {
      assert sv'.serving == sv.serving[t.id := b'];
      ServingChanged(sv, sv', t.id, b', all, x);
    } else {
      assert all[|replies|] == Reply(t.id, b'.succeeded, b'.failed) && sv'.serving == sv.serving - {t.id};
      ServingAnswered(sv, sv', t.id, b', replies, x);
    }
  }

  lemma ServingChanged(sv: Server, sv': Server, id: BatchId, b: Batch, replies: seq<Reply>, x: Path)
    requires id in sv.serving && sv'.serving == sv.serving[id := b]
    requires (x in sv.serving[id].failed ==> x in b.failed) && (x in sv.serving[id].succeeded ==> x in b.succeeded)
    ensures InFailed(sv', replies, x) <==> InFailed(sv, replies, x) || x in b.failed
    ensures InReceived(sv', replies, x) <==> InReceived(sv, replies, x) || x in b.succeeded
  {
    assert id in sv'.serving;
    assert forall i | i in sv.serving && i != id :: i in sv'.serving && sv'.serving[i] == sv.serving[i];
  }

  lemma ServingAnswered(sv: Server, sv': Server, id: BatchId, b: Batch, replies: seq<Reply>, x: Path)
    requires id in sv.serving && sv'.serving == sv.serving - {id}
    requires (x in sv.serving[id].failed ==> x in b.failed) && (x in sv.serving[id].succeeded ==> x in b.succeeded)
    ensures var all := replies + [Reply(id, b.succeeded, b.failed)];
      && (InFailed(sv', all, x) <==> InFailed(sv, replies, x) || x in b.failed)
      && (InReceived(sv', all, x) <==> InReceived(sv, replies, x) || x in b.succeeded)
  {
    var all := replies + [Reply(id, b.succeeded, b.failed)];
    assert all[|replies|] == Reply(id, b.succeeded, b.failed);
    assert forall k | 0 <= k < |replies| :: all[k] == replies[k];
    assert forall i | i in sv.serving && i != id :: i in sv'.serving && sv'.serving[i] == sv.serving[i];
  }

  // --- A reply arrives ---

  lemma ReplyHeard(p: Puller, sv: Server, lane: Lane, k: nat, q: Puller, x: Path, n: nat)
    requires LaneInv(p, sv, lane) && k < |lane.replies| && Welcome(p, sv, lane, x) && Charged(sv, lane, x, n)
    requires q.pending <= p.pending && forall y | y in lane.replies[k].received :: y !in q.pending
    ensures var r := lane.replies[k];
      var lane' := lane.(replies := Without(lane.replies, k), owner := lane.owner - ToSet(r.received + r.failed),
        received := lane.received + ToSet(r.received), fails := CountFails(lane, r.failed));
      Welcome(q, sv, lane', x) && Charged(sv, lane', x, n)
  {
    var r, rest := lane.replies[k], Without(lane.replies, k);
    BatchOfPath(p, sv, lane, x);
    RepliesApart(p, sv, lane, k);
    hide LaneInv, AllOutstanding;
    WithoutIs(lane.replies, k);
    if x in r.failed {
      assert InFailed(sv, lane.replies, x);
      assert !InFailed(sv, rest, x);
    }
    RepliesLess(sv, lane.replies, k, x);
  }

  lemma RepliesApart(p: Puller, sv: Server, lane: Lane, k: nat)
    requires LaneInv(p, sv, lane) && k < |lane.replies|
    ensures forall j | 0 <= j < |lane.replies| && j != k :: lane.replies[j].id != lane.replies[k].id
  {
    forall j | 0 <= j < |lane.replies| && j != k ensures lane.replies[j].id != lane.replies[k].id {
      if j < k { assert lane.replies[j].id != lane.replies[k].id; } else {
        assert lane.replies[k].id != lane.replies[j].id;
      }
    }
    hide ServeInv, PullInv;
  }

  lemma RepliesLess(sv: Server, replies: seq<Reply>, k: nat, x: Path)
    requires k < |replies|
    ensures InFailed(sv, Without(replies, k), x) ==> InFailed(sv, replies, x)
    ensures InReceived(sv, replies, x) ==> InReceived(sv, Without(replies, k), x) || x in replies[k].received
  {
    WithoutIs(replies, k);
    var rest := Without(replies, k);
    if j :| 0 <= j < |replies| && x in replies[j].received && j != k {
      assert rest[if j < k then j else j - 1] == replies[j];
    }
  }

  // --- Every event ---

  /** What the handler leaves of its serving half, before it checks for completion. */
  function ServeSeen(s: Sync, e: Event): Server
    requires Possible(s, e)
  {
    var sv := s.parties.Of(Handler(e)).serve;
    match e
    case DeliverRequest(d, k, vault) => Serve(sv, s.lanes.Of(d).requests[k].id,
      s.lanes.Of(d).requests[k].paths, vault).server
    case EndTask(d, k, success) => RecordTask(sv, s.lanes.Of(d).tasks[k].id,
      s.lanes.Of(d).tasks[k].paths, success, true).0
    case HearComplete(_) => sv.(allowed := {})
    case _ => sv
  }

  /** The serving half is that, or cleared when the side leaves, which then serves nothing. */
  ghost predicate ServesOrLeft(sv: Server, p: Party) {
    p.serve == sv || (!p.syncing && sv.serving == map[] && p.serve == Server({}, map[]))
  }

  lemma CheckServes(p: Party)
    ensures ServesOrLeft(p.serve, Check(p).party)
    ensures Check(p).tasks == [] && Check(p).replies == []
  {}

  lemma RequestNextServes(p: Party)
    requires p.pull.cfg.filesPerBatch > 0
    ensures ServesOrLeft(p.serve, RequestNext(p).party)
    ensures RequestNext(p).tasks == [] && RequestNext(p).replies == []
  {
    hide RequestAll;
  }

  ghost predicate Queues(s: Sync, e: Event, c: Effect)
    requires Possible(s, e)
  {
    match e
    case DeliverRequest(d, k, vault) =>
      var r := s.lanes.Of(d).requests[k];
      var w := Serve(s.parties.Of(Handler(e)).serve, r.id, r.paths, vault);
      c.tasks == w.tasks && c.replies == w.replies
    case EndTask(d, k, success) =>
      var t := s.lanes.Of(d).tasks[k];
      c.tasks == [] && c.replies == RecordTask(s.parties.Of(Handler(e)).serve, t.id, t.paths, success, true).1
    case _ => c.tasks == [] && c.replies == []
  }

  lemma HandlerServes(s: Sync, e: Event)
    requires Configured(s) && Possible(s, e) && PartyCore(s.parties.Of(Handler(e)))
    requires e.DeliverRequest? || e.HearComplete? ==> s.parties.Of(Handler(e)).syncing
    ensures ServesOrLeft(ServeSeen(s, e), Handled(s, e).party) && Queues(s, e, Handled(s, e))
  {
    hide RequestAll, Serve, RecordTask, Settled;
    var p := s.parties.Of(Handler(e));
    match e
    case Start(_) => RequestNextServes(p);
    case DeliverReply(d, k, fast) =>
      var r := s.lanes.Of(d).replies[k];
      SettledConfigured(p.pull, r, fast);
      RequestNextServes(p.(pull := Settled(p.pull, r.id, r.received, r.failed, fast)));
    case HearComplete(_) => CheckServes(p.(peerDone := true, serve := p.serve.(allowed := {})));
    case HearAck(_) => CheckServes(p.(delivered := true));
    case DeliverRequest(d, k, vault) =>
      var r := s.lanes.Of(d).requests[k];
      CheckServes(p.(phase := Transferring, serve := Serve(p.serve, r.id, r.paths, vault).server));
    case EndTask(d, k, success) =>
      var t := s.lanes.Of(d).tasks[k];
      CheckServes(p.(serve := RecordTask(p.serve, t.id, t.paths, success, true).0));
  }

  /** What makes a path fail: a task with it fails, or it is not in the vault when it is asked for. */
  function CauseIn(s: Sync, e: Event, d: Side, x: Path): nat
    requires Possible(s, e)
  {
    match e
    case DeliverRequest(y, k, vault) => if y == d && x in s.lanes.Of(d).requests[k].paths && vault(x).Missing? then 1
      else 0
    case EndTask(y, k, success) => if y == d && !success && x in s.lanes.Of(d).tasks[k].paths then 1 else 0
    case _ => 0
  }

  ghost predicate ServiceAt(s: Sync, d: Side, x: Path, n: nat) {
    var sv, lane := s.parties.Of(d.Other()).serve, s.lanes.Of(d);
    Welcome(s.parties.Of(d).pull, sv, lane, x) && Charged(sv, lane, x, n)
  }

  /** `sv` and `lane` as the event's own part leaves them, for the lane of side d. */
  ghost predicate ServiceSeen(s: Sync, e: Event, d: Side, x: Path, n: nat)
    requires Possible(s, e) && Configured(s)
  {
    var c, s0 := Handled(s, e), Taken(s, e);
    var sv := if Handler(e) == d then s.parties.Of(d.Other()).serve else ServeSeen(s, e);
    var own := s0.lanes.Of(d);
    var lane := if Handler(e) == d then own else own.(tasks := own.tasks + c.tasks, replies := own.replies + c.replies);
    var p := if Handler(e) == d then PullSeen(s, e) else s.parties.Of(d).pull;
    Charged(sv, lane, x, n) && (Welcome(p, sv, lane, x) || p.pending == {})
  }

  lemma EventServes(s: Sync, e: Event, d: Side, x: Path, n: nat)
    requires SyncInv(s) && Configured(s) && Possible(s, e) && ServiceAt(s, d, x, n)
    ensures ServiceSeen(s, e, d, x, n + CauseIn(s, e, d, x))
  {
    hide LaneInv, WordInv, Handled, Welcome, Charged, Settled, Serve, RecordTask;
    PreOfInv(s, d);
    PreOfInv(s, d.Other());
    HandlerListens(s, e);
    HandlerServes(s, e);
    var p, sv, lane := s.parties.Of(d).pull, s.parties.Of(d.Other()).serve, s.lanes.Of(d);
    NothingAdded(lane);
    match e
    case DeliverRequest(y, k, vault) =>
      if y == d { RequestServed(p, sv, lane, k, vault, x, n); }
    case EndTask(y, k, success) =>
      if y == d {
        TaskDone(p, sv, lane, k, success, x, n);
        assert Without(lane.tasks, k) + [] == Without(lane.tasks, k);
      }
    case DeliverReply(y, k, fast) =>
      if y == d {
        ReplyIsPlaced(s, d, k);
        var r := lane.replies[k];
        SettledPathByPath(p, lane.owner, r, lane.asked[r.id], fast);
        SettledWantsLess(p, r, fast);
        ReplyHeard(p, sv, lane, k, PullSeen(s, e), x, n);
      }
    case HearComplete(y) =>
      if y != d {
        SaidWantsNothing(s, d);
        AllowedDoesNotCharge(sv, sv.(allowed := {}), lane, x, n);
      }
    case _ =>
  }

  lemma NothingAdded(lane: Lane)
    ensures lane.(tasks := lane.tasks + [], replies := lane.replies + []) == lane
  {
    assert lane.tasks + [] == lane.tasks && lane.replies + [] == lane.replies;
  }

  lemma AllowedDoesNotCharge(sv: Server, sv': Server, lane: Lane, x: Path, n: nat)
    requires Charged(sv, lane, x, n) && sv'.serving == sv.serving
    ensures Charged(sv', lane, x, n)
  {}

  lemma SettledWantsLess(p: Puller, r: Reply, fast: bool)
    ensures Settled(p, r.id, r.received, r.failed, fast).pending <= p.pending
  {
    FailedOnlyDrops(Received(p.(active := p.active - {r.id}), r.received), r.failed);
  }

  lemma SaidWantsNothing(s: Sync, d: Side)
    requires SyncInv(s) && d in s.saying
    ensures s.parties.Of(d).pull.pending == {} && s.parties.Of(d.Other()).syncing
  {
    hide LaneInv;
    PreOfInv(s, d);
  }

  /** Who is asked, or told that nothing more will be, is still in the sync. */
  lemma HandlerListens(s: Sync, e: Event)
    requires SyncInv(s) && Possible(s, e)
    ensures PartyCore(s.parties.Of(Handler(e)))
    ensures e.DeliverRequest? || e.HearComplete? ==> s.parties.Of(Handler(e)).syncing
  {
    PreOfInv(s, Handler(e));
    if e.DeliverRequest? {
      PreOfInv(s, e.d);
      RequestIsActive(s, e.d, e.k);
      PeerListens(s, e.d);
    }
    if e.HearComplete? { SaidWantsNothing(s, e.d.Other()); }
    hide LaneInv, WordInv;
  }

  lemma LeavingKeepsService(p: Puller, q: Puller, sv: Server, party: Party, lane: Lane, lane': Lane, x: Path, n: nat)
    requires Charged(sv, lane, x, n) && (Welcome(p, sv, lane, x) || p.pending == {}) && q.pending == p.pending
    requires ServesOrLeft(sv, party) && (!party.syncing ==> p.pending == {})
    requires lane'.tasks == lane.tasks && lane'.replies == lane.replies && lane'.fails == lane.fails
    ensures Welcome(q, party.serve, lane', x) && Charged(party.serve, lane', x, n)
  {}

  lemma NextKeepsService(s: Sync, e: Event, d: Side, x: Path, n: nat)
    requires SyncInv(s) && Configured(s) && Possible(s, e) && ServiceAt(s, d, x, n)
    ensures ServiceAt(Next(s, e), d, x, n + CauseIn(s, e, d, x))
  {
    hide LaneInv, WordInv, Handled, Welcome, Charged, ServeSeen, ServesOrLeft, Queues, PullSeen, CauseIn;
    NextKeeps(s, e);
    EventServes(s, e, d, x, n);
    HandlerListens(s, e);
    HandlerServes(s, e);
    if e.DeliverReply? { ReplyIsPlaced(s, e.d, e.k); }
    HandlerWantsTheSame(s, e);
    TakenKeepsParties(s, e);
    EmitShape(Taken(s, e), Handler(e), Handled(s, e));
    ServiceStep(s, e, d, x, n + CauseIn(s, e, d, x));
  }

  lemma ServiceStep(s: Sync, e: Event, d: Side, x: Path, n: nat)
    requires Configured(s) && Possible(s, e) && SyncInv(Next(s, e)) && ServiceSeen(s, e, d, x, n)
    requires ServesOrLeft(ServeSeen(s, e), Handled(s, e).party)
    requires SameWanted(PullSeen(s, e), Handled(s, e).party.pull)
    ensures ServiceAt(Next(s, e), d, x, n)
  {
    hide LaneInv, WordInv, Handled, Welcome, Charged, ServeSeen, ServesOrLeft, PullSeen, SyncInv;
    var h, c, s0, s' := Handler(e), Handled(s, e), Taken(s, e), Next(s, e);
    TakenKeepsParties(s, e);
    EmitShape(s0, h, c);
    var own := s0.lanes.Of(d);
    if h == d {
      ServesAsBefore(s'.parties.Of(d.Other()));
      if !s'.parties.Of(d.Other()).syncing { OneHasLeft(s', d.Other()); }
      LeavingKeepsService(PullSeen(s, e), c.party.pull, s.parties.Of(d.Other()).serve, s'.parties.Of(d.Other()),
        own, s'.lanes.Of(d), x, n);
    } else {
      if !c.party.syncing { OneHasLeft(s', h); }
      LeavingKeepsService(s.parties.Of(d).pull, s.parties.Of(d).pull, ServeSeen(s, e), c.party,
        own.(tasks := own.tasks + c.tasks, replies := own.replies + c.replies), s'.lanes.Of(d), x, n);
    }
  }

  lemma ServesAsBefore(p: Party)
    ensures ServesOrLeft(p.serve, p)
  {}

  // --- Runs ---

  /** How often in the first `i` events a task with `x` failed, or `x` was not in the vault when it was asked for. */
  ghost function Causes(states: seq<Sync>, events: seq<Event>, i: nat, d: Side, x: Path): nat
    requires IsRun(states, events) && i <= |events|
  {
    if i == 0 then 0
    else
      RunStep(states, events, i - 1);
      Causes(states, events, i - 1, d, x) + CauseIn(states[i - 1], events[i - 1], d, x)
  }

  lemma {:induction false} SyncKeepsService(states: seq<Sync>, events: seq<Event>, i: nat, d: Side, x: Path)
    requires IsSync(states, events) && i < |states|
    ensures ServiceAt(states[i], d, x, Causes(states, events, i, d, x))
  {
    hide SyncInv, Next, ServiceAt, Initial, CauseIn, Possible, Configured;
    if i == 0 {
      ServiceBegins(states[0], d, x);
    } else {
      SyncKeepsService(states, events, i - 1, d, x);
      SyncKeepsInv(states, events, i - 1);
      RunStep(states, events, i - 1);
      NextKeepsService(states[i - 1], events[i - 1], d, x, Causes(states, events, i - 1, d, x));
    }
  }

  lemma ServiceBegins(s: Sync, d: Side, x: Path)
    requires Initial(s)
    ensures ServiceAt(s, d, x, 0)
  {}

  /** In every run a path fails at most as often as there was a cause for it: it is never refused. */
  lemma FailuresHaveCauses(states: seq<Sync>, events: seq<Event>, i: nat, d: Side, x: Path)
    requires IsSync(states, events) && i < |states|
    ensures FailsOf(states[i].lanes.Of(d), x) <= Causes(states, events, i, d, x)
  {
    SyncKeepsService(states, events, i, d, x);
    hide Causes, IsSync;
  }

  /** Main step: once a side has left, every planned path that had at most three causes to fail was received. */
  lemma LeftMeansReceived(states: seq<Sync>, events: seq<Event>, i: nat, d: Side, puller: Side, x: Path)
    requires IsSync(states, events) && i < |states| && !states[i].parties.Of(d).syncing
    requires x in states[i].lanes.Of(puller).plan && Causes(states, events, i, puller, x) <= 3
    ensures x in states[i].lanes.Of(puller).received
  {
    hide Causes, IsSync;
    LeftMeansAccounted(states, events, i, d, puller, x);
    FailuresHaveCauses(states, events, i, puller, x);
  }

  /** Before that, such a path is wanted or received: it is never given up. */
  lemma NeverGivenUp(states: seq<Sync>, events: seq<Event>, i: nat, d: Side, x: Path)
    requires IsSync(states, events) && i < |states|
    requires x in states[i].lanes.Of(d).plan && Causes(states, events, i, d, x) <= 3
    ensures x in states[i].parties.Of(d).pull.pending || x in states[i].lanes.Of(d).received
  {
    hide Causes, IsSync;
    FailuresHaveCauses(states, events, i, d, x);
    SyncKeepsAccount(states, events, i, d);
    assert Accounted(states[i].parties.Of(d).pull, states[i].lanes.Of(d), x);
  }

  /** If every task succeeds and what is asked for is there, nothing fails, and all that was planned is received. */
  lemma NothingFailsWithoutCause(states: seq<Sync>, events: seq<Event>, i: nat, d: Side)
    requires IsSync(states, events) && i < |states| && !states[i].parties.Of(d).syncing
    requires forall j | 0 <= j < i :: events[j].EndTask? ==> events[j].success
    requires forall j, x | 0 <= j < i && events[j].DeliverRequest? && x in states[j].lanes.Of(events[j].d).plan ::
      !events[j].vault(x).Missing?
    ensures forall puller: Side, x | x in states[i].lanes.Of(puller).plan :: x in states[i].lanes.Of(puller).received
  {
    forall puller: Side, x | x in states[i].lanes.Of(puller).plan
      ensures x in states[i].lanes.Of(puller).received
    {
      NoCauses(states, events, i, puller, x);
      LeftMeansReceived(states, events, i, d, puller, x);
    }
    hide *;
  }

  lemma {:induction false} NoCauses(states: seq<Sync>, events: seq<Event>, i: nat, d: Side, x: Path)
    requires IsSync(states, events) && i < |states| && x in states[i].lanes.Of(d).plan
    requires forall j | 0 <= j < i :: events[j].EndTask? ==> events[j].success
    requires forall j | 0 <= j < i && events[j].DeliverRequest? && x in states[j].lanes.Of(events[j].d).plan ::
      !events[j].vault(x).Missing?
    ensures Causes(states, events, i, d, x) == 0
  {
    hide Next, Initial, Configured;
    if i > 0 {
      RunStep(states, events, i - 1);
      PlanStays(states[i - 1], events[i - 1], d);
      NoCauses(states, events, i - 1, d, x);
    }
  }

  lemma PlanStays(s: Sync, e: Event, d: Side)
    requires Possible(s, e) && Configured(s)
    ensures Next(s, e).lanes.Of(d).plan == s.lanes.Of(d).plan
  {
    hide Handled;
    EmitShape(Taken(s, e), Handler(e), Handled(s, e));
  }

  // --- Nothing is allowed any more ---

  lemma DoneIsHeard(s: Sync, e: Event)
    requires Configured(s) && Possible(s, e)
    ensures Handled(s, e).party.peerDone ==> s.parties.Of(Handler(e)).peerDone || e.HearComplete?
  {
    hide RequestAll, Serve, RecordTask, Settled;
    if e.DeliverReply? { SettledConfigured(s.parties.Of(e.d).pull, s.lanes.Of(e.d).replies[e.k], e.fast); }
  }

  /** A side that has heard the other's word is asked for nothing and has nothing queued for it. */
  lemma HeardMeansQuiet(s: Sync, d: Side)
    requires SyncInv(s) && s.parties.Of(d).peerDone
    ensures s.lanes.Of(d.Other()).requests == [] && s.lanes.Of(d.Other()).tasks == []
  {
    PreOfInv(s, d.Other());
    assert s.parties.Of(d.Other()).pull.pending == {};
    WantsNothing(s, d.Other());
    hide LaneInv;
  }

  lemma NextKeepsForbidden(s: Sync, e: Event, d: Side)
    requires SyncInv(s) && Configured(s) && Possible(s, e)
    requires s.parties.Of(d).peerDone ==> s.parties.Of(d).serve.allowed == {}
    ensures Next(s, e).parties.Of(d).peerDone ==> Next(s, e).parties.Of(d).serve.allowed == {}
  {
    hide LaneInv, WordInv, Handled, Serve, RecordTask;
    TakenKeepsParties(s, e);
    EmitShape(Taken(s, e), Handler(e), Handled(s, e));
    if Handler(e) == d {
      HandlerListens(s, e);
      HandlerServes(s, e);
      DoneIsHeard(s, e);
      if s.parties.Of(d).peerDone { HeardMeansQuiet(s, d); }
    }
  }

  /** In every reachable state, who has heard that the other will request nothing more allows nothing any more. */
  lemma {:induction false} HeardMeansForbidden(states: seq<Sync>, events: seq<Event>, i: nat, d: Side)
    requires IsSync(states, events) && i < |states|
    ensures states[i].parties.Of(d).peerDone ==> states[i].parties.Of(d).serve.allowed == {}
  {
    hide SyncInv, Next, Possible, Configured;
    if i > 0 {
      HeardMeansForbidden(states, events, i - 1, d);
      SyncKeepsInv(states, events, i - 1);
      RunStep(states, events, i - 1);
      NextKeepsForbidden(states[i - 1], events[i - 1], d);
    }
  }
}
