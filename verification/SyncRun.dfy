/**
 Two devices in a full sync, from installed plans on. A session layer delivers every message
 exactly once, in any order; every queued task ends exactly once, with success or without.
 */
module SyncRuns {
  import opened Basics
  import opened Pulls
  import opened Serves
  import opened Parties

  datatype Side = L | R {
    function Other(): Side { if this == L then R else L }
  }

  datatype Both<T> = Both(l: T, r: T) {
    function Of(d: Side): T { if d == L then l else r }
    function With(d: Side, x: T): Both<T> { if d == L then Both(x, r) else Both(l, x) }
  }

  /**
   What lies between a puller and its server: messages under way, outstanding tasks, and a record of what was
   planned, asked, delivered by the server, received by the puller, and how often each path failed.
   */
  datatype Lane = Lane(
    plan: seq<Path>, owner: Owner, asked: map<BatchId, seq<Path>>, delivered: set<Path>,
    received: set<Path>, fails: map<Path, nat>,
    requests: seq<Request>, tasks: seq<Task>, replies: seq<Reply>)

  function NewLane(plan: seq<Path>): Lane {
    Lane(plan, map[], map[], {}, {}, map[], [], [], [])
  }

  function FailsOf(lane: Lane, path: Path): nat {
    if path in lane.fails then lane.fails[path] else 0
  }

  function CountFails(lane: Lane, failed: seq<Path>): map<Path, nat> {
    map x | x in lane.fails.Keys + ToSet(failed) :: FailsOf(lane, x) + if x in failed then 1 else 0
  }

  /**
   `lanes.Of(d)` is where d pulls. `saying` and `acking` hold the sides whose full-sync-complete, or its
   acknowledgement, is under way; `said` counts how often each sent it.
   */
  datatype Sync = Sync(
    parties: Both<Party>, lanes: Both<Lane>, started: Both<bool>,
    saying: set<Side>, acking: set<Side>, said: Both<nat>)

  datatype Event =
    | Start(d: Side)
    | DeliverRequest(d: Side, k: nat, vault: Path -> Entry)
    | EndTask(d: Side, k: nat, success: bool)
    | DeliverReply(d: Side, k: nat, fast: bool)
    | HearComplete(d: Side)
    | HearAck(d: Side)

  predicate Possible(s: Sync, e: Event) {
    match e
    case Start(d) => !s.started.Of(d)
    case DeliverRequest(d, k, _) => k < |s.lanes.Of(d).requests|
    case EndTask(d, k, _) => k < |s.lanes.Of(d).tasks|
    case DeliverReply(d, k, _) => k < |s.lanes.Of(d).replies|
    case HearComplete(d) => d.Other() in s.saying
    case HearAck(d) => d in s.acking
  }

  /** Side `d` has handled something with effect `e`: its requests go to its own lane, its tasks and replies
      to the other's. */
  function Emit(s: Sync, d: Side, e: Effect): Sync {
    var own := s.lanes.Of(d);
    var lanes := s.lanes.With(d, own.(requests := own.requests + e.requests, owner := AskAll(own.owner, e.requests)));
    var theirs := lanes.Of(d.Other());
    s.(parties := s.parties.With(d, e.party),
       lanes := lanes.With(d.Other(), theirs.(tasks := theirs.tasks + e.tasks, replies := theirs.replies + e.replies)),
       saying := if e.says then s.saying + {d} else s.saying,
       said := if e.says then s.said.With(d, s.said.Of(d) + 1) else s.said)
  }

  predicate Configured(s: Sync) {
    s.parties.l.pull.cfg.filesPerBatch > 0 && s.parties.r.pull.cfg.filesPerBatch > 0
  }

  /** The state in which the event's handler runs, and the side it runs on. */
  function Taken(s: Sync, e: Event): Sync
    requires Possible(s, e)
  {
    match e
    case Start(d) => s.(started := s.started.With(d, true))
    case DeliverRequest(d, k, _) =>
      var lane := s.lanes.Of(d);
      s.(lanes := s.lanes.With(d,
        lane.(requests := Without(lane.requests, k),
          asked := lane.asked[lane.requests[k].id := lane.requests[k].paths])))
    case EndTask(d, k, success) =>
      var lane := s.lanes.Of(d);
      s.(lanes := s.lanes.With(d,
        lane.(tasks := Without(lane.tasks, k),
          delivered := DeliveredBy(lane.delivered, lane.tasks[k].paths, success))))
    case DeliverReply(d, k, _) =>
      var lane := s.lanes.Of(d);
      var r := lane.replies[k];
      s.(lanes := s.lanes.With(d,
        lane.(replies := Without(lane.replies, k), owner := lane.owner - ToSet(r.received + r.failed),
          received := lane.received + ToSet(r.received), fails := CountFails(lane, r.failed))))
    case HearComplete(d) => s.(saying := s.saying - {d.Other()}, acking := s.acking + {d.Other()})
    case HearAck(d) => s.(acking := s.acking - {d})
  }

  function Handler(e: Event): Side {
    match e
    case DeliverRequest(d, _, _) => d.Other()
    case EndTask(d, _, _) => d.Other()
    case _ => e.d
  }

  function Handled(s: Sync, e: Event): Effect
    requires Possible(s, e) && Configured(s)
  {
    match e
    case Start(d) => RequestNext(s.parties.Of(d))
    case DeliverRequest(d, k, vault) => OnRequest(s.parties.Of(d.Other()), s.lanes.Of(d).requests[k], vault)
    case EndTask(d, k, success) => OnTaskEnd(s.parties.Of(d.Other()), s.lanes.Of(d).tasks[k], success)
    case DeliverReply(d, k, fast) => OnBatchComplete(s.parties.Of(d), s.lanes.Of(d).replies[k], fast)
    case HearComplete(d) => OnSyncComplete(s.parties.Of(d))
    case HearAck(d) => OnDelivered(s.parties.Of(d))
  }

  function Next(s: Sync, e: Event): Sync
    requires Possible(s, e) && Configured(s)
  {
    Emit(Taken(s, e), Handler(e), Handled(s, e))
  }

  /** The plans are installed on both sides, nothing has been requested, and nobody has said anything. */
  ghost predicate InitialParty(p: Party, plan: seq<Path>, allowed: seq<Path>) {
    && p.syncing && p.phase.Planning? && !p.localDone && !p.peerDone
    && p.serve == Server(ToSet(allowed), map[])
    && p.pull.pending == ToSet(plan) && p.pull.order == plan && p.pull.cursor == 0
    && p.pull.inFlight == {} && p.pull.active == {} && p.pull.retries == map[]
    && p.pull.cfg.filesPerBatch > 0 && p.pull.cfg.maxBatches > 0
  }

  ghost predicate Initial(s: Sync) {
    && InitialParty(s.parties.l, s.lanes.l.plan, s.lanes.r.plan)
    && InitialParty(s.parties.r, s.lanes.r.plan, s.lanes.l.plan)
    && s.lanes.l == NewLane(s.lanes.l.plan) && s.lanes.r == NewLane(s.lanes.r.plan)
    && s.started == Both(false, false) && s.saying == {} && s.acking == {} && s.said == Both(0, 0)
  }

  ghost predicate Steps(s: Sync, e: Event, t: Sync) {
    Possible(s, e) && Configured(s) && t == Next(s, e)
  }

  ghost predicate IsRun(states: seq<Sync>, events: seq<Event>) {
    |states| == |events| + 1
      && forall i {:trigger events[i]} | 0 <= i < |events| :: Steps(states[i], events[i], states[i + 1])
  }

  ghost predicate IsSync(states: seq<Sync>, events: seq<Event>) {
    IsRun(states, events) && Initial(states[0])
  }

  // --- The invariant of a lane ---

  ghost predicate RequestsPlaced(p: Puller, owner: Owner, asked: map<BatchId, seq<Path>>, requests: seq<Request>) {
    && (forall k | 0 <= k < |requests| ::
          requests[k].id in p.active && requests[k].id !in asked && Lists(owner, requests[k].id, requests[k].paths))
    && (forall k, l | 0 <= k < l < |requests| :: requests[k].id != requests[l].id)
  }

  ghost predicate ServingPlaced(p: Puller, owner: Owner, asked: map<BatchId, seq<Path>>, s: Server) {
    forall id | id in s.serving :: id in p.active && id in asked && Lists(owner, id, asked[id])
  }

  ghost predicate ReplyPlaced(p: Puller, owner: Owner, asked: map<BatchId, seq<Path>>, s: Server, r: Reply) {
    && r.id in p.active && r.id in asked && r.id !in s.serving
    && Lists(owner, r.id, asked[r.id]) && Divides(asked[r.id], r.received, r.failed)
  }

  ghost predicate RepliesPlaced(p: Puller, owner: Owner, asked: map<BatchId, seq<Path>>, s: Server, replies: seq<Reply>)
  {
    && (forall k | 0 <= k < |replies| :: ReplyPlaced(p, owner, asked, s, replies[k]))
    && (forall k, l | 0 <= k < l < |replies| :: replies[k].id != replies[l].id)
  }

  ghost predicate InRequests(requests: seq<Request>, id: BatchId) {
    exists k :: 0 <= k < |requests| && requests[k].id == id
  }

  ghost predicate InReplies(replies: seq<Reply>, id: BatchId) {
    exists k :: 0 <= k < |replies| && replies[k].id == id
  }

  ghost predicate Covered(p: Puller, s: Server, requests: seq<Request>, replies: seq<Reply>) {
    forall id | id in p.active :: InRequests(requests, id) || id in s.serving || InReplies(replies, id)
  }

  /** Each active batch is in exactly one place: its request under way, being served, or its reply under way. */
  ghost predicate Placed(p: Puller, s: Server, lane: Lane) {
    && RequestsPlaced(p, lane.owner, lane.asked, lane.requests)
    && ServingPlaced(p, lane.owner, lane.asked, s)
    && RepliesPlaced(p, lane.owner, lane.asked, s, lane.replies)
    && Covered(p, s, lane.requests, lane.replies)
    && (forall id | id in lane.asked :: id < p.nextId)
  }

  ghost predicate LaneInv(p: Puller, s: Server, lane: Lane) {
    && PullInv(p, lane.owner) && NonEmpty(p, lane.owner)
    && p.pending <= ToSet(lane.plan)
    && ServeInv(s, lane.tasks, lane.asked, lane.delivered, ToSet(lane.plan))
    && Placed(p, s, lane)
  }

  // --- The invariant of the completion flags ---

  /** Side d's word that it will request nothing more, on its way from d to its peer and back. */
  ghost predicate WordInv(s: Sync, d: Side) {
    var p, q := s.parties.Of(d), s.parties.Of(d.Other());
    && s.said.Of(d) <= 1
    && (s.said.Of(d) == 1 <==> p.localDone || !p.syncing)
    && (d in s.saying ==> s.said.Of(d) == 1 && q.syncing && !q.peerDone && d !in s.acking)
    && (d in s.acking ==> s.said.Of(d) == 1)
    && (s.said.Of(d) == 1 && d !in s.saying ==> (q.peerDone || !q.syncing) && (d in s.acking || p.delivered))
    && (s.said.Of(d) == 0 ==> !q.peerDone && q.syncing)
  }

  /** What holds of a party even before it checks for completion. */
  ghost predicate PartyCore(p: Party) {
    && (p.syncing <==> !p.phase.Idle?)
    && (p.pull.active != {} ==> p.phase.Transferring?)
    && (p.localDone || !p.syncing ==> p.pull.pending == {})
  }

  /** A started party that wants something has asked for something. */
  ghost predicate Busy(s: Sync, d: Side) {
    s.started.Of(d) && s.parties.Of(d).pull.pending != {} ==> s.parties.Of(d).pull.active != {}
  }

  /** A party that is settled has said so, and one that is finished has left. */
  ghost predicate Checked(s: Sync, d: Side) {
    var p := s.parties.Of(d);
    p.syncing ==> !Finished(p) && (s.started.Of(d) && p.pull.pending == {} ==> p.localDone)
  }

  ghost predicate PartyInv(s: Sync, d: Side) {
    PartyCore(s.parties.Of(d)) && Busy(s, d) && Checked(s, d)
  }

  /** The lane on which side d pulls. */
  ghost predicate LaneAt(s: Sync, d: Side) {
    LaneInv(s.parties.Of(d).pull, s.parties.Of(d.Other()).serve, s.lanes.Of(d))
  }

  ghost predicate SyncInv(s: Sync) {
    LaneAt(s, L) && LaneAt(s, R) && WordInv(s, L) && WordInv(s, R) && PartyInv(s, L) && PartyInv(s, R)
  }

  lemma InitialInv(s: Sync)
    requires Initial(s)
    ensures SyncInv(s)
  {
    hide LaneInv;
    InitialLane(s.parties.l.pull, s.parties.r.serve, s.lanes.l.plan, s.lanes.r.plan, s.parties.l, s.parties.r);
    InitialLane(s.parties.r.pull, s.parties.l.serve, s.lanes.r.plan, s.lanes.l.plan, s.parties.r, s.parties.l);
  }

  lemma InitialLane(p: Puller, sv: Server, plan: seq<Path>, theirs: seq<Path>, me: Party, peer: Party)
    requires InitialParty(me, plan, theirs) && InitialParty(peer, theirs, plan) && p == me.pull && sv == peer.serve
    ensures LaneInv(p, sv, NewLane(plan))
  {
    forall path | path in p.pending
      ensures exists i :: 0 <= i < |p.order| && p.order[i] == path
    {
      assert path in plan;
    }
  }
}
