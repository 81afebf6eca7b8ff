/** Whole runs of two devices in a full sync: safety of completion, termination, and freedom from deadlock. */
module SyncOutcomes {
  import opened Basics
  import opened Names
  import opened Pulls
  import opened Serves
  import opened Parties
  import opened SyncRuns
  import opened SyncLanes
  import opened SyncTheorems

  lemma InvConfigures(s: Sync)
    requires SyncInv(s)
    ensures Configured(s)
  {
    LaneConfigures(s, L);
    LaneConfigures(s, R);
  }

  lemma RunStep(states: seq<Sync>, events: seq<Event>, i: nat)
    requires IsRun(states, events) && i < |events|
    ensures Possible(states[i], events[i]) && Configured(states[i]) && states[i + 1] == Next(states[i], events[i])
  {
    assert Steps(states[i], events[i], states[i + 1]);
  }

  lemma {:induction false} SyncKeepsInv(states: seq<Sync>, events: seq<Event>, i: nat)
    requires IsSync(states, events) && i < |states|
    ensures SyncInv(states[i]) && Configured(states[i])
  {
    hide SyncInv, Configured, Possible, Next, Initial;
    if i == 0 {
      InitialInv(states[0]);
    } else {
      SyncKeepsInv(states, events, i - 1);
      RunStep(states, events, i - 1);
      NextKeeps(states[i - 1], events[i - 1]);
    }
    InvConfigures(states[i]);
  }

  // --- Safety of completion ---

  ghost predicate NothingUnderWay(lane: Lane) {
    lane.requests == [] && lane.tasks == [] && lane.replies == []
  }

  /** When a side has left, neither wants anything, nothing is under way or being served for either, and each
      has said it is done exactly once. */
  lemma LeftMeansSettled(states: seq<Sync>, events: seq<Event>, i: nat, d: Side)
    requires IsSync(states, events) && i < |states| && !states[i].parties.Of(d).syncing
    ensures forall x: Side :: SettledAt(states[i], x)
  {
    SyncKeepsInv(states, events, i);
    forall x: Side
      ensures SettledAt(states[i], x)
    {
      assert x == d || x == d.Other();
      OneHasLeft(states[i], d);
      WantsNothing(states[i], d);
      WantsNothing(states[i], d.Other());
    }
    hide *;
  }

  ghost predicate SettledAt(s: Sync, x: Side) {
    && s.parties.Of(x).pull.pending == {} && s.parties.Of(x).serve.serving == map[]
    && NothingUnderWay(s.lanes.Of(x)) && s.said.Of(x) == 1
  }

  lemma OneHasLeft(s: Sync, d: Side)
    requires SyncInv(s) && !s.parties.Of(d).syncing
    ensures s.parties.Of(d).pull.pending == {} && s.parties.Of(d.Other()).pull.pending == {} && s.said.Of(d) == 1
      && s.said.Of(d.Other()) == 1
  {
    hide LaneInv;
    PreOfInv(s, d);
    PreOfInv(s, d.Other());
  }

  lemma WantsNothing(s: Sync, d: Side)
    requires SyncInv(s) && s.parties.Of(d).pull.pending == {}
    ensures NothingUnderWay(s.lanes.Of(d)) && s.parties.Of(d.Other()).serve.serving == map[]
  {
    hide LaneInv, WordInv;
    PreOfInv(s, d);
    NothingWanted(s.parties.Of(d).pull, s.parties.Of(d.Other()).serve, s.lanes.Of(d));
  }

  /** What a side pulls as its check of completion sees it: a batch-complete has been settled by then. */
  function PullSeen(s: Sync, e: Event): Puller
    requires Possible(s, e)
  {
    var p := s.parties.Of(Handler(e)).pull;
    match e
    case DeliverReply(d, k, fast) => var r := s.lanes.Of(d).replies[k]; Settled(p, r.id, r.received, r.failed, fast)
    case _ => p
  }

  /** The event that makes a side leave finds its own pulls settled and the other's pending set already empty. */
  lemma LeavesOnlyWhenSettled(states: seq<Sync>, events: seq<Event>, i: nat, d: Side)
    requires IsSync(states, events) && i < |events|
    requires states[i].parties.Of(d).syncing && !states[i + 1].parties.Of(d).syncing
    ensures Handler(events[i]) == d && PullSeen(states[i], events[i]).pending == {}
    ensures states[i].parties.Of(d.Other()).pull.pending == {}
  {
    hide SyncInv;
    SyncKeepsInv(states, events, i);
    RunStep(states, events, i);
    var s, e := states[i], events[i];
    LeftMeansSettled(states, events, i + 1, d);
    assert SettledAt(states[i + 1], d.Other());
    EmitShape(Taken(s, e), Handler(e), Handled(s, e));
    TakenKeepsParties(s, e);
    assert Handler(e) == d;
    assert states[i + 1].parties.Of(d.Other()) == s.parties.Of(d.Other());
    LeavingIsFinished(s, e);
  }

  lemma TakenKeepsParties(s: Sync, e: Event)
    requires Possible(s, e)
    ensures Taken(s, e).parties == s.parties
  {}

  lemma CheckLeavesSettled(p: Party)
    requires p.syncing && PartyCore(p) && !Check(p).party.syncing
    ensures p.pull.pending == {}
  {}

  lemma {:induction false} RequestingKeepsWanted(p: Puller)
    requires p.cfg.filesPerBatch > 0
    ensures RequestAll(p).0.pending == p.pending && RequestAll(p).0.retries == p.retries
    decreases |p.order| - p.cursor
  {
    if |p.active| < p.cfg.maxBatches {
      var q := Skip(p);
      SkipStops(p);
      if q.cursor < |q.order| {
        FillAdvances(q, [], 0);
        FillKeepsConfig(q, [], 0);
        RequestingKeepsWanted(Registered(Fill(q, [], 0).0));
      }
    }
  }

  lemma RequestNextLeavesSettled(p: Party)
    requires p.syncing && PartyCore(p) && p.pull.cfg.filesPerBatch > 0 && !RequestNext(p).party.syncing
    ensures p.pull.pending == {}
  {
    RequestingKeepsWanted(p.pull);
  }

  lemma LeavingIsFinished(s: Sync, e: Event)
    requires SyncInv(s) && Configured(s) && Possible(s, e)
    requires s.parties.Of(Handler(e)).syncing && !Handled(s, e).party.syncing
    ensures PullSeen(s, e).pending == {}
  {
    var d := Handler(e);
    var p := s.parties.Of(d);
    PreOfInv(s, d);
    match e
    case Start(_) => RequestNextLeavesSettled(p);
    case DeliverReply(_, k, fast) => ReplyLeavesSettled(p, s.lanes.Of(d).replies[k], fast);
    case DeliverRequest(x, k, vault) => RequestLeavesSettled(p, s.lanes.Of(x).requests[k], vault);
    case EndTask(x, k, success) => TaskLeavesSettled(p, s.lanes.Of(x).tasks[k], success);
    case HearComplete(_) => CheckLeavesSettled(p.(peerDone := true, serve := p.serve.(allowed := {})));
    case HearAck(_) => CheckLeavesSettled(p.(delivered := true));
  }

  lemma ReplyLeavesSettled(p: Party, r: Reply, fast: bool)
    requires p.syncing && PartyCore(p) && p.pull.cfg.filesPerBatch > 0 && !OnBatchComplete(p, r, fast).party.syncing
    ensures Settled(p.pull, r.id, r.received, r.failed, fast).pending == {}
  {
    FailedOnlyDrops(Received(p.pull.(active := p.pull.active - {r.id}), r.received), r.failed);
    FailedKeepsConfig(Received(p.pull.(active := p.pull.active - {r.id}), r.received), r.failed);
    RequestNextLeavesSettled(p.(pull := Settled(p.pull, r.id, r.received, r.failed, fast)));
  }

  lemma {:induction false} FailedOnlyDrops(p: Puller, paths: seq<Path>)
    ensures Failed(p, paths).pending <= p.pending && Failed(p, paths).active == p.active
    decreases paths
  {
    if paths != [] { FailedOnlyDrops(FailedOne(p, paths[0]), paths[1..]); }
  }

  lemma RequestLeavesSettled(p: Party, r: Request, vault: Path -> Entry)
    requires p.syncing && PartyCore(p) && !OnRequest(p, r, vault).party.syncing
    ensures p.pull.pending == {}
  {}

  lemma TaskLeavesSettled(p: Party, t: Task, success: bool)
    requires p.syncing && PartyCore(p) && !OnTaskEnd(p, t, success).party.syncing
    ensures p.pull.pending == {}
  {}

  // --- One's own word ---

  /** Side d began with no stale acknowledgement: an acknowledged word was heard, and who left was acknowledged. */
  ghost predicate Heard(s: Sync, d: Side) {
    var p := s.parties.Of(d);
    (p.delivered ==> s.said.Of(d) == 1 && d !in s.saying) && (!p.syncing ==> p.delivered)
  }

  /** What a handler does to the delivered flag, and when it may say or leave. */
  ghost predicate FlagEffect(p: Party, c: Effect, acknowledged: bool) {
    && c.party.delivered == (p.delivered || acknowledged)
    && (p.syncing && !c.party.syncing ==> c.party.delivered)
    && (!p.syncing ==> !c.party.syncing && !c.says)
    && (c.says ==> !p.localDone && p.syncing)
  }

  lemma FlagEffects(s: Sync, e: Event)
    requires Configured(s) && Possible(s, e) && PartyCore(s.parties.Of(Handler(e)))
    ensures FlagEffect(s.parties.Of(Handler(e)), Handled(s, e), e.HearAck?)
  {
    hide FlagEffect, RequestNext, OnBatchComplete, OnRequest, OnTaskEnd, OnSyncComplete, OnDelivered;
    var p := s.parties.Of(Handler(e));
    match e
    case Start(_) => StartFlagEffects(p);
    case DeliverReply(d, k, fast) => ReplyFlagEffects(p, s.lanes.Of(d).replies[k], fast);
    case DeliverRequest(d, k, vault) => RequestFlagEffects(p, s.lanes.Of(d).requests[k], vault);
    case EndTask(d, k, success) => TaskFlagEffects(p, s.lanes.Of(d).tasks[k], success);
    case HearComplete(_) => HearingFlagEffects(p);
    case HearAck(_) => HearingFlagEffects(p);
  }

  lemma StartFlagEffects(p: Party)
    requires p.pull.cfg.filesPerBatch > 0 && PartyCore(p)
    ensures FlagEffect(p, RequestNext(p), false)
  {
    hide RequestAll;
  }

  lemma RequestFlagEffects(p: Party, r: Request, vault: Path -> Entry)
    requires PartyCore(p)
    ensures FlagEffect(p, OnRequest(p, r, vault), false)
  {
    hide Serve;
  }

  lemma TaskFlagEffects(p: Party, t: Task, success: bool)
    requires PartyCore(p)
    ensures FlagEffect(p, OnTaskEnd(p, t, success), false)
  {
    hide RecordTask;
  }

  lemma HearingFlagEffects(p: Party)
    requires PartyCore(p)
    ensures FlagEffect(p, OnSyncComplete(p), false) && FlagEffect(p, OnDelivered(p), true)
  {}

  lemma ReplyFlagEffects(p: Party, r: Reply, fast: bool)
    requires p.pull.cfg.filesPerBatch > 0 && PartyCore(p)
    ensures FlagEffect(p, OnBatchComplete(p, r, fast), false)
  {
    hide RequestAll;
    FailedKeepsConfig(Received(p.pull.(active := p.pull.active - {r.id}), r.received), r.failed);
  }

  lemma HandlingKeepsHeard(s: Sync, e: Event, d: Side)
    requires SyncInv(s) && Configured(s) && Possible(s, e) && Heard(s, d)
    ensures Heard(Next(s, e), d)
  {
    var h := Handler(e);
    PreOfInv(s, d);
    PreOfInv(s, h);
    FlagEffects(s, e);
    HeardStep(s, e, d, Handled(s, e));
  }

  lemma HeardStep(s: Sync, e: Event, d: Side, c: Effect)
    requires Possible(s, e) && Heard(s, d) && WordInv(s, d) && FlagEffect(s.parties.Of(Handler(e)), c, e.HearAck?)
    ensures Heard(Emit(Taken(s, e), Handler(e), c), d)
  {
    TakenKeepsParties(s, e);
    EmitShape(Taken(s, e), Handler(e), c);
  }

  /** Without a stale acknowledgement at the start, a side leaves only after the other has heard that it is done. */
  lemma {:induction false} OwnWordHeardBeforeLeaving(states: seq<Sync>, events: seq<Event>, i: nat, d: Side)
    requires IsSync(states, events) && i < |states| && !states[0].parties.Of(d).delivered
    ensures Heard(states[i], d)
    ensures !states[i].parties.Of(d).syncing ==> d !in states[i].saying
  {
    hide SyncInv, Next;
    if i > 0 {
      OwnWordHeardBeforeLeaving(states, events, i - 1, d);
      SyncKeepsInv(states, events, i - 1);
      RunStep(states, events, i - 1);
      HandlingKeepsHeard(states[i - 1], events[i - 1], d);
    }
  }

  // --- Every run ends ---

  /** Requests left for wanted paths; sides not started; requests under way; tasks outstanding; words unsaid
      or under way. */
  datatype Rank = Rank(weight: nat, unstarted: nat, requests: nat, tasks: nat, words: nat)

  predicate Below(a: Rank, b: Rank) {
    || a.weight < b.weight
    || (a.weight == b.weight && a.unstarted < b.unstarted)
    || (a.weight == b.weight && a.unstarted == b.unstarted && a.requests < b.requests)
    || (a.weight == b.weight && a.unstarted == b.unstarted && a.requests == b.requests && a.tasks < b.tasks)
    || (a.weight == b.weight && a.unstarted == b.unstarted && a.requests == b.requests && a.tasks == b.tasks
        && a.words < b.words)
  }

  function Words(s: Sync, d: Side): nat {
    (if s.said.Of(d) == 0 then 3 else 0) + (if d in s.saying then 2 else 0) + (if d in s.acking then 1 else 0)
  }

  function WeightAt(s: Sync, d: Side): nat {
    Weight(s.parties.Of(d).pull, s.lanes.Of(d).plan)
  }

  function RankOf(s: Sync): Rank {
    Rank(WeightAt(s, L) + WeightAt(s, R),
         (if s.started.l then 0 else 1) + (if s.started.r then 0 else 1),
         |s.lanes.l.requests| + |s.lanes.r.requests|,
         |s.lanes.l.tasks| + |s.lanes.r.tasks|,
         Words(s, L) + Words(s, R))
  }

  lemma RankBySides(s: Sync, d: Side)
    ensures RankOf(s) == Rank(WeightAt(s, d) + WeightAt(s, d.Other()),
         (if s.started.Of(d) then 0 else 1) + (if s.started.Of(d.Other()) then 0 else 1),
         |s.lanes.Of(d).requests| + |s.lanes.Of(d.Other()).requests|,
         |s.lanes.Of(d).tasks| + |s.lanes.Of(d.Other()).tasks|,
         Words(s, d) + Words(s, d.Other()))
  {}

  /** The slots of a party after handling an event are at most what they were. */
  ghost predicate NoMoreWanted(p: Puller, q: Puller) {
    forall x :: Slot(q, x) <= Slot(p, x)
  }

  lemma CheckWantsNoMore(p: Party)
    ensures NoMoreWanted(p.pull, Check(p).party.pull)
  {}

  lemma RequestNextWantsNoMore(p: Party)
    requires p.pull.cfg.filesPerBatch > 0
    ensures NoMoreWanted(p.pull, RequestNext(p).party.pull)
  {
    RequestingKeepsWanted(p.pull);
    SameSlots(p.pull, RequestAll(p.pull).0);
  }

  /** Handling an event other than a batch-complete wants no more than before, and sends requests only when
      asking for the next batches. */
  lemma HandlersWantNoMore(s: Sync, e: Event)
    requires Configured(s) && Possible(s, e)
    ensures !e.DeliverReply? ==> NoMoreWanted(s.parties.Of(Handler(e)).pull, Handled(s, e).party.pull)
    ensures !e.DeliverReply? && !e.Start? ==> Handled(s, e).requests == []
    ensures !e.DeliverRequest? ==> Handled(s, e).tasks == []
  {
    HandlersSend(s, e);
    hide RequestNext, Settled, Serve, RecordTask, Slot, OnBatchComplete, Check;
    var p := s.parties.Of(Handler(e));
    match e
    case Start(_) => RequestNextWantsNoMore(p);
    case DeliverReply(d, k, fast) =>
      var r := s.lanes.Of(d).replies[k];
      FailedKeepsConfig(Received(p.pull.(active := p.pull.active - {r.id}), r.received), r.failed);
    case HearComplete(_) => CheckWantsNoMore(p.(peerDone := true, serve := p.serve.(allowed := {})));
    case HearAck(_) => CheckWantsNoMore(p.(delivered := true));
    case DeliverRequest(d, k, vault) =>
      CheckWantsNoMore(p.(phase := Transferring,
          serve := Serve(p.serve, s.lanes.Of(d).requests[k].id, s.lanes.Of(d).requests[k].paths, vault).server));
    case EndTask(d, k, success) =>
      CheckWantsNoMore(p.(serve := RecordTask(p.serve, s.lanes.Of(d).tasks[k].id,
            s.lanes.Of(d).tasks[k].paths, success, true).0));
  }

  lemma HandlersSend(s: Sync, e: Event)
    requires Configured(s) && Possible(s, e)
    ensures !e.DeliverReply? && !e.Start? ==> Handled(s, e).requests == []
    ensures !e.DeliverRequest? ==> Handled(s, e).tasks == []
  {
    hide RequestAll, Settled, Serve, RecordTask;
    if e.DeliverReply? {
      SettledConfigured(s.parties.Of(e.d).pull, s.lanes.Of(e.d).replies[e.k], e.fast);
    }
  }

  /** A batch-complete leaves strictly fewer requests to make. */
  lemma ReplyLowersWeight(s: Sync, d: Side, k: nat, fast: bool)
    requires SyncInv(s) && Configured(s) && k < |s.lanes.Of(d).replies|
    ensures Weight(Handled(s, DeliverReply(d, k, fast)).party.pull, s.lanes.Of(d).plan) < WeightAt(s, d)
  {
    hide LaneInv, WordInv, Weight, Settled, Slot;
    var p, r, lane := s.parties.Of(d), s.lanes.Of(d).replies[k], s.lanes.Of(d);
    PreOfInv(s, d);
    ReplyArrives(p.pull, s.parties.Of(d.Other()).serve, lane, k, fast);
    PeerListens(s, d);
    SettlingLowersWeight(p, r, fast, lane.plan);
  }

  lemma SettlingLowersWeight(p: Party, r: Reply, fast: bool, plan: seq<Path>)
    requires p.syncing && p.phase.Transferring? && r.id in p.pull.active && p.pull.cfg.filesPerBatch > 0
    requires var q := Settled(p.pull, r.id, r.received, r.failed, fast);
      (forall x :: Slot(q, x) <= Slot(p.pull, x)) && (exists x :: x in plan && Slot(q, x) < Slot(p.pull, x))
    ensures Weight(OnBatchComplete(p, r, fast).party.pull, plan) < Weight(p.pull, plan)
  {
    SettledConfigured(p.pull, r, fast);
    var q := Settled(p.pull, r.id, r.received, r.failed, fast);
    assert OnBatchComplete(p, r, fast) == RequestNext(p.(pull := q));
    hide Settled, RequestNext, Slot;
    RequestNextWantsNoMore(p.(pull := q));
    WeightFollowsSlots(p.pull, q, plan);
    WeightFollowsSlots(q, RequestNext(p.(pull := q)).party.pull, plan);
  }

  lemma SettledConfigured(p: Puller, r: Reply, fast: bool)
    requires p.cfg.filesPerBatch > 0
    ensures Settled(p, r.id, r.received, r.failed, fast).cfg.filesPerBatch > 0
  {
    FailedKeepsConfig(Received(p.(active := p.active - {r.id}), r.received), r.failed);
  }

  /** Every event of every reachable state lowers the rank: there is no endless run. */
  lemma NextRanksBelow(s: Sync, e: Event)
    requires SyncInv(s) && Configured(s) && Possible(s, e)
    ensures Below(RankOf(Next(s, e)), RankOf(s))
  {
    var h, c := Handler(e), Handled(s, e);
    var s0, s' := Taken(s, e), Next(s, e);
    PreOfInv(s, h);
    FlagEffects(s, e);
    HandlersWantNoMore(s, e);
    if e.DeliverReply? {
      ReplyLowersWeight(s, e.d, e.k, e.fast);
    } else {
      WeightFollowsSlots(s.parties.Of(h).pull, c.party.pull, s.lanes.Of(h).plan);
    }
    RankStep(s, e, c);
  }

  /** A word heard, or its acknowledgement, is a word less; and none is said again. */
  lemma WordsStep(s: Sync, e: Event, c: Effect)
    requires Possible(s, e) && WordInv(s, L) && WordInv(s, R) && FlagEffect(s.parties.Of(Handler(e)), c, e.HearAck?)
    ensures var s' := Emit(Taken(s, e), Handler(e), c);
      e.HearComplete? || e.HearAck? ==>
        Words(s', Handler(e)) + Words(s', Handler(e).Other()) < Words(s, Handler(e)) + Words(s, Handler(e).Other())
  {
    TakenKeepsParties(s, e);
    EmitShape(Taken(s, e), Handler(e), c);
  }

  lemma RankStep(s: Sync, e: Event, c: Effect)
    requires Possible(s, e) && WordInv(s, L) && WordInv(s, R)
    requires FlagEffect(s.parties.Of(Handler(e)), c, e.HearAck?)
    requires var w := Weight(c.party.pull, s.lanes.Of(Handler(e)).plan);
      w <= WeightAt(s, Handler(e)) && (e.DeliverReply? ==> w < WeightAt(s, Handler(e)))
    requires !e.DeliverReply? && !e.Start? ==> c.requests == []
    requires !e.DeliverRequest? ==> c.tasks == []
    ensures Below(RankOf(Emit(Taken(s, e), Handler(e), c)), RankOf(s))
  {
    hide Weight, RankOf, Words, WordInv, FlagEffect, Emit, Taken;
    var h, s' := Handler(e), Emit(Taken(s, e), Handler(e), c);
    WordsStep(s, e, c);
    CountsStep(s, e, c);
    RankBySides(s, h);
    RankBySides(s', h);
  }

  function Requests(s: Sync, h: Side): nat {
    |s.lanes.Of(h).requests| + |s.lanes.Of(h.Other()).requests|
  }

  function Tasks(s: Sync, h: Side): nat {
    |s.lanes.Of(h).tasks| + |s.lanes.Of(h.Other()).tasks|
  }

  /** What an event takes, and what it leaves as it was. */
  lemma CountsStep(s: Sync, e: Event, c: Effect)
    requires Possible(s, e)
    ensures var h, s' := Handler(e), Emit(Taken(s, e), Handler(e), c);
      && s'.parties.Of(h) == c.party && s'.parties.Of(h.Other()) == s.parties.Of(h.Other())
      && s'.lanes.Of(h).plan == s.lanes.Of(h).plan && s'.lanes.Of(h.Other()).plan == s.lanes.Of(h.Other()).plan
      && (if e.Start? then !s.started.Of(h) && s'.started.Of(h) else s'.started.Of(h) == s.started.Of(h))
      && s'.started.Of(h.Other()) == s.started.Of(h.Other())
      && Requests(s', h) + (if e.DeliverRequest? then 1 else 0) == Requests(s, h) + |c.requests|
      && Tasks(s', h) + (if e.EndTask? then 1 else 0) == Tasks(s, h) + |c.tasks|
  {
    EmitShape(Taken(s, e), Handler(e), c);
    hide Emit;
  }

  /** As long as a side is still syncing, some event is possible: no run gets stuck before both sides have left. */
  lemma NotStuck(states: seq<Sync>, events: seq<Event>, i: nat)
    requires IsSync(states, events) && i < |states|
    requires forall e: Event :: !Possible(states[i], e)
    ensures !states[i].parties.l.syncing && !states[i].parties.r.syncing
  {
    SyncKeepsInv(states, events, i);
    var s := states[i];
    NothingPossible(s, L);
    NothingPossible(s, R);
  }

  lemma NothingPossible(s: Sync, d: Side)
    requires SyncInv(s) && forall e: Event :: !Possible(s, e)
    ensures !s.parties.Of(d).syncing
  {
    var o := d.Other();
    assert !Possible(s, Start(d)) && !Possible(s, Start(o));
    NoLaneEvent(s, d);
    NoLaneEvent(s, o);
    QuietLane(s, d);
    QuietLane(s, o);
    assert !Possible(s, HearComplete(d)) && !Possible(s, HearComplete(o)) && !Possible(s, HearAck(d))
      && !Possible(s, HearAck(o));
    PreOfInv(s, d);
    PreOfInv(s, o);
  }

  lemma NoLaneEvent(s: Sync, d: Side)
    requires forall e: Event | !e.HearComplete? :: !Possible(s, e)
    ensures NothingUnderWay(s.lanes.Of(d))
  {
    assert !Possible(s, DeliverRequest(d, 0, x => Missing)) && !Possible(s, EndTask(d, 0, true))
      && !Possible(s, DeliverReply(d, 0, true));
  }

  /** With nothing under way on its lane, a side that has started wants nothing, and its peer serves nothing. */
  lemma QuietLane(s: Sync, d: Side)
    requires SyncInv(s) && s.started.Of(d) && NothingUnderWay(s.lanes.Of(d))
    ensures s.parties.Of(d).pull.pending == {} && s.parties.Of(d.Other()).serve.serving == map[]
  {
    hide LaneInv, WordInv;
    PreOfInv(s, d);
    NothingActive(s.parties.Of(d).pull, s.parties.Of(d.Other()).serve, s.lanes.Of(d));
  }

  lemma NothingActive(p: Puller, sv: Server, lane: Lane)
    requires LaneInv(p, sv, lane) && NothingUnderWay(lane)
    ensures p.active == {} && sv.serving == map[]
  {
    if sv.serving.Keys != {} {
      var id :| id in sv.serving;
      ConservesSomething(sv.serving[id], lane.asked[id], Outstanding(lane.tasks, id));
    }
    forall id | id in p.active
      ensures id in sv.serving
    {
      assert InRequests(lane.requests, id) || id in sv.serving || InReplies(lane.replies, id);
    }
  }

  /** A batch being served always has something outstanding. */
  lemma ConservesSomething(b: Batch, asked: seq<Path>, outstanding: multiset<Path>)
    requires Conserves(b, asked, outstanding)
    ensures outstanding != multiset{}
  {
    assert |multiset(asked)| == |multiset(b.succeeded)| + |multiset(b.failed)| + |outstanding|;
  }

  // --- What runs there are ---

  /** Some run leads from `s` to `t`. */
  ghost predicate Reaches(s: Sync, t: Sync) {
    exists states: seq<Sync>, events: seq<Event> :: IsRun(states, events) && states[0] == s && states[|events|] == t
  }

  lemma ReachesItself(s: Sync)
    ensures Reaches(s, s)
  {
    assert IsRun([s], []);
  }

  lemma ReachesFirst(s: Sync, e: Event, t: Sync)
    requires Possible(s, e) && Configured(s) && Reaches(Next(s, e), t)
    ensures Reaches(s, t)
  {
    hide Possible, Configured, Next;
    var states, events :| IsRun(states, events) && states[0] == Next(s, e) && states[|events|] == t;
    var more, all := [s] + states, [e] + events;
    forall i | 0 <= i < |all|
      ensures Steps(more[i], all[i], more[i + 1])
    {
      if i > 0 { assert Steps(states[i - 1], events[i - 1], states[i]); }
    }
    assert IsRun(more, all) && more[|all|] == t;
  }

  lemma ReachedKeepsInv(s: Sync, t: Sync)
    requires Initial(s) && Reaches(s, t)
    ensures SyncInv(t) && Configured(t)
  {
    hide SyncInv, Configured, Initial;
    var states, events :| IsRun(states, events) && states[0] == s && states[|events|] == t;
    SyncKeepsInv(states, events, |events|);
  }

  /** Neither side is syncing any more. */
  ghost predicate BothLeft(s: Sync) {
    !s.parties.l.syncing && !s.parties.r.syncing
  }

  lemma {:induction false} EndsFrom(s: Sync)
    requires SyncInv(s) && Configured(s)
    ensures exists t :: Reaches(s, t) && BothLeft(t)
    decreases RankOf(s).weight, RankOf(s).unstarted, RankOf(s).requests, RankOf(s).tasks, RankOf(s).words
  {
    hide SyncInv, Configured, Possible, Next, RankOf, Reaches;
    if e: Event :| Possible(s, e) {
      NextKeeps(s, e);
      InvConfigures(Next(s, e));
      NextRanksBelow(s, e);
      EndsFrom(Next(s, e));
      var t :| Reaches(Next(s, e), t) && BothLeft(t);
      ReachesFirst(s, e, t);
    } else {
      NothingPossible(s, L);
      NothingPossible(s, R);
      ReachesItself(s);
    }
  }

  /** From every reachable state the sync can be brought to its end on both sides. */
  lemma CanAlwaysEnd(s: Sync, t: Sync)
    requires Initial(s) && Reaches(s, t)
    ensures exists u :: Reaches(t, u) && BothLeft(u)
  {
    hide SyncInv, Configured, Initial, Reaches;
    ReachedKeepsInv(s, t);
    EndsFrom(t);
  }

  lemma {:induction false} DescendsForever(states: nat -> Sync, events: nat -> Event, i: nat)
    requires SyncInv(states(i)) && Configured(states(i))
    requires forall k: nat :: Steps(states(k), events(k), states(k + 1))
    ensures false
    decreases RankOf(states(i)).weight, RankOf(states(i)).unstarted, RankOf(states(i)).requests,
      RankOf(states(i)).tasks, RankOf(states(i)).words
  {
    hide SyncInv, Configured, Possible, Next, RankOf;
    assert Steps(states(i), events(i), states(i + 1));
    NextKeeps(states(i), events(i));
    InvConfigures(states(i + 1));
    NextRanksBelow(states(i), events(i));
    DescendsForever(states, events, i + 1);
  }

  /** And it always ends: no endless sequence of events is a run. */
  lemma NoEndlessRun(states: nat -> Sync, events: nat -> Event)
    requires Initial(states(0))
    ensures exists k: nat :: !Steps(states(k), events(k), states(k + 1))
  {
    hide SyncInv, Configured, Steps;
    InitialInv(states(0));
    InvConfigures(states(0));
    if forall k: nat :: Steps(states(k), events(k), states(k + 1)) {
      DescendsForever(states, events, 0);
    }
  }

  // --- A stale acknowledgement ---

  /** Side d holds an acknowledgement of a word it has not said, or that is still under way. */
  ghost predicate Ahead(s: Sync, d: Side) {
    s.parties.Of(d).delivered && (s.said.Of(d) == 0 || d in s.saying)
  }

  /** As long as d is syncing, something can happen other than that its word is heard. */
  lemma OtherEvent(s: Sync, d: Side)
    requires SyncInv(s) && Ahead(s, d) && s.parties.Of(d).syncing
    ensures exists e :: Possible(s, e) && e != HearComplete(d.Other())
  {
    if forall e :: Possible(s, e) ==> e == HearComplete(d.Other()) {
      OnlyHearing(s, d);
    }
  }

  lemma OnlyHearing(s: Sync, d: Side)
    requires SyncInv(s) && forall e :: Possible(s, e) ==> e == HearComplete(d.Other())
    ensures s.parties.Of(d).syncing ==> !s.parties.Of(d).delivered
  {
    var o := d.Other();
    assert !Possible(s, Start(d)) && !Possible(s, Start(o)) && !Possible(s, HearComplete(d));
    NoLaneEvent(s, d);
    NoLaneEvent(s, o);
    hide SyncInv, NothingUnderWay;
    QuietLane(s, d);
    QuietLane(s, o);
    forall x: Side ensures s.parties.Of(x).pull.pending == {} && s.parties.Of(x).serve.serving == map[] {
      assert x == d || x == o;
    }
    QuietAndUnheard(s, d);
  }

  /** Both sides have started and settled, and d has nothing left to hear. */
  lemma QuietAndUnheard(s: Sync, d: Side)
    requires SyncInv(s) && s.started.Of(d.Other()) && s.started.Of(d)
    requires forall x: Side :: s.parties.Of(x).pull.pending == {} && s.parties.Of(x).serve.serving == map[]
    requires d.Other() !in s.saying
    ensures s.parties.Of(d).syncing ==> !s.parties.Of(d).delivered
  {
    var o := d.Other();
    hide LaneInv, LaneAt;
    assert PartyInv(s, d) && PartyInv(s, o) && WordInv(s, o);
  }

  lemma StaysAhead(s: Sync, d: Side, e: Event)
    requires SyncInv(s) && Configured(s) && Ahead(s, d) && Possible(s, e) && e != HearComplete(d.Other())
    ensures Ahead(Next(s, e), d)
  {
    hide LaneInv;
    PreOfInv(s, d);
    PreOfInv(s, Handler(e));
    FlagEffects(s, e);
    AheadStep(s, d, e, Handled(s, e));
  }

  lemma AheadStep(s: Sync, d: Side, e: Event, c: Effect)
    requires Possible(s, e) && Ahead(s, d) && e != HearComplete(d.Other())
    requires FlagEffect(s.parties.Of(Handler(e)), c, e.HearAck?)
    ensures Ahead(Emit(Taken(s, e), Handler(e), c), d)
  {
    TakenKeepsParties(s, e);
    EmitShape(Taken(s, e), Handler(e), c);
  }

  /** Side d has left, and its word that it is done is still on its way. */
  ghost predicate LeftUnheard(s: Sync, d: Side) {
    !s.parties.Of(d).syncing && d in s.saying
  }

  lemma AheadHasLeft(s: Sync, d: Side)
    requires SyncInv(s) && Ahead(s, d) && !s.parties.Of(d).syncing
    ensures LeftUnheard(s, d)
  {
    hide LaneInv;
    PreOfInv(s, d);
  }

  lemma {:induction false} LeavesUnheardFrom(s: Sync, d: Side)
    requires SyncInv(s) && Configured(s) && Ahead(s, d)
    ensures exists t :: Reaches(s, t) && LeftUnheard(t, d)
    decreases RankOf(s).weight, RankOf(s).unstarted, RankOf(s).requests, RankOf(s).tasks, RankOf(s).words
  {
    hide SyncInv, Configured, Possible, Next, RankOf, Reaches, LeftUnheard, Ahead;
    if s.parties.Of(d).syncing {
      OtherEvent(s, d);
      var e :| Possible(s, e) && e != HearComplete(d.Other());
      NextKeeps(s, e);
      InvConfigures(Next(s, e));
      NextRanksBelow(s, e);
      StaysAhead(s, d, e);
      LeavesUnheardFrom(Next(s, e), d);
      var t :| Reaches(Next(s, e), t) && LeftUnheard(t, d);
      ReachesFirst(s, e, t);
    } else {
      AheadHasLeft(s, d);
      ReachesItself(s);
    }
  }

  lemma HeardIfFresh(s: Sync, t: Sync, d: Side)
    requires Initial(s) && Reaches(s, t) && !s.parties.Of(d).delivered
    ensures !LeftUnheard(t, d)
  {
    hide Initial;
    var states, events :| IsRun(states, events) && states[0] == s && states[|events|] == t;
    OwnWordHeardBeforeLeaving(states, events, |events|, d);
  }

  /**
   Only an aborted sync clears the delivered flag. A sync can end on one side with that side's word
   unheard exactly if it began with the flag set there, whatever the plans.
   */
  lemma LeavesUnheardIffStale(s: Sync, d: Side)
    requires Initial(s)
    ensures (exists t :: Reaches(s, t) && LeftUnheard(t, d)) <==> s.parties.Of(d).delivered
  {
    InitialInv(s);
    InvConfigures(s);
    if s.parties.Of(d).delivered {
      LeavesUnheardFrom(s, d);
    } else {
      forall t | Reaches(s, t) ensures !LeftUnheard(t, d) { HeardIfFresh(s, t, d); }
    }
  }
}
