/**
 What every full sync of two devices guarantees: nobody leaves before both are settled, nobody
 says it is done twice, and no run is endless or stuck.
 */
module SyncTheorems {
  import opened Basics
  import opened Pulls
  import opened Serves
  import opened Parties
  import opened SyncRuns
  import opened SyncLanes

  // --- A check of completion ---

  function CheckAt(s: Sync, d: Side): Sync {
    Emit(s, d, Check(s.parties.Of(d)))
  }

  /** The invariant, but for what a check of side d restores. */
  ghost predicate Pre(s: Sync, d: Side) {
    && LaneAt(s, d) && LaneAt(s, d.Other()) && WordInv(s, d) && WordInv(s, d.Other())
    && PartyCore(s.parties.Of(d)) && PartyInv(s, d.Other())
  }

  lemma PreOfInv(s: Sync, d: Side)
    requires SyncInv(s)
    ensures Pre(s, d) && PartyInv(s, d)
  {}

  lemma InvOfPre(s: Sync, d: Side)
    requires Pre(s, d) && PartyInv(s, d)
    ensures SyncInv(s)
  {}

  /** A check sends nothing, takes nothing, and changes only the party's flags, unless it leaves. */
  lemma CheckShape(s: Sync, d: Side)
    ensures var p, s' := s.parties.Of(d), CheckAt(s, d);
      && s'.lanes == s.lanes && s'.started == s.started && s'.acking == s.acking
      && s'.parties == s.parties.With(d, Check(p).party)
      && s'.saying == (if MaySay(p) then s.saying + {d} else s.saying)
      && s'.said == (if MaySay(p) then s.said.With(d, s.said.Of(d) + 1) else s.said)
  {
    var own := s.lanes.Of(d);
    assert own.requests + [] == own.requests;
    var theirs := s.lanes.Of(d.Other());
    assert theirs.tasks + [] == theirs.tasks && theirs.replies + [] == theirs.replies;
  }

  /** A party that leaves is done, is acknowledged, has heard the other, and serves nothing. */
  lemma LeavesWhenFinished(p: Party)
    requires p.syncing && !Check(p).party.syncing
    ensures var q := p.(localDone := true); Finished(q) && (p.localDone || p.pull.pending == {})
  {}

  lemma CheckKeepsLanes(s: Sync, d: Side)
    requires Pre(s, d)
    ensures LaneAt(CheckAt(s, d), d) && LaneAt(CheckAt(s, d), d.Other())
  {
    var p, o, s' := s.parties.Of(d), d.Other(), CheckAt(s, d);
    CheckShape(s, d);
    if p.syncing && !Check(p).party.syncing {
      LeavesWhenFinished(p);
      PullerLeaves(p.pull, s.parties.Of(o).serve, s.lanes.Of(d));
      ServerForgets(s.parties.Of(o).pull, p.serve, s.lanes.Of(o), {});
    }
  }

  lemma CheckKeepsWords(s: Sync, d: Side)
    requires Pre(s, d)
    ensures WordInv(CheckAt(s, d), d) && WordInv(CheckAt(s, d), d.Other())
  {
    CheckShape(s, d);
  }

  lemma CheckRestores(s: Sync, d: Side)
    requires Pre(s, d) && Busy(s, d)
    ensures SyncInv(CheckAt(s, d))
  {
    hide LaneInv, WordInv;
    CheckShape(s, d);
    CheckKeepsLanes(s, d);
    CheckKeepsWords(s, d);
    InvOfPre(CheckAt(s, d), d);
  }

  lemma ThenCheckIsCheckAt(s: Sync, d: Side, e: Effect)
    requires !e.says
    ensures Emit(s, d, ThenCheck(e)) == CheckAt(Emit(s, d, e), d)
  {
    CheckShape(Emit(s, d, e), d);
  }

  lemma QuietEmitsNothing(s: Sync, d: Side)
    ensures Emit(s, d, Quiet(s.parties.Of(d))) == s
  {
    var own, theirs := s.lanes.Of(d), s.lanes.Of(d.Other());
    assert own.requests + [] == own.requests && theirs.tasks + [] == theirs.tasks
      && theirs.replies + [] == theirs.replies;
  }

  /** What `Emit` does, side by side. */
  ghost predicate Emitted(s: Sync, d: Side, e: Effect, s': Sync) {
    var own, own', theirs, theirs' := s.lanes.Of(d), s'.lanes.Of(d), s.lanes.Of(d.Other()), s'.lanes.Of(d.Other());
    && s'.parties.Of(d) == e.party && s'.parties.Of(d.Other()) == s.parties.Of(d.Other())
    && own' == own.(requests := own.requests + e.requests, owner := AskAll(own.owner, e.requests))
    && theirs' == theirs.(tasks := theirs.tasks + e.tasks, replies := theirs.replies + e.replies)
    && s'.started == s.started && s'.acking == s.acking
    && (!e.says ==> s'.saying == s.saying && s'.said == s.said)
  }

  lemma EmitShape(s: Sync, d: Side, e: Effect)
    ensures Emitted(s, d, e, Emit(s, d, e))
    ensures e.requests == [] ==> Emit(s, d, e).lanes.Of(d) == s.lanes.Of(d)
    ensures e.tasks == [] && e.replies == [] ==> Emit(s, d, e).lanes.Of(d.Other()) == s.lanes.Of(d.Other())
  {
    var own, theirs := s.lanes.Of(d), s.lanes.Of(d.Other());
    assert own.requests + [] == own.requests && theirs.tasks + [] == theirs.tasks
      && theirs.replies + [] == theirs.replies;
  }

  lemma WordsUnchanged(s: Sync, s': Sync, d: Side)
    requires WordInv(s, d)
    requires s'.saying == s.saying && s'.acking == s.acking && s'.said == s.said
    requires forall x: Side :: SameFlags(s.parties.Of(x), s'.parties.Of(x))
    ensures WordInv(s', d)
  {
    assert SameFlags(s.parties.Of(d), s'.parties.Of(d)) && SameFlags(s.parties.Of(d.Other()), s'.parties.Of(d.Other()));
  }

  ghost predicate SameFlags(p: Party, q: Party) {
    p.syncing == q.syncing && p.localDone == q.localDone && p.peerDone == q.peerDone && p.delivered == q.delivered
  }

  // --- Requesting the next batches ---

  /** A party that wants something asks for it. */
  lemma AskingKeeps(s: Sync, d: Side, p: Party)
    requires Pre(s, d) && p == s.parties.Of(d) && !p.phase.Idle? && p.pull.pending != {}
    ensures SyncInv(Emit(s, d, RequestNext(p)))
  {
    hide LaneInv;
    LaneConfigures(s, d);
    var e := RequestNext(p);
    var s' := Emit(s, d, e);
    LaneRequests(p.pull, s.parties.Of(d.Other()).serve, s.lanes.Of(d));
    assert SameFlags(p, e.party) && e.tasks == [] && e.replies == [] && !e.says;
    EmitShape(s, d, e);
    forall x: Side ensures SameFlags(s.parties.Of(x), s'.parties.Of(x)) { assert x == d || x == d.Other(); }
    WordsUnchanged(s, s', d);
    WordsUnchanged(s, s', d.Other());
    AskedLanes(s, d, p, s');
    InvOfPre(s', d);
  }

  lemma AskedLanes(s: Sync, d: Side, p: Party, s': Sync)
    requires Pre(s, d) && p == s.parties.Of(d) && !p.phase.Idle? && p.pull.pending != {}
    requires RequestAll(p.pull).0.active != {} && Emitted(s, d, RequestNext(p), s')
    requires s'.lanes.Of(d.Other()) == s.lanes.Of(d.Other())
    ensures LaneAt(s', d) && LaneAt(s', d.Other()) && PartyCore(s'.parties.Of(d)) && PartyInv(s', d)
      && PartyInv(s', d.Other())
  {
    LaneRequests(p.pull, s.parties.Of(d.Other()).serve, s.lanes.Of(d));
    var (pull, requests) := RequestAll(p.pull);
    assert s'.parties.Of(d) == p.(pull := pull, phase := if requests != [] then Transferring else p.phase);
  }

  lemma RequestNextKeeps(s: Sync, d: Side)
    requires Pre(s, d)
    ensures SyncInv(Emit(s, d, RequestNext(s.parties.Of(d))))
  {
    var p := s.parties.Of(d);
    if p.phase.Idle? {
      QuietEmitsNothing(s, d);
      InvOfPre(s, d);
    } else if p.pull.pending == {} {
      CheckRestores(s, d);
    } else {
      AskingKeeps(s, d, p);
    }
  }

  // --- Every event keeps the invariant ---

  lemma StartKeeps(s: Sync, d: Side)
    requires SyncInv(s) && Possible(s, Start(d)) && Configured(s)
    ensures SyncInv(Next(s, Start(d)))
  {
    hide LaneInv;
    var s0 := Taken(s, Start(d));
    PreOfInv(s, d);
    WordsUnchanged(s, s0, d);
    WordsUnchanged(s, s0, d.Other());
    RequestNextKeeps(s0, d);
  }

  lemma LaneConfigures(s: Sync, d: Side)
    requires LaneAt(s, d)
    ensures s.parties.Of(d).pull.cfg.filesPerBatch > 0
  {}

  lemma RequestIsActive(s: Sync, d: Side, k: nat)
    requires LaneAt(s, d) && k < |s.lanes.Of(d).requests|
    ensures s.lanes.Of(d).requests[k].id in s.parties.Of(d).pull.active
  {}

  /** Whoever still has a request under way has not said it is done, so its peer is still listening. */
  lemma PeerListens(s: Sync, d: Side)
    requires SyncInv(s) && s.parties.Of(d).pull.active != {}
    ensures s.parties.Of(d).syncing && s.parties.Of(d.Other()).syncing && s.parties.Of(d).pull.pending != {}
  {
    PreOfInv(s, d);
    var p := s.parties.Of(d).pull;
    var id :| id in p.active;
    var x :| x in s.lanes.Of(d).owner && s.lanes.Of(d).owner[x] == id;
    assert x in p.inFlight;
  }

  /** The server side of lane d, `h`, changes; its lane is kept, and it is busy serving unless it replied. */
  lemma ServingKeeps(s: Sync, s1: Sync, d: Side, h: Side)
    requires h == d.Other() && SyncInv(s)
    requires s1.parties.Of(d) == s.parties.Of(d) && s1.lanes.Of(h) == s.lanes.Of(h)
    requires s1.saying == s.saying && s1.acking == s.acking && s1.said == s.said && s1.started == s.started
    requires var p, q := s.parties.Of(h), s1.parties.Of(h); SameFlags(p, q) && q.pull == p.pull && PartyCore(q)
    requires LaneInv(s1.parties.Of(d).pull, s1.parties.Of(h).serve, s1.lanes.Of(d))
    ensures Pre(s1, h) && Busy(s1, h)
    ensures s1.parties.Of(h).serve.serving != map[] ==> SyncInv(s1)
  {
    hide LaneInv;
    PreOfInv(s, d);
    PreOfInv(s, h);
    forall x: Side ensures SameFlags(s.parties.Of(x), s1.parties.Of(x)) { assert x == d || x == h; }
    WordsUnchanged(s, s1, d);
    WordsUnchanged(s, s1, h);
    if s1.parties.Of(h).serve.serving != map[] { InvOfPre(s1, h); }
  }

  lemma DeliverRequestKeeps(s: Sync, d: Side, k: nat, vault: Path -> Entry)
    requires SyncInv(s) && Possible(s, DeliverRequest(d, k, vault)) && Configured(s)
    ensures SyncInv(Next(s, DeliverRequest(d, k, vault)))
  {
    hide LaneInv, Serve, WordInv;
    RequestIsActive(s, d, k);
    var h, lane, r := d.Other(), s.lanes.Of(d), s.lanes.Of(d).requests[k];
    var s0, p := Taken(s, DeliverRequest(d, k, vault)), s.parties.Of(h);
    PreOfInv(s, d);
    PreOfInv(s, h);
    PeerListens(s, d);
    RequestArrives(s.parties.Of(d).pull, p.serve, lane, k, vault);
    var w := Serve(p.serve, r.id, r.paths, vault);
    var e := Effect(p.(phase := Transferring, serve := w.server), [], w.tasks, w.replies, false);
    var s1 := Emit(s0, h, e);
    EmitShape(s0, h, e);
    ServingKeeps(s, s1, d, h);
    if w.replies != [] {
      CheckRestores(s1, h);
      ThenCheckIsCheckAt(s0, h, e);
    }
  }

  lemma EndTaskKeeps(s: Sync, d: Side, k: nat, success: bool)
    requires SyncInv(s) && Possible(s, EndTask(d, k, success)) && Configured(s)
    ensures SyncInv(Next(s, EndTask(d, k, success)))
  {
    hide LaneInv;
    var h, lane, t := d.Other(), s.lanes.Of(d), s.lanes.Of(d).tasks[k];
    var s0, p := Taken(s, EndTask(d, k, success)), s.parties.Of(h);
    PreOfInv(s, d);
    PreOfInv(s, h);
    TaskEnds(s.parties.Of(d).pull, p.serve, lane, k, success);
    var (serve, replies) := RecordTask(p.serve, t.id, t.paths, success, true);
    var e := Effect(p.(serve := serve), [], [], replies, false);
    var s1 := Emit(s0, h, e);
    EmitShape(s0, h, e);
    assert s0.lanes.Of(d).tasks + [] == s0.lanes.Of(d).tasks;
    ServingKeeps(s, s1, d, h);
    if replies != [] {
      CheckRestores(s1, h);
      ThenCheckIsCheckAt(s0, h, e);
    }
  }

  lemma DeliverReplyKeeps(s: Sync, d: Side, k: nat, fast: bool)
    requires SyncInv(s) && Possible(s, DeliverReply(d, k, fast)) && Configured(s)
    ensures SyncInv(Next(s, DeliverReply(d, k, fast)))
  {
    hide LaneInv, RequestNext, Settled, WordInv;
    var p, r := s.parties.Of(d), s.lanes.Of(d).replies[k];
    PreOfInv(s, d);
    ReplyArrives(p.pull, s.parties.Of(d.Other()).serve, s.lanes.Of(d), k, fast);
    PeerListens(s, d);
    FailedKeepsConfig(Received(p.pull.(active := p.pull.active - {r.id}), r.received), r.failed);
    var s0 := Taken(s, DeliverReply(d, k, fast));
    var p1 := p.(pull := Settled(p.pull, r.id, r.received, r.failed, fast));
    var s1 := s0.(parties := s0.parties.With(d, p1));
    forall x: Side ensures SameFlags(s.parties.Of(x), s1.parties.Of(x)) { assert x == d || x == d.Other(); }
    WordsUnchanged(s, s1, d);
    WordsUnchanged(s, s1, d.Other());
    RequestNextKeeps(s1, d);
    LaneConfigures(s1, d);
    assert Emit(s1, d, RequestNext(p1)) == Emit(s0, d, RequestNext(p1));
  }

  lemma HearCompleteKeeps(s: Sync, d: Side)
    requires SyncInv(s) && Possible(s, HearComplete(d)) && Configured(s)
    ensures SyncInv(Next(s, HearComplete(d)))
  {
    hide LaneInv;
    var p, o := s.parties.Of(d), d.Other();
    PreOfInv(s, d);
    var p1 := p.(peerDone := true, serve := p.serve.(allowed := {}));
    var s0 := Taken(s, HearComplete(d));
    var s1 := s0.(parties := s0.parties.With(d, p1));
    ServerForgets(s.parties.Of(o).pull, p.serve, s.lanes.Of(o), {});
    CheckRestores(s1, d);
    assert Emit(s1, d, Check(p1)) == Emit(s0, d, Check(p1));
  }

  lemma HearAckKeeps(s: Sync, d: Side)
    requires SyncInv(s) && Possible(s, HearAck(d)) && Configured(s)
    ensures SyncInv(Next(s, HearAck(d)))
  {
    hide LaneInv;
    var p := s.parties.Of(d);
    PreOfInv(s, d);
    var p1 := p.(delivered := true);
    var s0 := Taken(s, HearAck(d));
    var s1 := s0.(parties := s0.parties.With(d, p1));
    CheckRestores(s1, d);
    assert Emit(s1, d, Check(p1)) == Emit(s0, d, Check(p1));
  }

  lemma NextKeeps(s: Sync, e: Event)
    requires SyncInv(s) && Possible(s, e) && Configured(s)
    ensures SyncInv(Next(s, e))
  {
    match e
    case Start(d) => StartKeeps(s, d);
    case DeliverRequest(d, k, vault) => DeliverRequestKeeps(s, d, k, vault);
    case EndTask(d, k, success) => EndTaskKeeps(s, d, k, success);
    case DeliverReply(d, k, fast) => DeliverReplyKeeps(s, d, k, fast);
    case HearComplete(d) => HearCompleteKeeps(s, d);
    case HearAck(d) => HearAckKeeps(s, d);
  }
}
