/** What a full sync's requests are answered with, over a whole run: each by one batch-complete, which divides
    its paths. */
module SyncReplies {
  import opened Basics
  import opened Pulls
  import opened Serves
  import opened Parties
  import opened SyncRuns
  import opened SyncLanes
  import opened SyncTheorems
  import opened SyncOutcomes

  /** The batch-completes sent to side d, the puller, while `e` is handled. */
  function AnsweredIn(s: Sync, e: Event, d: Side): seq<Reply>
    requires Possible(s, e) && Configured(s)
  {
    if Handler(e) == d.Other() then Handled(s, e).replies else []
  }

  /** All batch-completes sent to side d in the first `i` events, in their order. */
  ghost function Answers(states: seq<Sync>, events: seq<Event>, i: nat, d: Side): seq<Reply>
    requires IsRun(states, events) && i <= |events|
  {
    if i == 0 then []
    else
      RunStep(states, events, i - 1);
      Answers(states, events, i - 1, d) + AnsweredIn(states[i - 1], events[i - 1], d)
  }

  /** `answers` holds one answer for each batch that was asked for and is not being served, dividing what was
      asked, and no other. */
  ghost predicate AnswersAll(answers: seq<Reply>, asked: map<BatchId, seq<Path>>, s: Server) {
    && (forall j, k | 0 <= j < k < |answers| :: answers[j].id != answers[k].id)
    && (forall k | 0 <= k < |answers| ::
          answers[k].id in asked && answers[k].id !in s.serving
            && Divides(asked[answers[k].id], answers[k].received, answers[k].failed))
    && (forall id | id in asked && id !in s.serving :: InReplies(answers, id))
  }

  lemma InMoreReplies(replies: seq<Reply>, more: seq<Reply>, id: BatchId)
    requires InReplies(replies, id) || (more != [] && more[0].id == id)
    ensures InReplies(replies + more, id)
  {
    if InReplies(replies, id) {
      var k :| 0 <= k < |replies| && replies[k].id == id;
      assert (replies + more)[k].id == id;
    } else {
      assert (replies + more)[|replies|].id == id;
    }
  }

  /** One batch is taken up or worked on, and answered once it is no longer being served. */
  lemma OneBatch(answers: seq<Reply>, asked: map<BatchId, seq<Path>>, s: Server, id: BatchId, paths: seq<Path>,
          s': Server, more: seq<Reply>)
    requires AnswersAll(answers, asked, s) && OthersServed(s, s', id)
    requires id !in asked || (id in s.serving && asked[id] == paths)
    requires |more| <= 1 && (more == [] ==> id in s'.serving)
    requires more != [] ==> more[0].id == id && Divides(paths, more[0].received, more[0].failed) && id !in s'.serving
    ensures AnswersAll(answers + more, asked[id := paths], s')
  {
    hide Divides, InReplies;
    var all, asked' := answers + more, asked[id := paths];
    forall k | 0 <= k < |answers| ensures answers[k].id != id && answers[k].id !in s'.serving {}
    forall b | b in asked' && b !in s'.serving
      ensures InReplies(all, b)
    {
      assert b != id ==> b in asked && b !in s.serving;
      InMoreReplies(answers, more, b);
    }
  }

  lemma SameServing(answers: seq<Reply>, asked: map<BatchId, seq<Path>>, s: Server, s': Server)
    requires AnswersAll(answers, asked, s) && s'.serving == s.serving
    ensures AnswersAll(answers, asked, s')
  {}

  // --- What each handler answers ---

  lemma CheckServesTheSame(p: Party)
    ensures Check(p).replies == [] && Check(p).party.serve.serving == p.serve.serving
  {}

  lemma RequestNextServesTheSame(p: Party)
    requires p.pull.cfg.filesPerBatch > 0
    ensures RequestNext(p).replies == [] && RequestNext(p).party.serve.serving == p.serve.serving
  {
    hide RequestAll;
  }

  lemma ReplyServesTheSame(p: Party, r: Reply, fast: bool)
    requires p.pull.cfg.filesPerBatch > 0
    ensures OnBatchComplete(p, r, fast).replies == []
      && OnBatchComplete(p, r, fast).party.serve.serving == p.serve.serving
  {
    SettledConfigured(p.pull, r, fast);
    hide RequestNext, Settled;
    RequestNextServesTheSame(p.(pull := Settled(p.pull, r.id, r.received, r.failed, fast)));
  }

  lemma RequestServes(p: Party, r: Request, vault: Path -> Entry)
    requires p.syncing && !p.phase.Idle?
    ensures var w, c := Serve(p.serve, r.id, r.paths, vault), OnRequest(p, r, vault);
      c.replies == w.replies && c.party.serve.serving == w.server.serving
  {
    hide Serve;
  }

  lemma TaskEndServes(p: Party, t: Task, success: bool)
    ensures var w, c := RecordTask(p.serve, t.id, t.paths, success, true), OnTaskEnd(p, t, success);
      c.replies == w.1 && c.party.serve.serving == w.0.serving
  {
    hide RecordTask;
  }

  // --- Each event ---

  lemma RequestIsNew(s: Sync, d: Side, k: nat)
    requires SyncInv(s) && k < |s.lanes.Of(d).requests|
    ensures s.lanes.Of(d).requests[k].id !in s.lanes.Of(d).asked
    ensures s.parties.Of(d.Other()).syncing && !s.parties.Of(d.Other()).phase.Idle?
    ensures LaneAt(s, d)
  {
    RequestIsActive(s, d, k);
    PeerListens(s, d);
    PreOfInv(s, d.Other());
    hide WordInv, ServeInv, PullInv;
  }

  lemma RequestIsAnswered(s: Sync, d: Side, k: nat, vault: Path -> Entry, answers: seq<Reply>)
    requires SyncInv(s) && Configured(s) && k < |s.lanes.Of(d).requests|
    requires AnswersAll(answers, s.lanes.Of(d).asked, s.parties.Of(d.Other()).serve)
    ensures var e := DeliverRequest(d, k, vault);
      AnswersAll(answers + AnsweredIn(s, e, d), Taken(s, e).lanes.Of(d).asked, Handled(s, e).party.serve)
  {
    hide SyncInv, AnswersAll, OnRequest, Serve;
    RequestIsNew(s, d, k);
    var p, lane, r := s.parties.Of(d.Other()), s.lanes.Of(d), s.lanes.Of(d).requests[k];
    var w := Serve(p.serve, r.id, r.paths, vault);
    ServedOnce(p.serve, lane, r, vault, answers);
    RequestServes(p, r, vault);
    SameServing(answers + w.replies, lane.asked[r.id := r.paths], w.server, OnRequest(p, r, vault).party.serve);
  }

  lemma ServedOnce(sv: Server, lane: Lane, r: Request, vault: Path -> Entry, answers: seq<Reply>)
    requires ServeInv(sv, lane.tasks, lane.asked, lane.delivered, ToSet(lane.plan)) && r.id !in lane.asked
    requires AnswersAll(answers, lane.asked, sv)
    ensures var w := Serve(sv, r.id, r.paths, vault);
      AnswersAll(answers + w.replies, lane.asked[r.id := r.paths], w.server)
  {
    hide Serve, AnswersAll, ServeInv, OthersServed;
    ServeKeeps(sv, lane.tasks, r.id, r.paths, vault, lane.asked, lane.delivered, ToSet(lane.plan));
    var w := Serve(sv, r.id, r.paths, vault);
    OneBatch(answers, lane.asked, sv, r.id, r.paths, w.server, w.replies);
  }

  lemma TaskIsAnswered(s: Sync, d: Side, k: nat, success: bool, answers: seq<Reply>)
    requires SyncInv(s) && Configured(s) && k < |s.lanes.Of(d).tasks|
    requires AnswersAll(answers, s.lanes.Of(d).asked, s.parties.Of(d.Other()).serve)
    ensures var e := EndTask(d, k, success);
      AnswersAll(answers + AnsweredIn(s, e, d), Taken(s, e).lanes.Of(d).asked, Handled(s, e).party.serve)
  {
    hide LaneInv, WordInv, AnswersAll, OnTaskEnd, RecordTask;
    var p, lane, t := s.parties.Of(d.Other()), s.lanes.Of(d), s.lanes.Of(d).tasks[k];
    PreOfInv(s, d);
    LaneServes(s.parties.Of(d).pull, p.serve, lane);
    EndedOnce(p.serve, lane, k, success, answers);
    var w := RecordTask(p.serve, t.id, t.paths, success, true);
    TaskEndServes(p, t, success);
    SameServing(answers + w.1, lane.asked, w.0, OnTaskEnd(p, t, success).party.serve);
  }

  lemma LaneServes(p: Puller, sv: Server, lane: Lane)
    requires LaneInv(p, sv, lane)
    ensures ServeInv(sv, lane.tasks, lane.asked, lane.delivered, ToSet(lane.plan))
  {
    hide ServeInv, PullInv, Placed, NonEmpty;
  }

  lemma EndedOnce(sv: Server, lane: Lane, k: nat, success: bool, answers: seq<Reply>)
    requires ServeInv(sv, lane.tasks, lane.asked, lane.delivered, ToSet(lane.plan)) && k < |lane.tasks|
    requires AnswersAll(answers, lane.asked, sv)
    ensures var w := RecordTask(sv, lane.tasks[k].id, lane.tasks[k].paths, success, true);
      AnswersAll(answers + w.1, lane.asked, w.0)
  {
    hide AnswersAll, RecordTask, OthersServed, Conserves;
    var t := lane.tasks[k];
    TaskEndOfBatch(sv, lane.tasks, k, success, lane.asked[t.id]);
    var w := RecordTask(sv, t.id, t.paths, success, true);
    OneBatch(answers, lane.asked, sv, t.id, lane.asked[t.id], w.0, w.1);
    assert lane.asked[t.id := lane.asked[t.id]] == lane.asked;
  }

  /** Any other event leaves what is asked and served on d's lane as it is, and answers nothing. */
  lemma OthersAnswerNothing(s: Sync, e: Event, d: Side)
    requires Configured(s) && Possible(s, e) && !(e.d == d && (e.DeliverRequest? || e.EndTask?))
    ensures AnsweredIn(s, e, d) == [] && Taken(s, e).lanes.Of(d).asked == s.lanes.Of(d).asked
    ensures Handler(e) == d.Other() ==> Handled(s, e).party.serve.serving == s.parties.Of(d.Other()).serve.serving
  {
    hide RequestNext, OnBatchComplete, OnRequest, OnTaskEnd, Check;
    var p := s.parties.Of(Handler(e));
    match e
    case Start(_) => RequestNextServesTheSame(p);
    case DeliverReply(x, k, fast) => ReplyServesTheSame(p, s.lanes.Of(x).replies[k], fast);
    case HearComplete(_) => CheckServesTheSame(p.(peerDone := true, serve := p.serve.(allowed := {})));
    case HearAck(_) => CheckServesTheSame(p.(delivered := true));
    case _ =>
  }

  lemma NextAnswers(s: Sync, e: Event, d: Side, answers: seq<Reply>)
    requires SyncInv(s) && Configured(s) && Possible(s, e)
    requires AnswersAll(answers, s.lanes.Of(d).asked, s.parties.Of(d.Other()).serve)
    ensures AnswersAll(answers + AnsweredIn(s, e, d), Next(s, e).lanes.Of(d).asked,
      Next(s, e).parties.Of(d.Other()).serve)
  {
    hide SyncInv, AnswersAll, Handled, AnsweredIn, Taken, Emit;
    TakenKeepsParties(s, e);
    EmitShape(Taken(s, e), Handler(e), Handled(s, e));
    if e.DeliverRequest? && e.d == d {
      RequestIsAnswered(s, d, e.k, e.vault, answers);
    } else if e.EndTask? && e.d == d {
      TaskIsAnswered(s, d, e.k, e.success, answers);
    } else {
      OthersAnswerNothing(s, e, d);
      assert answers + [] == answers;
      SameServing(answers, s.lanes.Of(d).asked, s.parties.Of(d.Other()).serve, Next(s, e).parties.Of(d.Other()).serve);
    }
  }

  /** In every run, a request that was taken up is answered by one batch-complete, sent when it is no longer
      being served; that divides its paths. */
  lemma {:induction false} EachRequestAnsweredOnce(states: seq<Sync>, events: seq<Event>, i: nat, d: Side)
    requires IsSync(states, events) && i <= |events|
    ensures AnswersAll(Answers(states, events, i, d), states[i].lanes.Of(d).asked,
      states[i].parties.Of(d.Other()).serve)
  {
    hide SyncInv, Next, AnswersAll, Initial, Possible, Configured, AnsweredIn;
    if i == 0 {
      NoneAnswered(states[0], d);
    } else {
      EachRequestAnsweredOnce(states, events, i - 1, d);
      SyncKeepsInv(states, events, i - 1);
      RunStep(states, events, i - 1);
      NextAnswers(states[i - 1], events[i - 1], d, Answers(states, events, i - 1, d));
    }
  }

  lemma NoneAnswered(s: Sync, d: Side)
    requires Initial(s)
    ensures AnswersAll([], s.lanes.Of(d).asked, s.parties.Of(d.Other()).serve)
  {
    hide InitialParty;
    assert s.lanes.Of(d).asked == map[];
  }

  /** When a side has left, every request that was taken up has had its one answer. */
  lemma LeftMeansAnswered(states: seq<Sync>, events: seq<Event>, i: nat, d: Side, puller: Side, id: BatchId)
    requires IsSync(states, events) && i <= |events| && !states[i].parties.Of(d).syncing
      && id in states[i].lanes.Of(puller).asked
    ensures exists k :: 0 <= k < |Answers(states, events, i, puller)| && Answers(states, events, i, puller)[k].id == id
  {
    hide Answers, SyncInv, Next;
    LeftMeansSettled(states, events, i, d);
    assert SettledAt(states[i], puller.Other());
    EachRequestAnsweredOnce(states, events, i, puller);
    assert InReplies(Answers(states, events, i, puller), id);
  }
}
