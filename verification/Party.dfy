/**
 One device during a full sync: its pulling half, its serving half and the completion flags, and
 what each message, ended task or acknowledgement does to it (src/main.ts, handleRequestBatch to
 handleFullSyncComplete). The functions are the specification of the class `SyncSession`.
 */
module Parties {
  import opened Pulls
  import opened Serves

  datatype Phase = Planning | Transferring | Idle

  /** `localDone`: we said we will request nothing more; `delivered`: the peer acknowledged it; `peerDone`:
      the peer said so. */
  datatype Party = Party(
    syncing: bool, phase: Phase, pull: Puller, serve: Server,
    localDone: bool, peerDone: bool, delivered: bool)

  /** What handling an event leaves: the new state, what was sent and queued, and whether full-sync-complete
      was sent. */
  datatype Effect = Effect(party: Party, requests: seq<Request>, tasks: seq<Task>, replies: seq<Reply>, says: bool)

  function Quiet(p: Party): Effect { Effect(p, [], [], [], false) }

  // --- Completion ---

  function ClearedPuller(p: Puller): Puller {
    p.(pending := {}, inFlight := {}, active := {}, order := [], cursor := 0, retries := map[], sizes := map[])
  }

  /** The sync is over: all of its state is cleared, except that the delivered flag is kept. */
  function Leave(p: Party): Party {
    p.(syncing := false, phase := Idle, pull := ClearedPuller(p.pull), serve := Server({}, map[]),
      localDone := false, peerDone := false)
  }

  predicate Finished(p: Party) {
    p.localDone && p.delivered && p.peerDone && p.serve.serving == map[]
  }

  /** Our own pulls are settled for the first time. */
  predicate MaySay(p: Party) {
    p.syncing && p.pull.pending == {} && !p.localDone
  }

  function Check(p: Party): Effect {
    if !p.syncing then Quiet(p)
    else
      var says := MaySay(p);
      var q := p.(localDone := p.localDone || says);
      Effect(if Finished(q) then Leave(q) else q, [], [], [], says)
  }

  /** The effect `e`, and then a check of completion. */
  function ThenCheck(e: Effect): Effect {
    var c := Check(e.party);
    Effect(c.party, e.requests, e.tasks, e.replies, c.says)
  }

  // --- Handlers ---

  function RequestNext(p: Party): Effect
    requires p.pull.cfg.filesPerBatch > 0
  {
    if p.phase.Idle? then Quiet(p)
    else if p.pull.pending == {} then Check(p)
    else
      var (pull, requests) := RequestAll(p.pull);
      var e := Effect(p.(pull := pull, phase := if requests != [] then Transferring else p.phase),
        requests, [], [], false);
      if pull.active == {} && pull.cfg.maxBatches > 0 then ThenCheck(e) else e
  }

  function OnBatchComplete(p: Party, r: Reply, fast: bool): Effect
    requires p.pull.cfg.filesPerBatch > 0
  {
    if !p.syncing || !p.phase.Transferring? || r.id !in p.pull.active then Quiet(p)
    else
      FailedKeepsConfig(Received(p.pull.(active := p.pull.active - {r.id}), r.received), r.failed);
      RequestNext(p.(pull := Settled(p.pull, r.id, r.received, r.failed, fast)))
  }

  lemma {:induction false} FailedKeepsConfig(p: Puller, paths: seq<Path>)
    ensures Failed(p, paths).cfg == p.cfg
    decreases paths
  {
    if paths != [] { FailedKeepsConfig(FailedOne(p, paths[0]), paths[1..]); }
  }

  function OnRequest(p: Party, r: Request, vault: Path -> Entry): Effect {
    if !p.syncing || p.phase.Idle? then Quiet(p)
    else
      var w := Serve(p.serve, r.id, r.paths, vault);
      var e := Effect(p.(phase := Transferring, serve := w.server), [], w.tasks, w.replies, false);
      if w.replies != [] then ThenCheck(e) else e
  }

  function OnTaskEnd(p: Party, t: Task, success: bool): Effect {
    var (serve, replies) := RecordTask(p.serve, t.id, t.paths, success, true);
    var e := Effect(p.(serve := serve), [], [], replies, false);
    if replies != [] then ThenCheck(e) else e
  }

  /** The peer's full-sync-complete: it will request nothing more. */
  function OnSyncComplete(p: Party): Effect {
    if !p.syncing then Quiet(p)
    else Check(p.(peerDone := true, serve := p.serve.(allowed := {})))
  }

  /** Our own full-sync-complete was acknowledged. */
  function OnDelivered(p: Party): Effect {
    Check(p.(delivered := true))
  }

  // --- Messages too late, or too many ---

  /** Who has left is moved by nothing more than the acknowledgement of its own word. */
  lemma WhoLeftIsDeaf(p: Party, request: Request, vault: Path -> Entry, reply: Reply, fast: bool)
    requires !p.syncing && p.pull.cfg.filesPerBatch > 0
    ensures OnRequest(p, request, vault) == OnBatchComplete(p, reply, fast) == OnSyncComplete(p) == Quiet(p)
    ensures OnDelivered(p) == Quiet(p.(delivered := true))
  {}

  /** A batch-complete that comes a second time, or for a batch never asked for, changes nothing. */
  lemma SettledOnce(p: Party, owner: Owner, r: Reply, fast: bool, again: bool)
    requires PullInv(p.pull, owner)
    ensures r.id !in p.pull.active ==> OnBatchComplete(p, r, fast) == Quiet(p)
    ensures r.id < p.pull.nextId ==>
      var once := OnBatchComplete(p, r, fast).party;
      once.pull.cfg.filesPerBatch > 0 && OnBatchComplete(once, r, again) == Quiet(once)
  {
    hide Settled, RequestNext;
    if p.syncing && p.phase.Transferring? && r.id in p.pull.active {
      SettledStays(p.pull, r, fast);
      var q := p.(pull := Settled(p.pull, r.id, r.received, r.failed, fast));
      AskingActivatesNew(q);
    }
  }

  /** Asking for more makes no batch active but new ones. */
  lemma AskingActivatesNew(p: Party)
    requires p.pull.cfg.filesPerBatch > 0
    ensures var e := RequestNext(p).party;
      e.pull.cfg.filesPerBatch > 0 && forall id | id in e.pull.active && id !in p.pull.active :: id >= p.pull.nextId
  {
    hide RequestAll;
    RequestedAreNew(p.pull);
  }

  lemma SettledStays(p: Puller, r: Reply, fast: bool)
    requires p.cfg.filesPerBatch > 0
    ensures var q := Settled(p, r.id, r.received, r.failed, fast);
      q.active == p.active - {r.id} && q.nextId == p.nextId && q.cfg.filesPerBatch > 0
  {
    FailedKeepsActive(Received(p.(active := p.active - {r.id}), r.received), r.failed);
    FailedKeepsConfig(Received(p.(active := p.active - {r.id}), r.received), r.failed);
  }

  lemma {:induction false} FailedKeepsActive(p: Puller, paths: seq<Path>)
    ensures Failed(p, paths).active == p.active && Failed(p, paths).nextId == p.nextId
    decreases paths
  {
    if paths != [] { FailedKeepsActive(FailedOne(p, paths[0]), paths[1..]); }
  }

  lemma {:induction false} RequestedAreNew(p: Puller)
    requires p.cfg.filesPerBatch > 0
    ensures forall id | id in RequestAll(p).0.active && id !in p.active :: id >= p.nextId
    ensures RequestAll(p).0.cfg == p.cfg
    decreases |p.order| - p.cursor
  {
    if |p.active| < p.cfg.maxBatches {
      var q := Skip(p);
      SkipStops(p);
      if q.cursor < |q.order| {
        FillAdvances(q, [], 0);
        FillKeepsConfig(q, [], 0);
        RequestedAreNew(Registered(Fill(q, [], 0).0));
      }
    }
  }
}
