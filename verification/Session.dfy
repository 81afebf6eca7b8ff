/**
 The handlers of a full sync as the program runs them (src/main.ts, 5663-6023): methods that update
 the session's sets, maps and cursor in loops. Each leaves what its function in `Parties` says, and
 sends and queues the same messages and tasks in the same order.
 */
module Sessions {
  import opened Basics
  import opened Pulls
  import opened Serves
  import opened Parties

  class SyncSession {
    var syncing: bool
    var phase: Phase

    // What we still want of the peer, and what it may still take of us.
    var pull: Puller
    var serve: Server

    var localDone: bool
    var peerDone: bool
    var delivered: bool

    // What has been sent to the peer and queued, oldest first.
    var requests: seq<Request>
    var tasks: seq<Task>
    var replies: seq<Reply>
    var said: nat

    ghost predicate Valid()
      reads this
    {
      pull.cfg.filesPerBatch > 0
    }

    ghost function View(): Party
      reads this
    {
      Party(syncing, phase, pull, serve, localDone, peerDone, delivered)
    }

    /** Since the old state, exactly the effect `e` came about. */
    twostate predicate Did(e: Effect)
      reads this
    {
      && View() == e.party
      && requests == old(requests) + e.requests && tasks == old(tasks) + e.tasks && replies == old(replies) + e.replies
      && said == old(said) + (if e.says then 1 else 0)
    }

    /** Both sides have just been told their share of the plan; `sorted` is the wanted paths, smallest first. */
    constructor (wanted: set<Path>, sorted: seq<Path>, servable: set<Path>, peerSizes: map<Path, nat>, limits: Config)
      requires limits.filesPerBatch > 0
      ensures Valid()
      ensures View()
        == Party(true, Planning, Puller(wanted, {}, {}, sorted, 0, map[], limits, peerSizes, 0),
        Server(servable, map[]), false, false, false)
      ensures requests == [] && tasks == [] && replies == [] && said == 0
    {
      syncing, phase := true, Planning;
      pull := Puller(wanted, {}, {}, sorted, 0, map[], limits, peerSizes, 0);
      serve := Server(servable, map[]);
      localDone, peerDone, delivered := false, false, false;
      requests, tasks, replies, said := [], [], [], 0;
    }

    // --- Completion ---

    method HandleFullSyncComplete()
      modifies this
      ensures View() == if old(syncing) then Leave(old(View())) else old(View())
      ensures requests == old(requests) && tasks == old(tasks) && replies == old(replies) && said == old(said)
    {
      if !syncing { return; }
      syncing, phase := false, Idle;
      pull := pull.(pending := {}, inFlight := {}, retries := map[], order := [], cursor := 0,
        active := {}, sizes := map[]);
      serve := Server({}, map[]);
      localDone, peerDone := false, false;
    }

    method CheckFullSyncCompletion()
      modifies this
      ensures Did(Check(old(View())))
    {
      if !syncing { return; }
      if pull.pending == {} && !localDone {
        localDone := true;
        said := said + 1;
      }
      if localDone && delivered && peerDone && serve.serving == map[] {
        HandleFullSyncComplete();
      }
    }

    method HandleDelivered()
      modifies this
      ensures Did(OnDelivered(old(View())))
    {
      delivered := true;
      CheckFullSyncCompletion();
    }

    method HandleSyncCompleteMessage()
      modifies this
      ensures Did(OnSyncComplete(old(View())))
    {
      if !syncing { return; }
      peerDone := true;
      serve := serve.(allowed := {});
      CheckFullSyncCompletion();
    }

    // --- Pulling ---

    /** Pass over the entries that are not to be requested. */
    method SkipIneligible()
      modifies this`pull
      ensures pull == Skip(old(pull))
    {
      while pull.cursor < |pull.order|
        invariant Skip(pull) == Skip(old(pull))
        decreases |pull.order| - pull.cursor
      {
        var p := pull.order[pull.cursor];
        if p in pull.pending && p !in pull.inFlight { break; }
        pull := pull.(cursor := pull.cursor + 1);
      }
    }

    /** The paths of one batch, from the cursor on, now in flight. */
    method TakeBatch() returns (paths: seq<Path>)
      modifies this`pull
      ensures (pull, paths) == Fill(old(pull), [], 0)
    {
      paths := [];
      var totalSize: nat := 0;
      while pull.cursor < |pull.order|
        invariant Fill(pull, paths, totalSize) == Fill(old(pull), [], 0)
        decreases |pull.order| - pull.cursor
      {
        var path := pull.order[pull.cursor];
        if path !in pull.pending || path in pull.inFlight {
          pull := pull.(cursor := pull.cursor + 1);
          continue;
        }
        var size := if path in pull.sizes then pull.sizes[path] else 0;
        if |paths| >= pull.cfg.filesPerBatch || (totalSize + size > pull.cfg.maxBytes && |paths| > 0) {
          break;
        }
        paths := paths + [path];
        totalSize := totalSize + size;
        pull := pull.(inFlight := pull.inFlight + {path}, cursor := pull.cursor + 1);
      }
    }

    /** Ask for the next batch of eligible paths. */
    method RequestOneBatch(ghost before: Puller) returns (request: Request)
      requires Valid() && |before.active| < before.cfg.maxBatches && before.cfg == pull.cfg
      requires pull == Skip(before) && pull.cursor < |pull.order|
      modifies this`pull, this`phase, this`requests
      ensures phase == Transferring && requests == old(requests) + [request]
      ensures pull.cfg == before.cfg && |pull.order| - pull.cursor < |before.order| - before.cursor
      ensures RequestAll(before) == (RequestAll(pull).0, [request] + RequestAll(pull).1)
    {
      SkipStops(before);
      FillAdvances(pull, [], 0);
      FillKeepsConfig(pull, [], 0);
      phase := Transferring;
      var paths := TakeBatch();
      RequestAllUnrolls(before, old(pull), pull, paths);
      var batchId := pull.nextId;
      pull := pull.(active := pull.active + {batchId}, nextId := pull.nextId + 1);
      request := Request(batchId, paths);
      requests := requests + [request];
    }

    /** Ask for batches while there is room and something to ask for; `idle` if it ends with nothing asked for
        at all. */
    method RequestWhileRoom() returns (idle: bool, ghost sent: seq<Request>)
      requires Valid()
      modifies this`pull, this`phase, this`requests
      ensures Valid() && RequestAll(old(pull)) == (pull, sent) && requests == old(requests) + sent
      ensures phase == if sent != [] then Transferring else old(phase)
      ensures idle <==> pull.active == {} && pull.cfg.maxBatches > 0
    {
      hide RequestAll, Skip, Fill;
      idle, sent := false, [];
      assert sent + RequestAll(pull).1 == RequestAll(pull).1;
      while |pull.active| < pull.cfg.maxBatches
        invariant Valid() && !idle
        invariant RequestAll(old(pull)) == (RequestAll(pull).0, sent + RequestAll(pull).1)
        invariant phase == if sent != [] then Transferring else old(phase)
        invariant requests == old(requests) + sent
        decreases |pull.order| - pull.cursor
      {
        ghost var before := pull;
        SkipStops(before);
        RequestAllStops(before);
        SkipIneligible();
        if pull.cursor >= |pull.order| {
          idle := |pull.active| == 0;
          assert sent + [] == sent;
          return;
        }
        var request := RequestOneBatch(before);
        assert sent + ([request] + RequestAll(pull).1) == (sent + [request]) + RequestAll(pull).1;
        assert old(requests) + sent + [request] == old(requests) + (sent + [request]);
        sent := sent + [request];
      }
      RequestAllStops(pull);
      assert sent + [] == sent;
    }

    method RequestNextBatch()
      requires Valid()
      modifies this
      ensures Did(RequestNext(old(View())))
      ensures Valid()
    {
      hide RequestAll;
      if phase.Idle? { return; }
      if pull.pending == {} {
        CheckFullSyncCompletion();
        return;
      }
      var idle, _ := RequestWhileRoom();
      if idle {
        CheckFullSyncCompletion();
      }
    }

    method HandleBatchComplete(r: Reply, fast: bool)
      requires Valid()
      modifies this
      ensures Did(OnBatchComplete(old(View()), r, fast))
      ensures Valid()
    {
      hide RequestNext, RequestAll;
      if !syncing || !phase.Transferring? || r.id !in pull.active { return; }
      pull := pull.(active := pull.active - {r.id});
      ghost var begun := pull;
      for i := 0 to |r.received|
        invariant pull == Received(begun, r.received[..i])
        modifies this`pull
      {
        var path := r.received[i];
        pull := pull.(pending := pull.pending - {path}, inFlight := pull.inFlight - {path},
          retries := pull.retries - {path});
        assert r.received[..i + 1] == r.received[..i] + [path];
        assert ToSet(r.received[..i + 1]) == ToSet(r.received[..i]) + {path};
      }
      assert r.received[..|r.received|] == r.received;
      MoveFailed(r.failed);
      FailedKeepsConfig(Received(begun, r.received), r.failed);
      var cfg := pull.cfg;
      if |r.failed| > 0 && |r.received| == 0 {
        pull := pull.(cfg := cfg.(maxBatches := Max(1, cfg.maxBatches / 2),
            filesPerBatch := Max(10, cfg.filesPerBatch / 2)));
      } else if |r.received| > 0 && fast {
        pull := pull.(cfg := cfg.(maxBatches := Min(5, cfg.maxBatches + 1),
            filesPerBatch := Min(500, cfg.filesPerBatch + 50)));
      }
      assert pull == Settled(old(pull), r.id, r.received, r.failed, fast);
      RequestNextBatch();
    }

    /** Each failed path leaves flight; it goes to the end of the order, or is given up. */
    method MoveFailed(failed: seq<Path>)
      modifies this`pull
      ensures pull == Failed(old(pull), failed)
    {
      for i := 0 to |failed|
        invariant Failed(pull, failed[i..]) == Failed(old(pull), failed)
      {
        ghost var was := pull;
        var path := failed[i];
        pull := pull.(inFlight := pull.inFlight - {path});
        var n := if path in pull.retries then pull.retries[path] else 0;
        if n < 3 {
          pull := pull.(retries := pull.retries[path := n + 1], order := pull.order + [path]);
        } else {
          pull := pull.(pending := pull.pending - {path}, retries := pull.retries - {path});
        }
        assert pull == FailedOne(was, path);
        assert failed[i..][1..] == failed[i + 1..];
      }
    }

    // --- Serving ---

    method RecordBatchTaskCompletion(id: BatchId, paths: seq<Path>, success: bool, reauthorize: bool)
      modifies this
      ensures Did(Recorded(old(View()), id, paths, success, reauthorize))
    {
      if paths == [] || id !in serve.serving { return; }
      var batch := serve.serving[id];
      batch := batch.(sent := batch.sent + |paths|);
      if success {
        batch := batch.(succeeded := batch.succeeded + paths);
      } else {
        batch := batch.(failed := batch.failed + paths);
        if reauthorize {
          serve := serve.(allowed := serve.allowed + ToSet(paths));
        }
      }
      if batch.sent >= batch.total {
        replies := replies + [Reply(id, batch.succeeded, batch.failed)];
        serve := serve.(serving := serve.serving - {id});
        CheckFullSyncCompletion();
      } else {
        serve := serve.(serving := serve.serving[id := batch]);
      }
    }

    method HandleTaskEnd(t: Task, success: bool)
      modifies this
      ensures Did(OnTaskEnd(old(View()), t, success))
    {
      RecordBatchTaskCompletion(t.id, t.paths, success, true);
    }

    /** The requested paths in turn; `open` are those packed but not yet queued. */
    method ServeEach(id: BatchId, paths: seq<Path>, vault: Path -> Entry) returns (open: seq<Path>, ghost w: Work)
      requires Served(Work(serve, [], [], [], 0), id, |paths|, 0)
      modifies this
      ensures w == ServePaths(Work(old(serve), [], [], [], 0), id, paths, vault)
      ensures open == w.open && tasks == old(tasks) + w.tasks && requests == old(requests)
        && replies == old(replies) + w.replies
      ensures Reached(old(View()), w, View(), said - old(said)) && (paths == [] ==> w.replies == [])
    {
      hide Check, ServeOne;
      w := Work(serve, [], [], [], 0);
      ghost var all := ServePaths(w, id, paths, vault);
      var size: nat := 0;
      open := [];
      assert paths[0..] == paths;
      for i := 0 to |paths|
        invariant ServePaths(w, id, paths[i..], vault) == all
        invariant open == w.open && size == w.size && tasks == old(tasks) + w.tasks
        invariant i == 0 ==> w.replies == []
        invariant w.replies == [] ==> Served(w, id, |paths|, i)
        invariant w.replies != [] ==> i == |paths|
        invariant requests == old(requests) && replies == old(replies) + w.replies
        invariant Reached(old(View()), w, View(), said - old(said))
      {
        var path := paths[i];
        ghost var was := w;
        w := ServeOne(was, id, path, vault);
        ServeOneCounts(was, id, path, vault, |paths|, i);
        open, size := ServePath(id, path, vault, open, size, old(View()), was, old(tasks));
        assert paths[i..][1..] == paths[i + 1..] && paths[i..][0] == path;
      }
    }

    method HandleRequestBatch(r: Request, vault: Path -> Entry)
      modifies this
      ensures Did(OnRequest(old(View()), r, vault))
    {
      if !syncing || phase.Idle? { return; }
      hide Check, ServePaths, Serve, OnRequest;
      phase := Transferring;
      serve := serve.(serving := serve.serving[r.id := Batch(|r.paths|, 0, [], [])]);
      var open, w := ServeEach(r.id, r.paths, vault);
      if open != [] {
        tasks := tasks + [Task(r.id, open)];
      }
      OnRequestEnds(old(View()), r, vault, w);
      if |r.paths| == 0 {
        replies := replies + [Reply(r.id, [], [])];
        serve := serve.(serving := serve.serving - {r.id});
        CheckFullSyncCompletion();
      }
    }

    /** A file small enough to share a message; a message that would grow too large is queued first. */
    method PackFile(id: BatchId, path: Path, estimate: nat, open: seq<Path>, size: nat, ghost w: Work,
            ghost queued: seq<Task>)
      returns (open': seq<Path>, size': nat)
      requires open == w.open && size == w.size && tasks == queued + w.tasks
      modifies this`tasks
      ensures var v := Pack(w, id, path, estimate);
        && v.replies == w.replies && v.server == w.server
        && open' == v.open && size' == v.size && tasks == queued + v.tasks
    {
      open', size' := open, size;
      if size + estimate >= MAX_BATCH_BYTES {
        tasks := tasks + [Task(id, open)];
        open', size' := [], 0;
      }
      open', size' := open' + [path], size' + estimate;
    }

    /** A path that cannot be sent counts as failed. */
    method RejectPath(id: BatchId, path: Path, reauthorize: bool, ghost base: Party, ghost w: Work)
      requires w.replies == [] && View() == base.(serve := w.server)
      modifies this
      ensures var v := Reject(w, id, path, reauthorize);
        && v.open == w.open && v.size == w.size && v.tasks == w.tasks
        && tasks == old(tasks) && requests == old(requests) && replies == old(replies) + v.replies
        && Reached(base, v, View(), said - old(said))
    {
      RejectReplies(w, id, path, reauthorize);
      CheckSendsNothing(base.(serve := RecordTask(w.server, id, [path], false, reauthorize).0));
      hide Check, RecordTask, Reject;
      RecordBatchTaskCompletion(id, [path], false, reauthorize);
    }

    /** One requested path: sent on its own, packed with others, or counted as failed. */
    method ServePath(id: BatchId, path: Path, vault: Path -> Entry, open: seq<Path>, size: nat, ghost base: Party,
            ghost w: Work, ghost queued: seq<Task>)
      returns (open': seq<Path>, size': nat)
      requires w.replies == [] && View() == base.(serve := w.server) && open == w.open && size == w.size
        && tasks == queued + w.tasks
      modifies this
      ensures var v := ServeOne(w, id, path, vault);
        && open' == v.open && size' == v.size && tasks == queued + v.tasks
        && requests == old(requests) && replies == old(replies) + v.replies
        && Reached(base, v, View(), said - old(said))
    {
      hide Check, RecordTask, Pack, Reject;
      open', size' := open, size;
      if path in serve.allowed {
        serve := serve.(allowed := serve.allowed - {path});
        match vault(path) {
          case FileOf(estimate) =>
            if estimate >= MAX_BATCH_BYTES {
              tasks := tasks + [Task(id, [path])];
            } else {
              open', size' := PackFile(id, path, estimate, open, size, w.(server := serve), queued);
            }
          case FolderOf =>
            tasks := tasks + [Task(id, [path])];
          case Missing =>
            RejectPath(id, path, true, base, w.(server := serve));
        }
      } else {
        RejectPath(id, path, false, base, w);
      }
    }
  }

  /** What counting an ended task does; a batch that is thereby answered is followed by a check of completion. */
  function Recorded(p: Party, id: BatchId, paths: seq<Path>, success: bool, reauthorize: bool): Effect {
    var (serve, replies) := RecordTask(p.serve, id, paths, success, reauthorize);
    var e := Effect(p.(serve := serve), [], [], replies, false);
    if replies != [] then ThenCheck(e) else e
  }

  /** The batch being served is not answered yet: of its `total` paths, at most `seen` are counted. */
  ghost predicate Served(w: Work, id: BatchId, total: nat, seen: nat) {
    id in w.server.serving && w.server.serving[id].total == total && w.server.serving[id].sent <= seen
  }

  /** The session after part of a request was served: checked for completion exactly if the request was answered. */
  ghost predicate Reached(base: Party, w: Work, view: Party, said: int) {
    var p := base.(serve := w.server);
    if w.replies == [] then view == p && said == 0
    else view == Check(p).party && said == if Check(p).says then 1 else 0
  }

  /** A batch is answered at the last path of its request at the earliest. */
  lemma ServeOneCounts(w: Work, id: BatchId, path: Path, vault: Path -> Entry, total: nat, seen: nat)
    requires w.replies == [] && Served(w, id, total, seen) && seen < total
    ensures var v := ServeOne(w, id, path, vault);
      (v.replies == [] ==> Served(v, id, total, seen + 1)) && (v.replies != [] ==> seen + 1 == total)
  {}

  lemma RejectReplies(w: Work, id: BatchId, path: Path, reauthorize: bool)
    requires w.replies == []
    ensures Reject(w, id, path, reauthorize)
      == w.(server := RecordTask(w.server, id, [path], false, reauthorize).0,
        replies := RecordTask(w.server, id, [path], false, reauthorize).1)
  {}

  /** The effect of a request, from where serving its paths got to. */
  lemma OnRequestEnds(p: Party, r: Request, vault: Path -> Entry, w: Work)
    requires p.syncing && !p.phase.Idle?
    requires w == ServePaths(Work(p.serve.(serving := p.serve.serving[r.id := Batch(|r.paths|, 0, [], [])]), [], [], [],
        0), r.id, r.paths, vault)
    ensures var q := p.(phase := Transferring, serve := w.server);
      var s := if r.paths == [] then q.(serve := w.server.(serving := w.server.serving - {r.id})) else q;
      var replies := if r.paths == [] then w.replies + [Reply(r.id, [], [])] else w.replies;
      var tasks := if w.open != [] then w.tasks + [Task(r.id, w.open)] else w.tasks;
      OnRequest(p, r, vault)
        == if replies == [] then Effect(s, [], tasks, [], false)
        else Effect(Check(s).party, [], tasks, replies, Check(s).says)
  {}

  lemma CheckSendsNothing(p: Party)
    ensures var c := Check(p); c.requests == [] && c.tasks == [] && c.replies == [] && c.party.pull.cfg == p.pull.cfg
  {}

  lemma RequestAllStops(p: Puller)
    requires p.cfg.filesPerBatch > 0
    ensures |p.active| >= p.cfg.maxBatches ==> RequestAll(p) == (p, [])
    ensures |p.active| < p.cfg.maxBatches && Skip(p).cursor >= |Skip(p).order| ==> RequestAll(p) == (Skip(p), [])
  {}

  lemma RequestAllUnrolls(p: Puller, skipped: Puller, filled: Puller, paths: seq<Path>)
    requires p.cfg.filesPerBatch > 0 && |p.active| < p.cfg.maxBatches
    requires skipped == Skip(p) && skipped.cursor < |skipped.order| && (filled, paths) == Fill(skipped, [], 0)
    ensures filled.cfg == p.cfg
    ensures RequestAll(p)
      == (RequestAll(Registered(filled)).0, [Request(filled.nextId, paths)] + RequestAll(Registered(filled)).1)
  {
    SkipStops(p);
    FillKeepsConfig(skipped, [], 0);
  }
}
