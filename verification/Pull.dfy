/**
 The pulling half of a full sync (src/main.ts, handleBatchComplete and requestNextBatch): which
 paths are still wanted, which are in flight, and the cursor over the pull order.
 */
module Pulls {
  import opened Basics
  import opened Names

  /** A vault path, compared as a whole. */
  datatype Path = Path(text: Name)

  type BatchId = nat

  datatype Request = Request(id: BatchId, paths: seq<Path>)

  /** How many batches at once, and how many files and bytes in each. */
  datatype Config = Config(maxBatches: nat, filesPerBatch: nat, maxBytes: nat)

  /** `nextId` stands for the generator of fresh batch ids; `sizes` for the peer's file sizes. */
  datatype Puller = Puller(
    pending: set<Path>, inFlight: set<Path>, active: set<BatchId>,
    order: seq<Path>, cursor: nat, retries: map<Path, nat>,
    cfg: Config, sizes: map<Path, nat>, nextId: BatchId)

  function SizeOf(p: Puller, path: Path): nat {
    if path in p.sizes then p.sizes[path] else 0
  }

  function RetriesOf(p: Puller, path: Path): nat {
    if path in p.retries then p.retries[path] else 0
  }

  // --- Requesting ---

  predicate Eligible(p: Puller, path: Path) {
    path in p.pending && path !in p.inFlight
  }

  /** Move the cursor past entries that are no longer wanted or already in flight. */
  function Skip(p: Puller): Puller
    decreases |p.order| - p.cursor
  {
    if p.cursor < |p.order| && !Eligible(p, p.order[p.cursor]) then Skip(p.(cursor := p.cursor + 1)) else p
  }

  predicate BatchFull(p: Puller, taken: seq<Path>, total: nat, size: nat) {
    |taken| >= p.cfg.filesPerBatch || (total + size > p.cfg.maxBytes && taken != [])
  }

  /** Take eligible entries from the cursor on until the batch is full. */
  function Fill(p: Puller, taken: seq<Path>, total: nat): (Puller, seq<Path>)
    decreases |p.order| - p.cursor
  {
    if p.cursor >= |p.order| then (p, taken)
    else
      var path := p.order[p.cursor];
      if !Eligible(p, path) then Fill(p.(cursor := p.cursor + 1), taken, total)
      else
        var size := SizeOf(p, path);
        if BatchFull(p, taken, total, size) then (p, taken)
        else Fill(p.(inFlight := p.inFlight + {path}, cursor := p.cursor + 1), taken + [path], total + size)
  }

  lemma {:induction false} FillAdvances(p: Puller, taken: seq<Path>, total: nat)
    ensures var q := Fill(p, taken, total).0; p.cursor <= q.cursor && q.order == p.order
    ensures p.cursor < |p.order| && Eligible(p, p.order[p.cursor])
        && !BatchFull(p, taken, total, SizeOf(p, p.order[p.cursor]))
      ==> p.cursor < Fill(p, taken, total).0.cursor
    decreases |p.order| - p.cursor
  {
    if p.cursor < |p.order| {
      var path := p.order[p.cursor];
      if !Eligible(p, path) {
        FillAdvances(p.(cursor := p.cursor + 1), taken, total);
      } else if !BatchFull(p, taken, total, SizeOf(p, path)) {
        FillAdvances(p.(inFlight := p.inFlight + {path}, cursor := p.cursor + 1), taken + [path],
          total + SizeOf(p, path));
      }
    }
  }

  function Registered(p: Puller): Puller {
    p.(active := p.active + {p.nextId}, nextId := p.nextId + 1)
  }

  lemma {:induction false} SkipStops(p: Puller)
    ensures var q := Skip(p); q == p.(cursor := q.cursor) && p.cursor <= q.cursor
    ensures p.cursor <= |p.order| ==> Skip(p).cursor <= |p.order|
    ensures var q := Skip(p); q.cursor < |q.order| ==> Eligible(q, q.order[q.cursor])
    ensures forall i | p.cursor <= i < Skip(p).cursor && i < |p.order| :: !Eligible(p, p.order[i])
    decreases |p.order| - p.cursor
  {
    if p.cursor < |p.order| && !Eligible(p, p.order[p.cursor]) {
      SkipStops(p.(cursor := p.cursor + 1));
    }
  }

  /** Request batches while there is room and something left to request. */
  function RequestAll(p: Puller): (Puller, seq<Request>)
    requires p.cfg.filesPerBatch > 0
    decreases |p.order| - p.cursor
  {
    if |p.active| >= p.cfg.maxBatches then (p, [])
    else
      var q := Skip(p);
      SkipStops(p);
      if q.cursor >= |q.order| then (q, [])
      else
        FillAdvances(q, [], 0);
        FillKeepsConfig(q, [], 0);
        var (f, paths) := Fill(q, [], 0);
        var (r, rest) := RequestAll(Registered(f));
        (r, [Request(f.nextId, paths)] + rest)
  }

  lemma {:induction false} FillKeepsConfig(p: Puller, taken: seq<Path>, total: nat)
    ensures var q := Fill(p, taken, total).0; q == p.(cursor := q.cursor, inFlight := q.inFlight)
    decreases |p.order| - p.cursor
  {
    if p.cursor < |p.order| {
      var path := p.order[p.cursor];
      if !Eligible(p, path) {
        FillKeepsConfig(p.(cursor := p.cursor + 1), taken, total);
      } else if !BatchFull(p, taken, total, SizeOf(p, path)) {
        FillKeepsConfig(p.(inFlight := p.inFlight + {path}, cursor := p.cursor + 1), taken + [path],
          total + SizeOf(p, path));
      }
    }
  }

  // --- A batch comes back ---

  function ToSet(s: seq<Path>): set<Path> {
    set x | x in s
  }

  function Received(p: Puller, paths: seq<Path>): Puller {
    p.(pending := p.pending - ToSet(paths), inFlight := p.inFlight - ToSet(paths), retries := p.retries - ToSet(paths))
  }

  /** A failed path is asked for again, at the end of the order, up to three times; then it is given up. */
  function FailedOne(p: Puller, path: Path): Puller {
    var n := RetriesOf(p, path);
    if n < 3 then
      p.(inFlight := p.inFlight - {path}, retries := p.retries[path := n + 1], order := p.order + [path])
    else
      p.(inFlight := p.inFlight - {path}, pending := p.pending - {path}, retries := p.retries - {path})
  }

  function Failed(p: Puller, paths: seq<Path>): Puller
    decreases paths
  {
    if paths == [] then p else Failed(FailedOne(p, paths[0]), paths[1..])
  }

  /** Halve the limits after an all-failed batch, raise them after a fast one. */
  function Adapted(cfg: Config, received: nat, failed: nat, fast: bool): Config {
    if failed > 0 && received == 0 then
      cfg.(maxBatches := Max(1, cfg.maxBatches / 2), filesPerBatch := Max(10, cfg.filesPerBatch / 2))
    else if received > 0 && fast then
      cfg.(maxBatches := Min(5, cfg.maxBatches + 1), filesPerBatch := Min(500, cfg.filesPerBatch + 50))
    else cfg
  }

  ghost predicate InBounds(cfg: Config) {
    1 <= cfg.maxBatches <= 5 && 10 <= cfg.filesPerBatch <= 500
  }

  /** Limits in bounds stay there; a batch of which nothing came halves them, and only one that came fast
      raises them. */
  lemma AdaptingLimits(cfg: Config, received: nat, failed: nat, fast: bool)
    requires InBounds(cfg)
    ensures var c := Adapted(cfg, received, failed, fast);
      && InBounds(c) && c.maxBytes == cfg.maxBytes
      && (received == 0 && failed > 0 ==>
            && (c.maxBatches == 1 || cfg.maxBatches - 1 <= 2 * c.maxBatches <= cfg.maxBatches)
            && (c.filesPerBatch == 10 || cfg.filesPerBatch - 1 <= 2 * c.filesPerBatch <= cfg.filesPerBatch))
      && (received > 0 && fast ==>
            && (c.maxBatches == 5 || c.maxBatches == cfg.maxBatches + 1)
            && (c.filesPerBatch == 500 || c.filesPerBatch == cfg.filesPerBatch + 50))
      && ((received > 0 && !fast) || (received == 0 && failed == 0) ==> c == cfg)
  {}

  function Settled(p: Puller, id: BatchId, received: seq<Path>, failed: seq<Path>, fast: bool): Puller {
    Failed(Received(p.(active := p.active - {id}), received), failed)
      .(cfg := Adapted(p.cfg, |received|, |failed|, fast))
  }

  // --- The invariant ---

  /** For each path in flight, the active batch that asks for it. */
  type Owner = map<Path, BatchId>

  function Ask(owner: Owner, id: BatchId, paths: seq<Path>): Owner {
    if paths == [] then owner else Ask(owner, id, paths[..|paths| - 1])[paths[|paths| - 1] := id]
  }

  function AskAll(owner: Owner, requests: seq<Request>): Owner
    decreases requests
  {
    if requests == [] then owner else AskAll(Ask(owner, requests[0].id, requests[0].paths), requests[1..])
  }

  /** Exactly the paths in flight are asked for, each by one active batch. */
  ghost predicate OwnerOk(p: Puller, owner: Owner) {
    && owner.Keys == p.inFlight
    && (forall id | id in p.active :: id < p.nextId)
    && (forall x | x in owner :: owner[x] in p.active)
  }

  /** Every active batch asks for something. */
  ghost predicate NonEmpty(p: Puller, owner: Owner) {
    forall id | id in p.active :: exists x :: x in owner && owner[x] == id
  }

  /** A path still wanted and not in flight lies at or after the cursor. */
  ghost predicate Reachable(p: Puller) {
    forall path | path in p.pending && path !in p.inFlight ::
      exists i :: p.cursor <= i < |p.order| && p.order[i] == path
  }

  ghost predicate PullInv(p: Puller, owner: Owner) {
    && OwnerOk(p, owner)
    && p.inFlight <= p.pending
    && p.cursor <= |p.order| && Reachable(p)
    && (forall path | path in p.retries :: path in p.pending && p.retries[path] <= 3)
    && p.cfg.filesPerBatch > 0 && p.cfg.maxBatches > 0
  }

  /** Requests left at most for one path: four if it was never asked for, one fewer for each retry. */
  function Slot(p: Puller, path: Path): nat {
    if path in p.pending && RetriesOf(p, path) <= 3 then 4 - RetriesOf(p, path) else 0
  }

  function Weight(p: Puller, plan: seq<Path>): nat {
    if plan == [] then 0 else Slot(p, plan[0]) + Weight(p, plan[1..])
  }

  // --- Requesting keeps the invariant ---

  /** The invariant with `taken` as the batch being filled. */
  ghost predicate FillInv(p: Puller, owner: Owner, taken: seq<Path>) {
    && p.nextId !in p.active && PullInv(Registered(p), Ask(owner, p.nextId, taken))
    && (forall x | x in taken :: x !in owner) && NoDuplicates(taken)
  }

  lemma SkipKeeps(p: Puller, owner: Owner)
    requires PullInv(p, owner)
    ensures PullInv(Skip(p), owner)
  {
    var q := Skip(p);
    SkipStops(p);
    forall path | path in q.pending && path !in q.inFlight
      ensures exists i :: q.cursor <= i < |q.order| && q.order[i] == path
    {
      var i :| p.cursor <= i < |p.order| && p.order[i] == path;
      assert i >= q.cursor;
    }
  }

  lemma NextReachable(p: Puller)
    requires p.cursor < |p.order| && Reachable(p)
    requires !(p.order[p.cursor] in p.pending && p.order[p.cursor] !in p.inFlight)
    ensures Reachable(p.(cursor := p.cursor + 1))
  {
    forall x | x in p.pending && x !in p.inFlight
      ensures exists i :: p.cursor + 1 <= i < |p.order| && p.order[i] == x
    {
      var i :| p.cursor <= i < |p.order| && p.order[i] == x;
      assert i != p.cursor;
    }
  }

  function Taking(p: Puller): Puller
    requires p.cursor < |p.order|
  {
    p.(inFlight := p.inFlight + {p.order[p.cursor]}, cursor := p.cursor + 1)
  }

  lemma TakenReachable(p: Puller)
    requires p.cursor < |p.order| && Reachable(p)
    ensures Reachable(Taking(p))
  {
    var q := p.(inFlight := p.inFlight + {p.order[p.cursor]});
    assert Reachable(q) by {
      forall x | x in q.pending && x !in q.inFlight
        ensures exists i :: q.cursor <= i < |q.order| && q.order[i] == x
      {
        var i :| p.cursor <= i < |p.order| && p.order[i] == x;
        assert q.order[i] == x;
      }
    }
    NextReachable(q);
  }

  lemma AskMore(owner: Owner, id: BatchId, taken: seq<Path>, path: Path)
    ensures Ask(owner, id, taken + [path]) == Ask(owner, id, taken)[path := id]
  {
    assert (taken + [path])[..|taken|] == taken;
  }

  lemma {:induction false} AskLookup(owner: Owner, id: BatchId, paths: seq<Path>)
    ensures var o := Ask(owner, id, paths);
      && (forall x :: x in o <==> x in owner || x in paths)
      && (forall x | x in paths :: o[x] == id)
      && (forall x | x in owner && x !in paths :: o[x] == owner[x])
  {
    if paths != [] {
      var init, last := paths[..|paths| - 1], paths[|paths| - 1];
      AskLookup(owner, id, init);
      assert paths == init + [last];
    }
  }

  lemma TakeOne(p: Puller, o: Owner, id: BatchId)
    requires PullInv(p, o) && p.cursor < |p.order| && Eligible(p, p.order[p.cursor]) && id in p.active
    ensures PullInv(Taking(p), o[p.order[p.cursor] := id])
  {
    TakenReachable(p);
  }

  lemma TakeKeeps(p: Puller, owner: Owner, taken: seq<Path>)
    requires FillInv(p, owner, taken) && p.cursor < |p.order| && Eligible(p, p.order[p.cursor])
    ensures FillInv(Taking(p), owner, taken + [p.order[p.cursor]])
  {
    var path := p.order[p.cursor];
    AskMore(owner, p.nextId, taken, path);
    AskLookup(owner, p.nextId, taken);
    TakeOne(Registered(p), Ask(owner, p.nextId, taken), p.nextId);
  }

  lemma PassKeeps(p: Puller, owner: Owner, taken: seq<Path>)
    requires FillInv(p, owner, taken) && p.cursor < |p.order| && !Eligible(p, p.order[p.cursor])
    ensures FillInv(p.(cursor := p.cursor + 1), owner, taken)
  {
    NextReachable(Registered(p));
    hide Ask, Reachable;
  }

  lemma {:induction false} FillKeeps(p: Puller, owner: Owner, taken: seq<Path>, total: nat)
    requires FillInv(p, owner, taken)
    ensures var (q, paths) := Fill(p, taken, total);
      FillInv(q, owner, paths) && q.pending == p.pending && q.retries == p.retries && taken <= paths
    decreases |p.order| - p.cursor
  {
    hide FillInv, Eligible, BatchFull;
    if p.cursor < |p.order| {
      var path := p.order[p.cursor];
      if !Eligible(p, path) {
        PassKeeps(p, owner, taken);
        FillKeeps(p.(cursor := p.cursor + 1), owner, taken, total);
      } else if !BatchFull(p, taken, total, SizeOf(p, path)) {
        TakeKeeps(p, owner, taken);
        FillKeeps(Taking(p), owner, taken + [path], total + SizeOf(p, path));
      }
    }
  }

  /** A fill that starts at an eligible path takes it. */
  lemma FillTakes(p: Puller, owner: Owner)
    requires FillInv(p, owner, []) && p.cursor < |p.order| && Eligible(p, p.order[p.cursor])
    ensures Fill(p, [], 0).1 != []
  {
    var path := p.order[p.cursor];
    TakeKeeps(p, owner, []);
    assert [] + [path] == [path];
    FillKeeps(Taking(p), owner, [path], SizeOf(p, path));
  }

  lemma StartFill(p: Puller, owner: Owner)
    requires PullInv(p, owner)
    ensures FillInv(p, owner, [])
  {
    assert Ask(owner, p.nextId, []) == owner;
  }

  /** `paths` lists, without repetition, what the batch `id` asks for. */
  ghost predicate Lists(owner: Owner, id: BatchId, paths: seq<Path>) {
    NoDuplicates(paths) && forall x :: x in paths <==> x in owner && owner[x] == id
  }

  /** The batches of `ids` ask for the same paths in both. */
  ghost predicate SameBatches(owner: Owner, owner': Owner, ids: set<BatchId>) {
    forall x, id | id in ids :: (x in owner && owner[x] == id) <==> (x in owner' && owner'[x] == id)
  }

  /** One batch requested: it asks for something, and every other batch for what it did. */
  lemma FillBatch(p: Puller, owner: Owner)
    requires PullInv(p, owner) && NonEmpty(p, owner)
    requires p.cursor < |p.order| && Eligible(p, p.order[p.cursor])
    ensures var (f, paths) := Fill(p, [], 0);
      var q, owner' := Registered(f), Ask(owner, f.nextId, paths);
      && PullInv(q, owner') && NonEmpty(q, owner')
      && q.pending == p.pending && q.retries == p.retries && q.active == p.active + {f.nextId} && f.nextId == p.nextId
      && Lists(owner', f.nextId, paths) && SameBatches(owner, owner', p.active)
  {
    StartFill(p, owner);
    FillKeepsConfig(p, [], 0);
    FillKeeps(p, owner, [], 0);
    FillTakes(p, owner);
    var (f, paths) := Fill(p, [], 0);
    var owner' := Ask(owner, f.nextId, paths);
    AskLookup(owner, f.nextId, paths);
    forall id | id in Registered(f).active
      ensures exists x :: x in owner' && owner'[x] == id
    {
      if id == f.nextId {
        assert paths[0] in owner';
      } else {
        var x :| x in owner && owner[x] == id;
        assert x in owner';
      }
    }
  }

  /** What sending `requests` does to the batches: each new one lists what it asks for, the old ones are as before. */
  ghost predicate Sends(p: Puller, owner: Owner, q: Puller, owner': Owner, requests: seq<Request>) {
    && (forall k | 0 <= k < |requests| ::
          requests[k].id in q.active && p.nextId <= requests[k].id && Lists(owner', requests[k].id, requests[k].paths))
    && (forall k, l | 0 <= k < l < |requests| :: requests[k].id != requests[l].id)
    && p.active <= q.active && p.nextId <= q.nextId
    && (forall id | id in q.active :: id in p.active || exists k :: 0 <= k < |requests| && requests[k].id == id)
    && SameBatches(owner, owner', p.active)
  }

  lemma SendsOneMore(p: Puller, owner: Owner, m: Puller, ownerM: Owner, q: Puller, owner': Owner, first: Request,
          rest: seq<Request>)
    requires OwnerOk(p, owner)
    requires m.active == p.active + {first.id} && first.id == p.nextId && m.nextId == p.nextId + 1
    requires Lists(ownerM, first.id, first.paths) && SameBatches(owner, ownerM, p.active)
    requires Sends(m, ownerM, q, owner', rest)
    ensures Sends(p, owner, q, owner', [first] + rest)
  {
    var all := [first] + rest;
    forall id | id in q.active
      ensures id in p.active || exists k :: 0 <= k < |all| && all[k].id == id
    {
      if id == first.id {
        assert all[0].id == id;
      } else if id !in p.active {
        var k :| 0 <= k < |rest| && rest[k].id == id;
        assert all[k + 1].id == id;
      }
    }
    assert Lists(owner', first.id, first.paths);
  }

  /** Requesting keeps the invariant, asks for something in every batch, and leaves no one idle who wants something. */
  lemma {:induction false} RequestAllKeeps(p: Puller, owner: Owner)
    requires PullInv(p, owner) && NonEmpty(p, owner)
    ensures var (q, requests) := RequestAll(p);
      var owner' := AskAll(owner, requests);
      && PullInv(q, owner') && NonEmpty(q, owner')
      && q.pending == p.pending && q.retries == p.retries
      && Sends(p, owner, q, owner', requests)
      && (p.pending != {} ==> q.active != {})
    decreases |p.order| - p.cursor
  {
    if |p.active| < p.cfg.maxBatches {
      var q := Skip(p);
      SkipStops(p);
      SkipKeeps(p, owner);
      if q.cursor < |q.order| {
        FillAdvances(q, [], 0);
        FillKeepsConfig(q, [], 0);
        FillBatch(q, owner);
        var (f, paths) := Fill(q, [], 0);
        var first, owner1 := Request(f.nextId, paths), Ask(owner, f.nextId, paths);
        RequestAllKeeps(Registered(f), owner1);
        var (r, rest) := RequestAll(Registered(f));
        assert RequestAll(p).1 == [first] + rest;
        assert ([first] + rest)[1..] == rest;
        SendsOneMore(p, owner, Registered(f), owner1, r, AskAll(owner1, rest), first, rest);
      } else {
        SkippedAll(q, owner);
      }
    } else {
      assert p.active != {};
    }
  }

  lemma SkippedAll(q: Puller, owner: Owner)
    requires PullInv(q, owner) && q.cursor >= |q.order|
    ensures q.pending != {} ==> q.active != {}
  {
    if q.pending != {} {
      var x :| x in q.pending;
      assert x in owner;
    }
  }

  // --- A batch that comes back keeps the invariant ---

  /** `paths`, all of the batch `id`, are still to be accounted for; `id` is otherwise no longer active. */
  ghost predicate Orphans(p: Puller, owner: Owner, id: BatchId, paths: seq<Path>) {
    && id !in p.active && PullInv(p.(active := p.active + {id}), owner)
    && NoDuplicates(paths) && forall x :: x in paths <==> x in owner && owner[x] == id
  }

  lemma FailedOneReachable(p: Puller, path: Path)
    requires p.cursor <= |p.order| && Reachable(p)
    ensures Reachable(FailedOne(p, path))
  {
    var q := FailedOne(p, path);
    forall x | x in q.pending && x !in q.inFlight
      ensures exists i :: q.cursor <= i < |q.order| && q.order[i] == x
    {
      if x == path {
        assert q.order[|p.order|] == path;
      } else {
        var i :| p.cursor <= i < |p.order| && p.order[i] == x;
        assert q.order[i] == x;
      }
    }
  }

  lemma TailWithoutHead(paths: seq<Path>)
    requires paths != [] && NoDuplicates(paths)
    ensures NoDuplicates(paths[1..]) && paths[0] !in paths[1..]
    ensures forall x :: x in paths <==> x == paths[0] || x in paths[1..]
  {
    assert paths == [paths[0]] + paths[1..];
  }

  lemma FailOne(p: Puller, o: Owner, path: Path)
    requires PullInv(p, o) && path in o
    ensures PullInv(FailedOne(p, path), o - {path})
    ensures var q := FailedOne(p, path);
      (forall x | x != path :: Slot(q, x) == Slot(p, x)) && Slot(q, path) < Slot(p, path)
  {
    FailedOneReachable(p, path);
  }

  lemma FailedOneKeeps(p: Puller, owner: Owner, id: BatchId, paths: seq<Path>)
    requires paths != [] && Orphans(p, owner, id, paths)
    ensures var q := FailedOne(p, paths[0]);
      && Orphans(q, owner - {paths[0]}, id, paths[1..])
      && (forall x | x != paths[0] :: Slot(q, x) == Slot(p, x)) && Slot(q, paths[0]) < Slot(p, paths[0])
  {
    var p1 := p.(active := p.active + {id});
    TailWithoutHead(paths);
    FailOne(p1, owner, paths[0]);
    var q, q1 := FailedOne(p, paths[0]), FailedOne(p1, paths[0]);
    assert q1 == q.(active := q.active + {id});
    forall x ensures Slot(q, x) == Slot(q1, x) && Slot(p, x) == Slot(p1, x) {}
  }

  lemma {:induction false} FailedKeeps(p: Puller, owner: Owner, id: BatchId, paths: seq<Path>)
    requires Orphans(p, owner, id, paths)
    ensures Orphans(Failed(p, paths), owner - ToSet(paths), id, [])
    ensures var q := Failed(p, paths);
      && (forall x | x !in paths :: Slot(q, x) == Slot(p, x))
      && (forall x | x in paths :: Slot(q, x) < Slot(p, x))
      && q.pending <= p.pending && q.active == p.active && q.nextId == p.nextId && q.cfg == p.cfg
    decreases paths
  {
    MinusHead(owner, paths);
    if paths != [] {
      FailedOneKeeps(p, owner, id, paths);
      FailedKeeps(FailedOne(p, paths[0]), owner - {paths[0]}, id, paths[1..]);
      TailWithoutHead(paths);
    }
  }

  lemma MinusHead(owner: Owner, paths: seq<Path>)
    ensures paths == [] ==> owner - ToSet(paths) == owner
    ensures paths != [] ==> owner - ToSet(paths) == (owner - {paths[0]}) - ToSet(paths[1..])
  {
    if paths != [] {
      assert paths == [paths[0]] + paths[1..];
      assert ToSet(paths) == {paths[0]} + ToSet(paths[1..]);
    }
  }

  // --- A batch-complete, whole ---

  /** `received` and `failed` divide `paths` between them. */
  ghost predicate Divides(paths: seq<Path>, received: seq<Path>, failed: seq<Path>) {
    multiset(paths) == multiset(received) + multiset(failed)
  }

  lemma CountsOfNoDuplicates(s: seq<Path>)
    ensures NoDuplicates(s) <==> forall x :: multiset(s)[x] <= 1
  {
    if s != [] {
      var rest := s[1..];
      assert s == [s[0]] + rest;
      CountsOfNoDuplicates(rest);
      assert multiset(s)[s[0]] == 1 + multiset(rest)[s[0]];
      if s[0] in rest {
        var j :| 0 <= j < |rest| && rest[j] == s[0];
        assert s[0] == s[j + 1];
      } else if NoDuplicates(rest) {
        forall i, j | 0 <= i < j < |s|
          ensures s[i] != s[j]
        {
          assert s[j] == rest[j - 1];
          assert i > 0 ==> s[i] == rest[i - 1];
        }
      } else {
        var i, j :| 0 <= i < j < |rest| && rest[i] == rest[j];
        assert s[i + 1] == s[j + 1];
        var x :| multiset(rest)[x] > 1;
        assert multiset(s)[x] > 1;
      }
    }
  }

  lemma DividedWithoutDuplicates(paths: seq<Path>, received: seq<Path>, failed: seq<Path>)
    requires NoDuplicates(paths) && Divides(paths, received, failed)
    ensures NoDuplicates(failed) && NoDuplicates(received)
    ensures forall x :: x in paths <==> x in received || x in failed
    ensures forall x | x in received :: x !in failed
  {
    CountsOfNoDuplicates(paths);
    CountsOfNoDuplicates(received);
    CountsOfNoDuplicates(failed);
    forall x
      ensures x in paths <==> x in received || x in failed
      ensures x in received ==> x !in failed
      ensures multiset(received)[x] <= 1 && multiset(failed)[x] <= 1
    {
      assert multiset(paths)[x] == multiset(received)[x] + multiset(failed)[x];
      assert x in paths <==> x in multiset(paths);
      assert x in received <==> x in multiset(received);
      assert x in failed <==> x in multiset(failed);
    }
  }

  lemma ReceivedKeeps(p: Puller, owner: Owner, paths: seq<Path>)
    requires PullInv(p, owner)
    ensures PullInv(Received(p, paths), owner - ToSet(paths))
    ensures forall x :: Slot(Received(p, paths), x) == if x in paths then 0 else Slot(p, x)
  {
    var q := Received(p, paths);
    forall x | x in q.pending && x !in q.inFlight
      ensures exists i :: q.cursor <= i < |q.order| && q.order[i] == x
    {
      assert x in p.pending && x !in p.inFlight;
    }
  }

  lemma SettledCore(p: Puller, owner: Owner, id: BatchId, paths: seq<Path>, received: seq<Path>, failed: seq<Path>)
    requires PullInv(p, owner) && id in p.active && Lists(owner, id, paths)
    requires Divides(paths, received, failed)
    ensures var f := Failed(Received(p.(active := p.active - {id}), received), failed);
      && PullInv(f, owner - ToSet(paths)) && f.pending <= p.pending && f.nextId == p.nextId
      && f.active == p.active - {id} && f.cfg == p.cfg
      && (forall x | x in paths :: Slot(f, x) < Slot(p, x)) && (forall x | x !in paths :: Slot(f, x) == Slot(p, x))
  {
    DividedWithoutDuplicates(paths, received, failed);
    var r, owner1 := Received(p.(active := p.active - {id}), received), owner - ToSet(received);
    ReceivedKeeps(p, owner, received);
    assert r.(active := r.active + {id}) == Received(p, received);
    FailedKeeps(r, owner1, id, failed);
    assert owner1 - ToSet(failed) == owner - ToSet(paths);
    AllAccountedFor(Failed(r, failed), owner - ToSet(paths), id);
    SlotsOfReceived(p, id, received);
    WantedHasSlot(p, owner, paths);
    hide Slot, Failed, PullInv, Divides, NoDuplicates, Lists, Orphans;
  }

  lemma SlotsOfReceived(p: Puller, id: BatchId, received: seq<Path>)
    ensures forall x ::
      Slot(Received(p.(active := p.active - {id}), received), x) == if x in received then 0 else Slot(p, x)
  {}

  lemma WantedHasSlot(p: Puller, owner: Owner, paths: seq<Path>)
    requires PullInv(p, owner) && forall x | x in paths :: x in owner
    ensures forall x | x in paths :: Slot(p, x) > 0
  {}

  /** A batch that comes back divided into received and failed: the invariant is kept, and each of its paths
      has fewer requests left. */
  lemma SettledKeeps(p: Puller, owner: Owner, id: BatchId, paths: seq<Path>, received: seq<Path>, failed: seq<Path>,
          fast: bool)
    requires PullInv(p, owner) && NonEmpty(p, owner) && id in p.active && Lists(owner, id, paths)
    requires Divides(paths, received, failed)
    ensures var q, owner' := Settled(p, id, received, failed, fast), owner - ToSet(paths);
      && PullInv(q, owner') && NonEmpty(q, owner') && SameBatches(owner, owner', q.active)
      && q.active == p.active - {id} && q.nextId == p.nextId && q.pending <= p.pending
      && (forall x | x in paths :: Slot(q, x) < Slot(p, x)) && (forall x | x !in paths :: Slot(q, x) == Slot(p, x))
  {
    SettledCore(p, owner, id, paths, received, failed);
    var q, owner' := Settled(p, id, received, failed, fast), owner - ToSet(paths);
    forall other | other in q.active
      ensures exists x :: x in owner' && owner'[x] == other
    {
      var x :| x in owner && owner[x] == other;
      assert x !in paths;
      assert x in owner';
    }
  }

  lemma AllAccountedFor(p: Puller, owner: Owner, id: BatchId)
    requires Orphans(p, owner, id, [])
    ensures PullInv(p, owner)
  {
    forall x | x in owner
      ensures owner[x] in p.active
    {
      assert x !in [];
    }
  }

  // --- The measure ---

  lemma {:induction false} WeightFollowsSlots(p: Puller, q: Puller, plan: seq<Path>)
    requires forall x | x in plan :: Slot(q, x) <= Slot(p, x)
    ensures Weight(q, plan) <= Weight(p, plan)
    ensures (exists x :: x in plan && Slot(q, x) < Slot(p, x)) ==> Weight(q, plan) < Weight(p, plan)
  {
    if plan != [] {
      assert plan == [plan[0]] + plan[1..];
      WeightFollowsSlots(p, q, plan[1..]);
    }
  }

  // --- How much is asked for ---

  function SizeSum(sizes: map<Path, nat>, paths: seq<Path>): nat {
    if paths == [] then 0
    else
      var last := paths[|paths| - 1];
      SizeSum(sizes, paths[..|paths| - 1]) + if last in sizes then sizes[last] else 0
  }

  lemma SizeSumMore(p: Puller, paths: seq<Path>, path: Path)
    ensures SizeSum(p.sizes, paths + [path]) == SizeSum(p.sizes, paths) + SizeOf(p, path)
  {
    assert (paths + [path])[..|paths|] == paths;
  }

  /** Within the limits on files and bytes; a single path may be larger. */
  ghost predicate WithinLimits(cfg: Config, sizes: map<Path, nat>, paths: seq<Path>) {
    |paths| <= cfg.filesPerBatch && (SizeSum(sizes, paths) <= cfg.maxBytes || |paths| <= 1)
  }

  lemma FullIsAtLimits(p: Puller, taken: seq<Path>, path: Path)
    requires WithinLimits(p.cfg, p.sizes, taken) && p.cfg.filesPerBatch > 0
    ensures BatchFull(p, taken, SizeSum(p.sizes, taken), SizeOf(p, path))
      <==> !WithinLimits(p.cfg, p.sizes, taken + [path])
  {
    hide SizeSum;
    SizeSumMore(p, taken, path);
  }

  /** A batch keeps to the limits, and stops only where nothing is left or the next path would break them. */
  lemma {:induction false} FillIsSized(p: Puller, taken: seq<Path>)
    requires WithinLimits(p.cfg, p.sizes, taken) && p.cursor <= |p.order| && p.cfg.filesPerBatch > 0
    ensures var (q, paths) := Fill(p, taken, SizeSum(p.sizes, taken));
      && WithinLimits(p.cfg, p.sizes, paths) && q.cursor <= |p.order|
      && (q.cursor < |p.order| ==>
            Eligible(q, p.order[q.cursor]) && !WithinLimits(p.cfg, p.sizes, paths + [p.order[q.cursor]]))
    decreases |p.order| - p.cursor
  {
    hide WithinLimits, BatchFull, SizeSum;
    if p.cursor < |p.order| {
      var path := p.order[p.cursor];
      SizeSumMore(p, taken, path);
      FullIsAtLimits(p, taken, path);
      if !Eligible(p, path) {
        FillIsSized(p.(cursor := p.cursor + 1), taken);
      } else if !BatchFull(p, taken, SizeSum(p.sizes, taken), SizeOf(p, path)) {
        FillIsSized(Taking(p), taken + [path]);
      }
    }
  }

  lemma StartIsSized(p: Puller)
    requires p.cursor <= |p.order| && p.cfg.filesPerBatch > 0
    ensures WithinLimits(p.cfg, p.sizes, Fill(p, [], 0).1)
  {
    assert SizeSum(p.sizes, []) == 0;
    FillIsSized(p, []);
    hide *;
  }

  lemma AllInFlight(p: Puller)
    requires Reachable(p) && p.cursor >= |p.order|
    ensures p.pending <= p.inFlight
  {}

  /**
   Every batch keeps to the limits; there are no more batches at once than allowed, unless there were; and asking
   ends only with that many, or with everything wanted in flight.
   */
  lemma {:induction false} RequestsAreSized(p: Puller, owner: Owner)
    requires PullInv(p, owner) && NonEmpty(p, owner)
    ensures var (q, requests) := RequestAll(p);
      && (forall k | 0 <= k < |requests| ::
            requests[k].paths != [] && WithinLimits(p.cfg, p.sizes, requests[k].paths))
      && (if requests == [] then q.active == p.active else |q.active| <= p.cfg.maxBatches)
      && (|q.active| >= p.cfg.maxBatches || q.pending <= q.inFlight)
    decreases |p.order| - p.cursor
  {
    hide WithinLimits, Fill, Skip, Reachable;
    if |p.active| < p.cfg.maxBatches {
      var q := Skip(p);
      SkipStops(p);
      SkipKeeps(p, owner);
      if q.cursor >= |q.order| {
        AllInFlight(q);
      } else {
        FillAdvances(q, [], 0);
        FillKeepsConfig(q, [], 0);
        FillBatch(q, owner);
        StartIsSized(q);
        StartFill(q, owner);
        FillTakes(q, owner);
        var (f, paths) := Fill(q, [], 0);
        RequestsAreSized(Registered(f), Ask(owner, f.nextId, paths));
      }
    }
  }
}
