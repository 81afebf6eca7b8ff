/**
 The serving half of a full sync (src/main.ts, handleRequestBatch and recordBatchTaskCompletion):
 which paths the peer may still take, and the batches being served to it.
 */
module Serves {
  import opened Basics
  import opened Pulls

  /** A batch being served; `sent` counts the paths of the tasks that have ended. */
  datatype Batch = Batch(total: nat, sent: nat, succeeded: seq<Path>, failed: seq<Path>)

  datatype Server = Server(allowed: set<Path>, serving: map<BatchId, Batch>)

  /** One queued task: it sends all its paths, and ends once, with success or without. */
  datatype Task = Task(id: BatchId, paths: seq<Path>)

  datatype Reply = Reply(id: BatchId, received: seq<Path>, failed: seq<Path>)

  /** What the vault holds at a path when it is asked for: a file with its size estimate on the wire, a
      folder, or nothing. */
  datatype Entry = FileOf(estimate: nat) | FolderOf | Missing

  const MAX_BATCH_BYTES: nat := 192 * 1024

  // --- A task ends ---

  function Counting(b: Batch, paths: seq<Path>, success: bool): Batch {
    if success then Batch(b.total, b.sent + |paths|, b.succeeded + paths, b.failed)
    else Batch(b.total, b.sent + |paths|, b.succeeded, b.failed + paths)
  }

  function RecordTask(s: Server, id: BatchId, paths: seq<Path>, success: bool, reauthorize: bool): (Server, seq<Reply>)
  {
    if paths == [] || id !in s.serving then (s, [])
    else
      var b := Counting(s.serving[id], paths, success);
      var allowed := if !success && reauthorize then s.allowed + ToSet(paths) else s.allowed;
      if b.sent >= b.total then (Server(allowed, s.serving - {id}), [Reply(id, b.succeeded, b.failed)])
      else (Server(allowed, s.serving[id := b]), [])
  }

  // --- A batch is requested ---

  /** The tasks and replies of one request, in the order they are queued and sent. */
  datatype Work = Work(server: Server, tasks: seq<Task>, replies: seq<Reply>, open: seq<Path>, size: nat)

  function Flush(w: Work, id: BatchId): Work {
    w.(tasks := w.tasks + [Task(id, w.open)], open := [], size := 0)
  }

  function Reject(w: Work, id: BatchId, path: Path, reauthorize: bool): Work {
    var (s, replies) := RecordTask(w.server, id, [path], false, reauthorize);
    w.(server := s, replies := w.replies + replies)
  }

  function Pack(w: Work, id: BatchId, path: Path, estimate: nat): Work {
    var flushed := if w.size + estimate >= MAX_BATCH_BYTES then Flush(w, id) else w;
    flushed.(open := flushed.open + [path], size := flushed.size + estimate)
  }

  /** One requested path: too large a file and a folder get a task of their own, other files are packed together. */
  function ServeOne(w: Work, id: BatchId, path: Path, vault: Path -> Entry): Work {
    if path !in w.server.allowed then Reject(w, id, path, false)
    else
      var taken := w.(server := w.server.(allowed := w.server.allowed - {path}));
      match vault(path)
      case FileOf(estimate) =>
        if estimate >= MAX_BATCH_BYTES then taken.(tasks := taken.tasks + [Task(id, [path])])
        else Pack(taken, id, path, estimate)
      case FolderOf => taken.(tasks := taken.tasks + [Task(id, [path])])
      case Missing => Reject(taken, id, path, true)
  }

  function ServePaths(w: Work, id: BatchId, paths: seq<Path>, vault: Path -> Entry): Work
    decreases paths
  {
    if paths == [] then w else ServePaths(ServeOne(w, id, paths[0], vault), id, paths[1..], vault)
  }

  /** What is done once every path was looked at: an empty request is answered at once. */
  function Closed(w: Work, id: BatchId, paths: seq<Path>): Work {
    if paths == []
      then w.(server := w.server.(serving := w.server.serving - {id}), replies := w.replies + [Reply(id, [], [])])
      else w
  }

  function Serve(s: Server, id: BatchId, paths: seq<Path>, vault: Path -> Entry): Work {
    var begun := s.(serving := s.serving[id := Batch(|paths|, 0, [], [])]);
    var w := ServePaths(Work(begun, [], [], [], 0), id, paths, vault);
    var done := if w.open != [] then Flush(w, id) else w;
    Closed(done, id, paths)
  }

  // --- What is outstanding ---

  /** The share of one task in what is outstanding of batch `id`. */
  ghost function Share(t: Task, id: BatchId): multiset<Path> {
    if t.id == id then multiset(t.paths) else multiset{}
  }

  /** The paths of the tasks of batch `id`, with their multiplicity. */
  ghost function Outstanding(tasks: seq<Task>, id: BatchId): multiset<Path> {
    if tasks == [] then multiset{}
    else Share(tasks[0], id) + Outstanding(tasks[1..], id)
  }

  ghost function AllOutstanding(tasks: seq<Task>): multiset<Path> {
    if tasks == [] then multiset{} else multiset(tasks[0].paths) + AllOutstanding(tasks[1..])
  }

  lemma SumAssociates(a: multiset<Path>, b: multiset<Path>, c: multiset<Path>)
    ensures a + (b + c) == (a + b) + c
  {}

  lemma {:induction false} OutstandingJoins(a: seq<Task>, b: seq<Task>, id: BatchId)
    ensures Outstanding(a + b, id) == Outstanding(a, id) + Outstanding(b, id)
    ensures AllOutstanding(a + b) == AllOutstanding(a) + AllOutstanding(b)
  {
    if a == [] {
      assert a + b == b;
    } else {
      var rest := a[1..];
      assert (a + b)[1..] == rest + b && (a + b)[0] == a[0];
      OutstandingJoins(rest, b, id);
      SumAssociates(Share(a[0], id), Outstanding(rest, id), Outstanding(b, id));
      SumAssociates(multiset(a[0].paths), AllOutstanding(rest), AllOutstanding(b));
    }
  }

  lemma OutstandingOne(t: Task, id: BatchId)
    ensures Outstanding([t], id) == Share(t, id)
    ensures AllOutstanding([t]) == multiset(t.paths)
  {
    assert [t][1..] == [];
  }

  lemma OutstandingWithout(tasks: seq<Task>, k: nat, id: BatchId)
    requires k < |tasks|
    ensures Outstanding(tasks, id) == Outstanding(Without(tasks, k), id) + Share(tasks[k], id)
    ensures AllOutstanding(tasks) == AllOutstanding(Without(tasks, k)) + multiset(tasks[k].paths)
  {
    var a, t, b := tasks[..k], tasks[k], tasks[k + 1..];
    assert tasks == a + ([t] + b);
    OutstandingJoins(a, [t] + b, id);
    OutstandingJoins([t], b, id);
    OutstandingJoins(a, b, id);
    OutstandingOne(t, id);
  }

  // --- The invariant ---

  /** A served batch has divided what was asked of it into succeeded, failed and outstanding, and is not finished. */
  ghost predicate Conserves(b: Batch, asked: seq<Path>, outstanding: multiset<Path>) {
    && b.total == |asked| && b.sent == |b.succeeded| + |b.failed| && b.sent < b.total
    && multiset(asked) == multiset(b.succeeded) + multiset(b.failed) + outstanding
  }

  /** Each planned path is in one place: still allowed, in one outstanding task, delivered, or none of these. */
  ghost predicate Exclusive(allowed: set<Path>, outstanding: multiset<Path>, delivered: set<Path>, planned: set<Path>) {
    && allowed !! delivered && allowed <= planned && delivered <= planned
    && (forall x :: outstanding[x] <= 1)
    && (forall x | x in outstanding :: x !in allowed && x !in delivered && x in planned)
  }

  ghost predicate AllConserve(s: Server, tasks: seq<Task>, asked: map<BatchId, seq<Path>>) {
    forall id | id in s.serving :: id in asked && Conserves(s.serving[id], asked[id], Outstanding(tasks, id))
  }

  ghost predicate TasksServe(s: Server, tasks: seq<Task>) {
    forall k | 0 <= k < |tasks| :: tasks[k].paths != [] && tasks[k].id in s.serving
  }

  ghost predicate ServeInv(s: Server, tasks: seq<Task>, asked: map<BatchId, seq<Path>>, delivered: set<Path>,
          planned: set<Path>)
  {
    AllConserve(s, tasks, asked) && TasksServe(s, tasks)
      && Exclusive(s.allowed, AllOutstanding(tasks), delivered, planned)
  }

  // --- A task that ends keeps the invariant ---

  function DeliveredBy(delivered: set<Path>, paths: seq<Path>, success: bool): set<Path> {
    if success then delivered + ToSet(paths) else delivered
  }

  /** Every reply divides what was asked, and ends its batch. */
  ghost predicate RepliesOk(replies: seq<Reply>, id: BatchId, asked: seq<Path>, s: Server, tasks: seq<Task>) {
    && |replies| <= 1
    && (replies == [] ==> id in s.serving)
    && (replies != [] ==>
          && replies[0].id == id && Divides(asked, replies[0].received, replies[0].failed)
          && id !in s.serving && Outstanding(tasks, id) == multiset{})
  }

  lemma CountingConserves(b: Batch, asked: seq<Path>, outstanding: multiset<Path>, paths: seq<Path>, success: bool)
    requires b.total == |asked| && b.sent == |b.succeeded| + |b.failed|
    requires multiset(asked) == multiset(b.succeeded) + multiset(b.failed) + (outstanding + multiset(paths))
    ensures var b' := Counting(b, paths, success);
      && b'.total == |asked| && b'.sent == |b'.succeeded| + |b'.failed|
      && multiset(asked) == multiset(b'.succeeded) + multiset(b'.failed) + outstanding
      && (b'.sent >= b'.total ==> outstanding == multiset{} && Divides(asked, b'.succeeded, b'.failed))
  {
    var b' := Counting(b, paths, success);
    assert multiset(b'.succeeded) + multiset(b'.failed)
      == multiset(b.succeeded) + multiset(b.failed) + multiset(paths) by {
      assert multiset(b.succeeded + paths) == multiset(b.succeeded) + multiset(paths);
      assert multiset(b.failed + paths) == multiset(b.failed) + multiset(paths);
    }
    assert |multiset(asked)| == |multiset(b'.succeeded)| + |multiset(b'.failed)| + |outstanding|;
  }

  lemma ExclusiveAfterTask(allowed: set<Path>, outstanding: multiset<Path>, paths: seq<Path>, delivered: set<Path>,
          planned: set<Path>, success: bool)
    requires Exclusive(allowed, outstanding + multiset(paths), delivered, planned)
    ensures success ==> delivered !! ToSet(paths)
    ensures Exclusive(if success then allowed
        else allowed + ToSet(paths), outstanding, DeliveredBy(delivered, paths, success), planned)
    ensures Exclusive(allowed, outstanding, DeliveredBy(delivered, paths, success), planned)
  {
    var all := outstanding + multiset(paths);
    forall x
      ensures outstanding[x] <= all[x] && (x in paths ==> x in all && outstanding[x] == 0)
    {
      assert all[x] == outstanding[x] + multiset(paths)[x];
      assert x in paths <==> x in multiset(paths);
    }
  }

  lemma OutstandingTaskIs(tasks: seq<Task>, k: nat, id: BatchId)
    requires k < |tasks| && tasks[k].id == id
    ensures forall x | x in tasks[k].paths :: x in Outstanding(tasks, id)
    ensures tasks[k].paths != [] ==> Outstanding(tasks, id) != multiset{}
  {
    OutstandingWithout(tasks, k, id);
    if tasks[k].paths != [] {
      assert tasks[k].paths[0] in multiset(tasks[k].paths);
      assert tasks[k].paths[0] in Outstanding(tasks, id);
    }
  }

  /** Every batch but `id` is as it was. */
  ghost predicate OthersServed(s: Server, s': Server, id: BatchId) {
    forall other | other != id ::
      (other in s'.serving <==> other in s.serving) && (other in s.serving ==> s'.serving[other] == s.serving[other])
  }

  /** The batch of a task that ended: still conserving, or answered in full. */
  lemma TaskEndOfBatch(s: Server, tasks: seq<Task>, k: nat, success: bool, asked: seq<Path>)
    requires k < |tasks| && tasks[k].paths != [] && tasks[k].id in s.serving
    requires Conserves(s.serving[tasks[k].id], asked, Outstanding(tasks, tasks[k].id))
    ensures var t, rest := tasks[k], Without(tasks, k);
      var (s', replies) := RecordTask(s, t.id, t.paths, success, true);
      && RepliesOk(replies, t.id, asked, s', rest)
      && (replies == [] ==> Conserves(s'.serving[t.id], asked, Outstanding(rest, t.id)))
      && OthersServed(s, s', t.id)
  {
    var t, rest := tasks[k], Without(tasks, k);
    OutstandingWithout(tasks, k, t.id);
    var b := s.serving[t.id];
    var o := Outstanding(rest, t.id);
    SumAssociates(multiset(b.succeeded) + multiset(b.failed), o, multiset(t.paths));
    CountingConserves(b, asked, o, t.paths, success);
  }

  lemma TasksAfterEnd(s: Server, s': Server, tasks: seq<Task>, k: nat)
    requires k < |tasks| && TasksServe(s, tasks) && OthersServed(s, s', tasks[k].id)
    requires tasks[k].id in s'.serving || Outstanding(Without(tasks, k), tasks[k].id) == multiset{}
    ensures TasksServe(s', Without(tasks, k))
  {
    var rest := Without(tasks, k);
    forall j | 0 <= j < |rest|
      ensures rest[j].paths != [] && rest[j].id in s'.serving
    {
      assert rest[j] == if j < k then tasks[j] else tasks[j + 1];
      if rest[j].id == tasks[k].id {
        OutstandingTaskIs(rest, j, tasks[k].id);
      }
    }
  }

  lemma OutstandingElse(tasks: seq<Task>, k: nat, id: BatchId)
    requires k < |tasks| && tasks[k].id != id
    ensures Outstanding(tasks, id) == Outstanding(Without(tasks, k), id)
  {
    OutstandingWithout(tasks, k, id);
  }

  lemma ServedAfterEnd(s: Server, s': Server, tasks: seq<Task>, k: nat, asked: map<BatchId, seq<Path>>)
    requires k < |tasks| && AllConserve(s, tasks, asked) && OthersServed(s, s', tasks[k].id) && tasks[k].id in asked
    requires tasks[k].id in s'.serving
      ==> Conserves(s'.serving[tasks[k].id], asked[tasks[k].id], Outstanding(Without(tasks, k), tasks[k].id))
    ensures AllConserve(s', Without(tasks, k), asked)
  {
    forall id | id in s'.serving
      ensures id in asked && Conserves(s'.serving[id], asked[id], Outstanding(Without(tasks, k), id))
    {
      if id != tasks[k].id {
        OutstandingElse(tasks, k, id);
      }
    }
  }

  /** A task that ends is counted once; its batch is answered exactly when nothing of it is outstanding. A
      path never succeeds twice. */
  lemma TaskEndKeeps(s: Server, tasks: seq<Task>, k: nat, success: bool, asked: map<BatchId, seq<Path>>,
          delivered: set<Path>, planned: set<Path>)
    requires ServeInv(s, tasks, asked, delivered, planned) && k < |tasks|
    ensures var t, rest := tasks[k], Without(tasks, k);
      var (s', replies) := RecordTask(s, t.id, t.paths, success, true);
      && ServeInv(s', rest, asked, DeliveredBy(delivered, t.paths, success), planned)
      && RepliesOk(replies, t.id, asked[t.id], s', rest)
      && (success ==> delivered !! ToSet(t.paths))
  {
    var t, rest := tasks[k], Without(tasks, k);
    var (s', replies) := RecordTask(s, t.id, t.paths, success, true);
    TaskEndOfBatch(s, tasks, k, success, asked[t.id]);
    TasksAfterEnd(s, s', tasks, k);
    ServedAfterEnd(s, s', tasks, k, asked);
    OutstandingWithout(tasks, k, t.id);
    ExclusiveAfterTask(s.allowed, AllOutstanding(rest), t.paths, delivered, planned, success);
  }

  // --- A request keeps the invariant ---

  /** What the request being served holds of batch `id`: queued in tasks, or waiting to be packed. */
  ghost function Held(tasks: seq<Task>, w: Work, id: BatchId): multiset<Path> {
    Outstanding(tasks + w.tasks, id) + multiset(w.open)
  }

  ghost function AllHeld(tasks: seq<Task>, w: Work): multiset<Path> {
    AllOutstanding(tasks + w.tasks) + multiset(w.open)
  }

  /** The batch of the request, with `rest` of what was asked still to be looked at. */
  ghost predicate Dividing(b: Batch, asked: seq<Path>, held: multiset<Path>, rest: seq<Path>) {
    && b.total == |asked| && b.sent == |b.succeeded| + |b.failed|
    && multiset(asked) == multiset(b.succeeded) + multiset(b.failed) + (held + multiset(rest))
    && (asked != [] ==> b.sent < b.total)
  }

  ghost predicate WorkServes(w: Work, s: Server, id: BatchId, asked: seq<Path>, held: multiset<Path>, rest: seq<Path>) {
    && |w.replies| <= 1
    && (w.replies == [] ==> id in w.server.serving && Dividing(w.server.serving[id], asked, held, rest))
    && (w.replies != [] ==>
          && w.replies[0].id == id && Divides(asked, w.replies[0].received, w.replies[0].failed) && asked != []
          && id !in w.server.serving && rest == [] && held == multiset{})
    && OthersServed(s, w.server, id)
    && (forall k | 0 <= k < |w.tasks| :: w.tasks[k].id == id && w.tasks[k].paths != [])
    && (w.open == [] ==> w.size == 0)
  }

  ghost predicate WorkInv(w: Work, s: Server, tasks: seq<Task>, id: BatchId, asked: seq<Path>, rest: seq<Path>,
          delivered: set<Path>, planned: set<Path>)
  {
    && WorkServes(w, s, id, asked, Held(tasks, w, id), rest)
    && Exclusive(w.server.allowed, AllHeld(tasks, w), delivered, planned)
  }

  lemma HeldWithTask(tasks: seq<Task>, w: Work, t: Task)
    ensures var w' := w.(tasks := w.tasks + [t]);
      && (forall id :: Held(tasks, w', id) == Held(tasks, w, id) + Share(t, id))
      && AllHeld(tasks, w') == AllHeld(tasks, w) + multiset(t.paths)
  {
    assert tasks + (w.tasks + [t]) == (tasks + w.tasks) + [t];
    forall id
      ensures Held(tasks, w.(tasks := w.tasks + [t]), id) == Held(tasks, w, id) + Share(t, id)
    {
      OutstandingJoins(tasks + w.tasks, [t], id);
      OutstandingOne(t, id);
    }
    OutstandingJoins(tasks + w.tasks, [t], 0);
    OutstandingOne(t, 0);
  }

  lemma HeldFlushed(tasks: seq<Task>, w: Work, id: BatchId)
    ensures Held(tasks, Flush(w, id), id) == Held(tasks, w, id)
    ensures AllHeld(tasks, Flush(w, id)) == AllHeld(tasks, w)
  {
    var t := Task(id, w.open);
    assert tasks + (w.tasks + [t]) == (tasks + w.tasks) + [t];
    OutstandingJoins(tasks + w.tasks, [t], id);
    OutstandingOne(t, id);
  }

  lemma FlushKeeps(w: Work, s: Server, tasks: seq<Task>, id: BatchId, asked: seq<Path>, rest: seq<Path>,
          delivered: set<Path>, planned: set<Path>)
    requires WorkInv(w, s, tasks, id, asked, rest, delivered, planned) && w.open != []
    ensures WorkInv(Flush(w, id), s, tasks, id, asked, rest, delivered, planned)
  {
    hide Exclusive, WorkServes, Held, AllHeld;
    HeldFlushed(tasks, w, id);
    FlushServes(w, s, id, asked, Held(tasks, w, id), rest);
  }

  lemma FlushServes(w: Work, s: Server, id: BatchId, asked: seq<Path>, held: multiset<Path>, rest: seq<Path>)
    requires WorkServes(w, s, id, asked, held, rest) && w.open != []
    ensures WorkServes(Flush(w, id), s, id, asked, held, rest)
  {
    hide Dividing, OthersServed;
  }

  lemma HeadOfMultiset(rest: seq<Path>)
    requires rest != []
    ensures multiset(rest) == multiset{rest[0]} + multiset(rest[1..])
  {
    assert rest == [rest[0]] + rest[1..];
  }

  /** The next path of the request is rejected: it is counted as failed. */
  lemma RejectKeeps(w: Work, s: Server, tasks: seq<Task>, id: BatchId,
    asked: seq<Path>, rest: seq<Path>, delivered: set<Path>, planned: set<Path>, reauthorize: bool)
    requires rest != [] && WorkInv(w, s, tasks, id, asked, rest, delivered, planned)
    requires reauthorize ==> rest[0] !in AllHeld(tasks, w) && rest[0] !in delivered && rest[0] in planned
    ensures WorkInv(Reject(w, id, rest[0], reauthorize), s, tasks, id, asked, rest[1..], delivered, planned)
  {
    hide Reject, WorkServes, Exclusive, Held, AllHeld;
    var w' := Reject(w, id, rest[0], reauthorize);
    RejectServes(w, s, id, asked, Held(tasks, w, id), rest, reauthorize);
    RejectQueuesNothing(w, id, rest[0], reauthorize);
    HeldSame(tasks, w, w', id);
    ReauthorizedExclusive(w.server.allowed, AllHeld(tasks, w), delivered, planned, rest[0], reauthorize);
  }

  lemma RejectQueuesNothing(w: Work, id: BatchId, path: Path, reauthorize: bool)
    ensures Reject(w, id, path, reauthorize).tasks == w.tasks && Reject(w, id, path, reauthorize).open == w.open
  {}

  lemma ReauthorizedExclusive(allowed: set<Path>, outstanding: multiset<Path>, delivered: set<Path>, planned: set<Path>,
          path: Path, reauthorize: bool)
    requires Exclusive(allowed, outstanding, delivered, planned)
    requires reauthorize ==> path !in outstanding && path !in delivered && path in planned
    ensures Exclusive(if reauthorize then allowed + {path} else allowed, outstanding, delivered, planned)
  {}

  lemma HeldSame(tasks: seq<Task>, w: Work, w': Work, id: BatchId)
    requires w'.tasks == w.tasks && w'.open == w.open
    ensures Held(tasks, w', id) == Held(tasks, w, id) && AllHeld(tasks, w') == AllHeld(tasks, w)
  {}

  lemma RejectServes(w: Work, s: Server, id: BatchId, asked: seq<Path>, held: multiset<Path>, rest: seq<Path>,
          reauthorize: bool)
    requires rest != [] && WorkServes(w, s, id, asked, held, rest)
    ensures WorkServes(Reject(w, id, rest[0], reauthorize), s, id, asked, held, rest[1..])
    ensures Reject(w, id, rest[0], reauthorize).server.allowed ==
      if reauthorize then w.server.allowed + {rest[0]} else w.server.allowed
  {
    RejectedDivides(w.server.serving[id], asked, held, rest);
    assert ToSet([rest[0]]) == {rest[0]};
  }

  lemma RejectedDivides(b: Batch, asked: seq<Path>, held: multiset<Path>, rest: seq<Path>)
    requires rest != [] && Dividing(b, asked, held, rest)
    ensures var b' := Counting(b, [rest[0]], false);
      if b'.sent < b'.total then Dividing(b', asked, held, rest[1..])
      else rest[1..] == [] && held == multiset{} && asked != [] && Divides(asked, b'.succeeded, b'.failed)
  {
    var left := held + multiset(rest[1..]);
    HeadOfMultiset(rest);
    assert multiset([rest[0]]) == multiset{rest[0]};
    assert held + multiset(rest) == left + multiset([rest[0]]);
    CountingConserves(b, asked, left, [rest[0]], false);
    var b' := Counting(b, [rest[0]], false);
    if b'.sent >= b'.total {
      assert |left| == |held| + |rest[1..]|;
    }
  }

  /** An allowed path is in no task and not delivered; once taken it may be held. */
  lemma TakeExclusive(allowed: set<Path>, outstanding: multiset<Path>, delivered: set<Path>, planned: set<Path>,
          path: Path)
    requires Exclusive(allowed, outstanding, delivered, planned) && path in allowed
    ensures path !in outstanding && path !in delivered && path in planned
    ensures Exclusive(allowed - {path}, outstanding, delivered, planned)
    ensures Exclusive(allowed - {path}, outstanding + multiset{path}, delivered, planned)
  {
    forall x ensures (outstanding + multiset{path})[x] <= 1 {}
  }

  /** The next path is accepted into `w'`, which holds it as well. */
  lemma AcceptServes(w: Work, w': Work, s: Server, id: BatchId, asked: seq<Path>, held: multiset<Path>, rest: seq<Path>)
    requires rest != [] && WorkServes(w, s, id, asked, held, rest)
    requires w'.server.serving == w.server.serving && w'.replies == w.replies
    requires forall k | 0 <= k < |w'.tasks| :: w'.tasks[k].id == id && w'.tasks[k].paths != []
    requires w'.open == [] ==> w'.size == 0
    ensures WorkServes(w', s, id, asked, held + multiset{rest[0]}, rest[1..])
  {
    HeadOfMultiset(rest);
    assert held + multiset(rest) == (held + multiset{rest[0]}) + multiset(rest[1..]);
  }

  lemma TasksOfWork(w: Work, s: Server, id: BatchId, asked: seq<Path>, held: multiset<Path>, rest: seq<Path>)
    requires WorkServes(w, s, id, asked, held, rest)
    ensures (forall k | 0 <= k < |w.tasks| :: w.tasks[k].id == id && w.tasks[k].paths != [])
      && (w.open == [] ==> w.size == 0)
  {}

  /** The next path gets a task of its own. */
  lemma OwnTaskKeeps(w: Work, s: Server, tasks: seq<Task>, id: BatchId, asked: seq<Path>, rest: seq<Path>,
          delivered: set<Path>, planned: set<Path>)
    requires rest != [] && rest[0] in w.server.allowed && WorkInv(w, s, tasks, id, asked, rest, delivered, planned)
    ensures WorkInv(w.(server := w.server.(allowed := w.server.allowed - {rest[0]}),
        tasks := w.tasks + [Task(id, [rest[0]])]),
                    s, tasks, id, asked, rest[1..], delivered, planned)
  {
    hide WorkServes, Exclusive, Held, AllHeld;
    var path := rest[0];
    var w' := w.(server := w.server.(allowed := w.server.allowed - {path}), tasks := w.tasks + [Task(id, [path])]);
    TakeExclusive(w.server.allowed, AllHeld(tasks, w), delivered, planned, path);
    OwnTaskHeld(tasks, w, w', id, path);
    TasksOfWork(w, s, id, asked, Held(tasks, w, id), rest);
    AcceptServes(w, w', s, id, asked, Held(tasks, w, id), rest);
  }

  lemma OwnTaskHeld(tasks: seq<Task>, w: Work, w': Work, id: BatchId, path: Path)
    requires w'.tasks == w.tasks + [Task(id, [path])] && w'.open == w.open
    ensures Held(tasks, w', id) == Held(tasks, w, id) + multiset{path}
      && AllHeld(tasks, w') == AllHeld(tasks, w) + multiset{path}
  {
    hide Held, AllHeld;
    var t := Task(id, [path]);
    HeldWithTask(tasks, w, t);
    HeldSame(tasks, w.(tasks := w.tasks + [t]), w', id);
    assert multiset(t.paths) == multiset{path};
  }

  /** The next path joins the batch being packed. */
  lemma PackKeeps(w: Work, s: Server, tasks: seq<Task>, id: BatchId,
    asked: seq<Path>, rest: seq<Path>, delivered: set<Path>, planned: set<Path>, estimate: nat)
    requires rest != [] && rest[0] in w.server.allowed && WorkInv(w, s, tasks, id, asked, rest, delivered, planned)
    ensures WorkInv(w.(server := w.server.(allowed := w.server.allowed - {rest[0]}), open := w.open + [rest[0]],
        size := w.size + estimate),
                    s, tasks, id, asked, rest[1..], delivered, planned)
  {
    var path := rest[0];
    var w' := w.(server := w.server.(allowed := w.server.allowed - {path}), open := w.open + [path],
      size := w.size + estimate);
    TakeExclusive(w.server.allowed, AllHeld(tasks, w), delivered, planned, path);
    assert multiset(w.open + [path]) == multiset(w.open) + multiset{path};
    SumAssociates(Outstanding(tasks + w.tasks, id), multiset(w.open), multiset{path});
    SumAssociates(AllOutstanding(tasks + w.tasks), multiset(w.open), multiset{path});
    assert Held(tasks, w', id) == Held(tasks, w, id) + multiset{path}
      && AllHeld(tasks, w') == AllHeld(tasks, w) + multiset{path};
    AcceptServes(w, w', s, id, asked, Held(tasks, w, id), rest);
  }

  /** The next path is allowed, but gone from the vault. */
  lemma MissingKeeps(w: Work, s: Server, tasks: seq<Task>, id: BatchId, asked: seq<Path>, rest: seq<Path>,
          delivered: set<Path>, planned: set<Path>)
    requires rest != [] && rest[0] in w.server.allowed && WorkInv(w, s, tasks, id, asked, rest, delivered, planned)
    ensures WorkInv(Reject(w.(server := w.server.(allowed := w.server.allowed - {rest[0]})), id, rest[0], true),
      s, tasks, id, asked, rest[1..], delivered, planned)
  {
    var taken := w.(server := w.server.(allowed := w.server.allowed - {rest[0]}));
    TakeExclusive(w.server.allowed, AllHeld(tasks, w), delivered, planned, rest[0]);
    assert Held(tasks, taken, id) == Held(tasks, w, id) && AllHeld(tasks, taken) == AllHeld(tasks, w);
    RejectKeeps(taken, s, tasks, id, asked, rest, delivered, planned, true);
  }

  /** The next path does not fit: what was packed is flushed, and it starts anew. */
  lemma FlushPackKeeps(w: Work, s: Server, tasks: seq<Task>, id: BatchId,
    asked: seq<Path>, rest: seq<Path>, delivered: set<Path>, planned: set<Path>, estimate: nat)
    requires rest != [] && rest[0] in w.server.allowed && WorkInv(w, s, tasks, id, asked, rest, delivered, planned)
      && w.open != []
    ensures var flushed := Flush(w.(server := w.server.(allowed := w.server.allowed - {rest[0]})), id);
      WorkInv(flushed.(open := flushed.open + [rest[0]], size := flushed.size + estimate), s, tasks, id, asked,
        rest[1..], delivered, planned)
  {
    FlushKeeps(w, s, tasks, id, asked, rest, delivered, planned);
    PackKeeps(Flush(w, id), s, tasks, id, asked, rest, delivered, planned, estimate);
  }

  /** An allowed path that is a small file. */
  lemma ServeSmallKeeps(w: Work, s: Server, tasks: seq<Task>, id: BatchId,
    asked: seq<Path>, rest: seq<Path>, delivered: set<Path>, planned: set<Path>, estimate: nat)
    requires rest != [] && rest[0] in w.server.allowed && WorkInv(w, s, tasks, id, asked, rest, delivered, planned)
    requires estimate < MAX_BATCH_BYTES
    ensures WorkInv(Pack(w.(server := w.server.(allowed := w.server.allowed - {rest[0]})), id, rest[0], estimate),
      s, tasks, id, asked, rest[1..], delivered, planned)
  {
    hide WorkServes, Exclusive, Held, AllHeld;
    TasksOfWork(w, s, id, asked, Held(tasks, w, id), rest);
    if w.size + estimate >= MAX_BATCH_BYTES {
      FlushPackKeeps(w, s, tasks, id, asked, rest, delivered, planned, estimate);
    } else {
      PackKeeps(w, s, tasks, id, asked, rest, delivered, planned, estimate);
    }
  }

  lemma ServeOneKeeps(w: Work, s: Server, tasks: seq<Task>, id: BatchId,
    asked: seq<Path>, rest: seq<Path>, vault: Path -> Entry, delivered: set<Path>, planned: set<Path>)
    requires rest != [] && WorkInv(w, s, tasks, id, asked, rest, delivered, planned)
    ensures WorkInv(ServeOne(w, id, rest[0], vault), s, tasks, id, asked, rest[1..], delivered, planned)
  {
    var path := rest[0];
    if path !in w.server.allowed {
      RejectKeeps(w, s, tasks, id, asked, rest, delivered, planned, false);
    } else {
      match vault(path)
      case FolderOf =>
        OwnTaskKeeps(w, s, tasks, id, asked, rest, delivered, planned);
      case Missing =>
        MissingKeeps(w, s, tasks, id, asked, rest, delivered, planned);
      case FileOf(estimate) =>
        if estimate >= MAX_BATCH_BYTES {
          OwnTaskKeeps(w, s, tasks, id, asked, rest, delivered, planned);
        } else {
          ServeSmallKeeps(w, s, tasks, id, asked, rest, delivered, planned, estimate);
        }
    }
  }

  lemma {:induction false} ServePathsKeeps(w: Work, s: Server, tasks: seq<Task>, id: BatchId,
    asked: seq<Path>, rest: seq<Path>, vault: Path -> Entry, delivered: set<Path>, planned: set<Path>)
    requires WorkInv(w, s, tasks, id, asked, rest, delivered, planned)
    ensures WorkInv(ServePaths(w, id, rest, vault), s, tasks, id, asked, [], delivered, planned)
    decreases rest
  {
    if rest != [] {
      ServeOneKeeps(w, s, tasks, id, asked, rest, vault, delivered, planned);
      ServePathsKeeps(ServeOne(w, id, rest[0], vault), s, tasks, id, asked, rest[1..], vault, delivered, planned);
    }
  }

  lemma {:induction false} NothingOutstanding(tasks: seq<Task>, id: BatchId)
    requires forall k | 0 <= k < |tasks| :: tasks[k].id != id
    ensures Outstanding(tasks, id) == multiset{}
  {
    if tasks != [] { NothingOutstanding(tasks[1..], id); }
  }

  /** The request begins with everything still to be looked at. */
  lemma ServeBegins(s: Server, tasks: seq<Task>, id: BatchId, paths: seq<Path>,
    asked: map<BatchId, seq<Path>>, delivered: set<Path>, planned: set<Path>)
    requires ServeInv(s, tasks, asked, delivered, planned) && id !in s.serving
    ensures WorkInv(Work(s.(serving := s.serving[id := Batch(|paths|, 0, [], [])]), [], [], [], 0), s, tasks, id, paths,
      paths, delivered, planned)
  {
    var w := Work(s.(serving := s.serving[id := Batch(|paths|, 0, [], [])]), [], [], [], 0);
    NothingOutstanding(tasks, id);
    assert tasks + w.tasks == tasks;
    HeldClosed(tasks, w, id);
    FreshDivides(paths);
    assert WorkServes(w, s, id, paths, multiset{}, paths);
  }

  /** With nothing waiting to be packed, what is held is what is outstanding. */
  lemma HeldClosed(tasks: seq<Task>, w: Work, id: BatchId)
    requires w.open == []
    ensures Held(tasks, w, id) == Outstanding(tasks + w.tasks, id)
    ensures AllHeld(tasks, w) == AllOutstanding(tasks + w.tasks)
  {}

  lemma FreshDivides(paths: seq<Path>)
    ensures Dividing(Batch(|paths|, 0, [], []), paths, multiset{}, paths)
  {}

  /** A request, whatever it asks for, is served by tasks and at most one reply; together they account for
      every path asked. */
  lemma ServeKeeps(s: Server, tasks: seq<Task>, id: BatchId, paths: seq<Path>, vault: Path -> Entry,
    asked: map<BatchId, seq<Path>>, delivered: set<Path>, planned: set<Path>)
    requires ServeInv(s, tasks, asked, delivered, planned) && id !in asked
    ensures var w := Serve(s, id, paths, vault);
      && ServeInv(w.server, tasks + w.tasks, asked[id := paths], delivered, planned)
      && RepliesOk(w.replies, id, paths, w.server, tasks + w.tasks)
      && OthersServed(s, w.server, id)
      && (forall k | 0 <= k < |w.tasks| :: w.tasks[k].id == id)
  {
    var w0 := Work(s.(serving := s.serving[id := Batch(|paths|, 0, [], [])]), [], [], [], 0);
    ServeBegins(s, tasks, id, paths, asked, delivered, planned);
    ServePathsKeeps(w0, s, tasks, id, paths, paths, vault, delivered, planned);
    var w1 := ServePaths(w0, id, paths, vault);
    if w1.open != [] { FlushKeeps(w1, s, tasks, id, paths, [], delivered, planned); }
    var w2 := if w1.open != [] then Flush(w1, id) else w1;
    ServeEnds(s, tasks, id, paths, w2, asked, delivered, planned);
  }

  lemma ServeEnds(s: Server, tasks: seq<Task>, id: BatchId, paths: seq<Path>, w: Work,
    asked: map<BatchId, seq<Path>>, delivered: set<Path>, planned: set<Path>)
    requires ServeInv(s, tasks, asked, delivered, planned) && id !in asked
    requires WorkInv(w, s, tasks, id, paths, [], delivered, planned) && w.open == []
    ensures var done := Closed(w, id, paths);
      && ServeInv(done.server, tasks + w.tasks, asked[id := paths], delivered, planned)
      && RepliesOk(done.replies, id, paths, done.server, tasks + w.tasks)
      && OthersServed(s, done.server, id)
  {
    HeldClosed(tasks, w, id);
    ServeEndsCore(s, tasks, id, paths, w, asked);
  }

  lemma ServeEndsCore(s: Server, tasks: seq<Task>, id: BatchId, paths: seq<Path>, w: Work,
          asked: map<BatchId, seq<Path>>)
    requires AllConserve(s, tasks, asked) && TasksServe(s, tasks) && id !in asked
    requires WorkServes(w, s, id, paths, Outstanding(tasks + w.tasks, id), [])
    ensures var done, all := Closed(w, id, paths), tasks + w.tasks;
      && AllConserve(done.server, all, asked[id := paths]) && TasksServe(done.server, all)
      && RepliesOk(done.replies, id, paths, done.server, all)
      && OthersServed(s, done.server, id) && done.server.allowed == w.server.allowed
  {
    var all, done := tasks + w.tasks, Closed(w, id, paths);
    ClosedAnswers(w, s, id, paths, all);
    TasksServed(s, done.server, tasks, w.tasks, id);
    OthersConserve(s, done.server, tasks, w.tasks, id, asked);
  }

  lemma ClosedAnswers(w: Work, s: Server, id: BatchId, paths: seq<Path>, all: seq<Task>)
    requires WorkServes(w, s, id, paths, Outstanding(all, id), [])
    ensures var done := Closed(w, id, paths);
      && RepliesOk(done.replies, id, paths, done.server, all) && OthersServed(s, done.server, id)
      && done.server.allowed == w.server.allowed
      && (id in done.server.serving ==> Conserves(done.server.serving[id], paths, Outstanding(all, id)))
  {
    if paths == [] {
      assert |Outstanding(all, id)| == 0;
    } else if w.replies == [] {
      FullyLookedAt(w.server.serving[id], paths, Outstanding(all, id));
    }
  }

  lemma FullyLookedAt(b: Batch, asked: seq<Path>, held: multiset<Path>)
    requires asked != [] && Dividing(b, asked, held, [])
    ensures Conserves(b, asked, held)
  {
    NothingMore(held);
  }

  lemma NothingMore(a: multiset<Path>)
    ensures a + multiset([]) == a
  {}

  lemma TasksServed(s: Server, s': Server, tasks: seq<Task>, more: seq<Task>, id: BatchId)
    requires TasksServe(s, tasks)
    requires forall k | 0 <= k < |more| :: more[k].id == id && more[k].paths != []
    requires OthersServed(s, s', id) && id !in s.serving
    requires id in s'.serving || Outstanding(tasks + more, id) == multiset{}
    ensures TasksServe(s', tasks + more)
  {
    var all := tasks + more;
    forall k | 0 <= k < |all|
      ensures all[k].paths != [] && all[k].id in s'.serving
    {
      assert all[k] == if k < |tasks| then tasks[k] else more[k - |tasks|];
      if all[k].id == id { OutstandingTaskIs(all, k, id); }
    }
  }

  lemma OthersConserve(s: Server, s': Server, tasks: seq<Task>, more: seq<Task>, id: BatchId,
          asked: map<BatchId, seq<Path>>)
    requires AllConserve(s, tasks, asked) && id !in asked && OthersServed(s, s', id)
    requires forall k | 0 <= k < |more| :: more[k].id == id
    ensures forall other | other in s'.serving && other != id ::
      other in asked && Conserves(s'.serving[other], asked[other], Outstanding(tasks + more, other))
  {
    forall other | other in s'.serving && other != id
      ensures other in asked && Conserves(s'.serving[other], asked[other], Outstanding(tasks + more, other))
    {
      OutstandingJoins(tasks, more, other);
      NothingOutstanding(more, other);
      NothingMore(Outstanding(tasks, other));
    }
  }
}
