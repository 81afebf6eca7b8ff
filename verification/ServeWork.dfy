/** Exactly what a request is served with: which paths are sent, in what tasks, and which are counted as failed. */
module ServeWorks {
  import opened Basics
  import opened Pulls
  import opened Serves

  /** The path is allowed and the vault has something there. */
  predicate Sendable(s: Server, path: Path, vault: Path -> Entry) {
    path in s.allowed && !vault(path).Missing?
  }

  /** Of the paths asked for, those that are sent. */
  function Sent(s: Server, paths: seq<Path>, vault: Path -> Entry): seq<Path> {
    if paths == [] then []
    else
      var last := paths[|paths| - 1];
      Sent(s, paths[..|paths| - 1], vault) + if Sendable(s, last, vault) then [last] else []
  }

  /** Of the paths asked for, those that are not. */
  function Refused(s: Server, paths: seq<Path>, vault: Path -> Entry): seq<Path> {
    if paths == [] then []
    else
      var last := paths[|paths| - 1];
      Refused(s, paths[..|paths| - 1], vault) + if Sendable(s, last, vault) then [] else [last]
  }

  lemma {:induction false} SentIs(s: Server, paths: seq<Path>, vault: Path -> Entry)
    ensures forall x :: x in Sent(s, paths, vault) <==> x in paths && Sendable(s, x, vault)
    ensures forall x :: x in Refused(s, paths, vault) <==> x in paths && !Sendable(s, x, vault)
    ensures |Sent(s, paths, vault)| + |Refused(s, paths, vault)| == |paths|
  {
    if paths != [] {
      SentIs(s, paths[..|paths| - 1], vault);
      assert paths == paths[..|paths| - 1] + [paths[|paths| - 1]];
    }
  }

  lemma OneMoreSent(s: Server, seen: seq<Path>, path: Path, vault: Path -> Entry)
    ensures Sent(s, seen + [path], vault) == Sent(s, seen, vault) + if Sendable(s, path, vault) then [path] else []
    ensures Refused(s, seen + [path], vault) == Refused(s, seen, vault) +
      if Sendable(s, path, vault) then [] else [path]
  {
    assert (seen + [path])[..|seen|] == seen;
  }

  /** The batch of a request of which `refused` were refused so far. */
  ghost predicate Answering(w: Work, s: Server, id: BatchId, total: nat, refused: seq<Path>) {
    if |refused| < total || total == 0 then
      w.replies == [] && w.server.serving == s.serving[id := Batch(total, |refused|, [], refused)]
    else
      w.replies == [Reply(id, [], refused)] && w.server.serving == s.serving - {id}
  }

  /** A request of which the paths `seen` were looked at. */
  ghost predicate Looked(w: Work, s: Server, id: BatchId, total: nat, seen: seq<Path>, vault: Path -> Entry) {
    && w.server.allowed == s.allowed - ToSet(Sent(s, seen, vault))
    && Answering(w, s, id, total, Refused(s, seen, vault))
    && AllOutstanding(w.tasks) + multiset(w.open) == multiset(Sent(s, seen, vault))
  }

  lemma RejectAnswers(w: Work, s: Server, id: BatchId, total: nat, refused: seq<Path>, path: Path, again: bool)
    requires Answering(w, s, id, total, refused) && |refused| < total
    ensures var w' := Reject(w, id, path, again);
      && Answering(w', s, id, total, refused + [path]) && w'.tasks == w.tasks && w'.open == w.open
      && w'.server.allowed == w.server.allowed + if again then {path} else {}
  {
    assert ToSet([path]) == {path};
  }

  lemma TasksGrow(tasks: seq<Task>, t: Task)
    ensures AllOutstanding(tasks + [t]) == AllOutstanding(tasks) + multiset(t.paths)
  {
    OutstandingJoins(tasks, [t], t.id);
    OutstandingOne(t, t.id);
  }

  lemma QueuedOrOpen(w: Work, id: BatchId, path: Path, entry: Entry)
    requires !entry.Missing?
    ensures var w' := if entry.FileOf? && entry.estimate < MAX_BATCH_BYTES then Pack(w, id, path, entry.estimate)
        else w.(tasks := w.tasks + [Task(id, [path])]);
      && w'.server == w.server && w'.replies == w.replies
      && AllOutstanding(w'.tasks) + multiset(w'.open) == AllOutstanding(w.tasks) + multiset(w.open) + multiset{path}
  {
    TasksGrow(w.tasks, Task(id, [path]));
    TasksGrow(w.tasks, Task(id, w.open));
    assert multiset([path]) == multiset{path};
    assert multiset(w.open + [path]) == multiset(w.open) + multiset{path};
    assert [] + [path] == [path];
  }

  lemma SetsGrow(paths: seq<Path>, path: Path)
    ensures multiset(paths + [path]) == multiset(paths) + multiset{path}
      && ToSet(paths + [path]) == ToSet(paths) + {path}
  {}

  /** The next path is sent. */
  lemma LookedSent(w: Work, w': Work, s: Server, id: BatchId, total: nat, seen: seq<Path>, path: Path,
          vault: Path -> Entry)
    requires Looked(w, s, id, total, seen, vault) && Sendable(s, path, vault)
    requires w'.replies == w.replies && w'.server == w.server.(allowed := w.server.allowed - {path})
    requires AllOutstanding(w'.tasks) + multiset(w'.open) == AllOutstanding(w.tasks) + multiset(w.open) + multiset{path}
    ensures Looked(w', s, id, total, seen + [path], vault)
  {
    hide Sent, Refused, AllOutstanding, Answering;
    OneMoreSent(s, seen, path, vault);
    SetsGrow(Sent(s, seen, vault), path);
    assert Refused(s, seen, vault) + [] == Refused(s, seen, vault);
    AnsweringSame(w, w', s, id, total, Refused(s, seen, vault));
  }

  /** The next path is refused. */
  lemma LookedRefused(w: Work, w': Work, s: Server, id: BatchId, total: nat, seen: seq<Path>, path: Path,
          vault: Path -> Entry)
    requires Looked(w, s, id, total, seen, vault) && !Sendable(s, path, vault)
    requires Answering(w', s, id, total, Refused(s, seen, vault) + [path]) && w'.tasks == w.tasks && w'.open == w.open
    requires w'.server.allowed == w.server.allowed
    ensures Looked(w', s, id, total, seen + [path], vault)
  {
    OneMoreSent(s, seen, path, vault);
    assert Sent(s, seen, vault) + [] == Sent(s, seen, vault);
    hide Sent, Refused, AllOutstanding, Answering;
  }

  lemma LookedOneMore(w: Work, s: Server, id: BatchId, total: nat, seen: seq<Path>, path: Path, vault: Path -> Entry)
    requires Looked(w, s, id, total, seen, vault) && |seen| < total && path !in seen
    ensures Looked(ServeOne(w, id, path, vault), s, id, total, seen + [path], vault)
  {
    hide Answering, Reject, Pack, Sent, Refused, AllOutstanding;
    SentIs(s, seen, vault);
    var refused := Refused(s, seen, vault);
    assert path in w.server.allowed <==> path in s.allowed;
    var taken := w.(server := w.server.(allowed := w.server.allowed - {path}));
    if path !in s.allowed {
      RejectAnswers(w, s, id, total, refused, path, false);
      LookedRefused(w, ServeOne(w, id, path, vault), s, id, total, seen, path, vault);
    } else if vault(path).Missing? {
      AnsweringSame(w, taken, s, id, total, refused);
      RejectAnswers(taken, s, id, total, refused, path, true);
      LookedRefused(w, ServeOne(w, id, path, vault), s, id, total, seen, path, vault);
    } else {
      QueuedOrOpen(taken, id, path, vault(path));
      LookedSent(w, ServeOne(w, id, path, vault), s, id, total, seen, path, vault);
    }
  }

  lemma AnsweringSame(w: Work, w': Work, s: Server, id: BatchId, total: nat, refused: seq<Path>)
    requires Answering(w, s, id, total, refused) && w'.replies == w.replies && w'.server.serving == w.server.serving
    ensures Answering(w', s, id, total, refused)
  {}

  lemma {:induction false} LookedAtAll(w: Work, s: Server, id: BatchId, total: nat, seen: seq<Path>, rest: seq<Path>,
          vault: Path -> Entry)
    requires Looked(w, s, id, total, seen, vault) && |seen| + |rest| == total && NoDuplicates(seen + rest)
    ensures Looked(ServePaths(w, id, rest, vault), s, id, total, seen + rest, vault)
    decreases rest
  {
    hide Looked, ServeOne;
    if rest == [] {
      assert seen + rest == seen;
    } else {
      var path := rest[0];
      assert (seen + rest)[|seen|] == path;
      assert path !in seen by {
        forall i | 0 <= i < |seen| ensures seen[i] != path { assert (seen + rest)[i] == seen[i]; }
      }
      LookedOneMore(w, s, id, total, seen, path, vault);
      assert (seen + [path]) + rest[1..] == seen + rest;
      LookedAtAll(ServeOne(w, id, path, vault), s, id, total, seen + [path], rest[1..], vault);
    }
  }

  /**
   A request for distinct paths: what is allowed and there is in one task, once, and no longer allowed; the rest
   is counted as failed, in the order asked for; and if that is all, the request is answered at once.
   */
  lemma ServeIsExact(s: Server, id: BatchId, paths: seq<Path>, vault: Path -> Entry)
    requires NoDuplicates(paths)
    ensures var w, sent, refused := Serve(s, id, paths, vault), Sent(s, paths, vault), Refused(s, paths, vault);
      && AllOutstanding(w.tasks) == multiset(sent) && w.server.allowed == s.allowed - ToSet(sent)
      && (if sent != [] then
            w.replies == [] && w.server.serving == s.serving[id := Batch(|paths|, |refused|, [], refused)]
          else w.replies == [Reply(id, [], refused)] && w.server.serving == s.serving - {id})
  {
    hide ServePaths, Sent, Refused, AllOutstanding, Looked;
    var begun := Work(s.(serving := s.serving[id := Batch(|paths|, 0, [], [])]), [], [], [], 0);
    NothingLookedAt(s, id, |paths|, vault);
    assert [] + paths == paths;
    LookedAtAll(begun, s, id, |paths|, [], paths, vault);
    SentIs(s, paths, vault);
    LookedIsDone(ServePaths(begun, id, paths, vault), s, id, paths, vault);
  }

  lemma NothingLookedAt(s: Server, id: BatchId, total: nat, vault: Path -> Entry)
    ensures Looked(Work(s.(serving := s.serving[id := Batch(total, 0, [], [])]), [], [], [], 0),
      s, id, total, [], vault)
  {}

  lemma LookedIsDone(w: Work, s: Server, id: BatchId, paths: seq<Path>, vault: Path -> Entry)
    requires Looked(w, s, id, |paths|, paths, vault)
    requires |Sent(s, paths, vault)| + |Refused(s, paths, vault)| == |paths|
    ensures var done := Closed(if w.open != [] then Flush(w, id) else w, id, paths);
      var sent, refused := Sent(s, paths, vault), Refused(s, paths, vault);
      && AllOutstanding(done.tasks) == multiset(sent) && done.server.allowed == s.allowed - ToSet(sent)
      && (if sent != [] then
            done.replies == [] && done.server.serving == s.serving[id := Batch(|paths|, |refused|, [], refused)]
          else done.replies == [Reply(id, [], refused)] && done.server.serving == s.serving - {id})
  {
    hide Sent, Refused, AllOutstanding;
    TasksGrow(w.tasks, Task(id, w.open));
    if paths == [] { assert Sent(s, paths, vault) == [] && Refused(s, paths, vault) == []; }
    assert s.serving[id := Batch(0, 0, [], [])] - {id} == s.serving - {id};
  }

  // --- How tasks are packed ---

  function Estimates(paths: seq<Path>, vault: Path -> Entry): nat {
    if paths == [] then 0
    else
      var last := vault(paths[|paths| - 1]);
      Estimates(paths[..|paths| - 1], vault) + if last.FileOf? then last.estimate else 0
  }

  ghost predicate AreFiles(paths: seq<Path>, vault: Path -> Entry) {
    forall x | x in paths :: vault(x).FileOf?
  }

  /** Small files that fit together, or one path alone: a file that is too large or a folder. */
  ghost predicate FitsTask(t: Task, vault: Path -> Entry) {
    if |t.paths| == 1 then !vault(t.paths[0]).Missing?
    else |t.paths| > 1 && AreFiles(t.paths, vault) && Estimates(t.paths, vault) < MAX_BATCH_BYTES
  }

  ghost predicate Packed(w: Work, vault: Path -> Entry) {
    && AreFiles(w.open, vault) && w.size == Estimates(w.open, vault) && w.size < MAX_BATCH_BYTES
    && forall t | t in w.tasks :: FitsTask(t, vault)
  }

  lemma EstimatesMore(paths: seq<Path>, path: Path, vault: Path -> Entry)
    ensures Estimates(paths + [path], vault)
      == Estimates(paths, vault) + if vault(path).FileOf? then vault(path).estimate else 0
  {
    assert (paths + [path])[..|paths|] == paths;
  }

  lemma PackedFile(w: Work, id: BatchId, path: Path, vault: Path -> Entry)
    requires Packed(w, vault) && vault(path).FileOf? && vault(path).estimate < MAX_BATCH_BYTES
    ensures Packed(Pack(w, id, path, vault(path).estimate), vault)
  {
    hide Estimates;
    EstimatesMore(w.open, path, vault);
    assert [] + [path] == [path];
    EstimatesMore([], path, vault);
    assert Estimates([], vault) == 0 by { NoEstimates(vault); }
    assert w.size + vault(path).estimate >= MAX_BATCH_BYTES ==> w.open != [] by { NoEstimates(vault); }
  }

  lemma NoEstimates(vault: Path -> Entry)
    ensures Estimates([], vault) == 0
  {}

  lemma PackedOneMore(w: Work, id: BatchId, path: Path, vault: Path -> Entry)
    requires Packed(w, vault)
    ensures Packed(ServeOne(w, id, path, vault), vault)
  {
    hide RecordTask, Estimates, Pack;
    if path in w.server.allowed && vault(path).FileOf? && vault(path).estimate < MAX_BATCH_BYTES {
      PackedFile(w.(server := w.server.(allowed := w.server.allowed - {path})), id, path, vault);
    }
  }

  lemma {:induction false} PackedAll(w: Work, id: BatchId, paths: seq<Path>, vault: Path -> Entry)
    requires Packed(w, vault)
    ensures Packed(ServePaths(w, id, paths, vault), vault)
    decreases paths
  {
    hide Packed, ServeOne;
    if paths != [] {
      PackedOneMore(w, id, paths[0], vault);
      PackedAll(ServeOne(w, id, paths[0], vault), id, paths[1..], vault);
    }
  }

  /** No task is over the limit on bytes, except one of a single path. */
  lemma TasksFit(s: Server, id: BatchId, paths: seq<Path>, vault: Path -> Entry)
    ensures forall t | t in Serve(s, id, paths, vault).tasks :: FitsTask(t, vault)
  {
    hide ServePaths, Estimates;
    var begun := Work(s.(serving := s.serving[id := Batch(|paths|, 0, [], [])]), [], [], [], 0);
    NoEstimates(vault);
    assert Packed(begun, vault);
    PackedAll(begun, id, paths, vault);
  }
}
