/**
 Changes that the vectors do not count yet. A saved change waits in the path's debounce before it is
 counted and sent; a version that arrives meanwhile meets words that no vector knows of.

 On the device they were typed on such words are never lost. What they do to an edit of the peer that
 arrives in that time is another matter: see `DraftKeepsPeersEditIff`.
 */
module Drafts {
  import opened Basics
  import opened Names
  import opened Versions
  import opened VersionOrder
  import opened Replicas

  // --- One delivery ---

  /**
   What a version does to a change that waits: it takes the file's place exactly if it is the newer, and then
   the words are saved first; otherwise its sender is sent them, under the vector from before.
   */
  lemma WaitingChangeMeets(host: Host, r: Replica, u: Update)
    requires r.file.Some?
    ensures var o := Receive(host, r, true, u);
      var theirs := Version(u.mtime, u.vv, host.hash(u.content), u.from);
      var ours := Version(r.file.value.mtime, r.vv, host.hash(r.file.value.content), host.deviceId);
      && o.replica.vv == Merge(r.vv, u.vv) && o.replica.deletedAt == r.deletedAt
      && (if NewerVersion(theirs, ours).A? then
            && o.replica.file == Some(File(u.content, u.mtime)) && o.out == []
            && o.replica.copies == r.copies + if host.keepCopies then {r.file.value.content} else {}
          else
            && o.replica.file == r.file && o.replica.copies == r.copies
            && o.out == [SendFile(u.from, Update(r.file.value.content, r.file.value.mtime, r.vv, host.deviceId))])
  {
    hide NewerVersion, Merge;
  }

  // --- Runs of one device ---

  /** `echo` is the hash of what was last written for a peer, while it is remembered. */
  datatype Desk = Desk(replica: Replica, pending: bool, echo: Option<Name>, trash: set<Content>)

  datatype Event =
    | Types(content: Content, mtime: real)
    | Stirs
    | Hears(update: Update)
    | HearsDelete(deletion: Deletion, now: real)
    | Flushes

  /** The change that waited is counted now, unless the file is what a peer's version left there. */
  function Flushed(host: Host, s: Desk): Replica {
    if s.replica.file.None? || s.echo == Some(host.hash(s.replica.file.value.content)) then s.replica
    else
      var f := s.replica.file.value;
      Edited(host, s.replica, f.content, f.mtime).(deletedAt := None)
  }

  /** `Stirs` is a file event that comes with no change, as one does after each write. What is heard is any
      message at all. */
  ghost predicate Follows(host: Host, s: Desk, e: Event, s': Desk) {
    match e
    case Types(content, mtime) =>
      && s'.replica == s.replica.(file := Some(File(content, mtime))) && s'.pending
      && s'.echo in {s.echo, None} && s'.trash == s.trash
    case Stirs => s' == s.(pending := true, echo := s'.echo) && s'.echo in {s.echo, None}
    case Hears(u) =>
      && s'.replica == Receive(host, s.replica, s.pending, u).replica && s'.pending == s.pending
      && s'.echo in {s.echo, None, Some(host.hash(u.content))} && s'.trash == s.trash
    case HearsDelete(d, now) =>
      && s'.replica == ReceiveDelete(host, s.replica, d, now).replica && s'.pending == s.pending
      && s'.echo in {s.echo, None}
      && s'.trash == s.trash +
        if s.replica.file.Some? && s'.replica.file.None? then {s.replica.file.value.content} else {}
    case Flushes =>
      s.pending && s'.replica == Flushed(host, s) && !s'.pending && s'.echo in {s.echo, None} && s'.trash == s.trash
  }

  ghost predicate IsDeskRun(host: Host, states: seq<Desk>, events: seq<Event>) {
    && |states| == |events| + 1 && states[0].echo == None
    && forall i | 0 <= i < |events| :: Follows(host, states[i], events[i], states[i + 1])
  }

  ghost predicate Has(s: Desk, c: Content) {
    (s.replica.file.Some? && s.replica.file.value.content == c) || c in s.replica.copies || c in s.trash
  }

  /** Someone else sent the same words, as far as their hash tells. */
  ghost predicate SentToo(host: Host, events: seq<Event>, j: nat, h: Name) {
    exists k | 0 <= k < j && k < |events| :: events[k].Hears? && host.hash(events[k].update.content) == h
  }

  /** Between `i` and `j` a version was heard that counts more of this device's edits than there were at `i`. */
  ghost predicate HeardLater(host: Host, states: seq<Desk>, events: seq<Event>, i: nat, j: nat)
    requires i < |states|
  {
    exists k | i < k < j && k < |events| :: events[k].Hears?
      && Count(events[k].update.vv, host.deviceId) > Count(states[i].replica.vv, host.deviceId)
  }

  lemma {:induction false} EchoWasSent(host: Host, states: seq<Desk>, events: seq<Event>, j: nat)
    requires IsDeskRun(host, states, events) && j < |states|
    ensures states[j].echo.Some? ==> SentToo(host, events, j, states[j].echo.value)
  {
    hide Receive, ReceiveDelete, Flushed;
    if j > 0 {
      EchoWasSent(host, states, events, j - 1);
      assert Follows(host, states[j - 1], events[j - 1], states[j]);
      if states[j].echo.Some? {
        if states[j].echo == states[j - 1].echo {
          var k :| 0 <= k < j - 1 && events[k].Hears? && host.hash(events[k].update.content) == states[j].echo.value;
        } else {
          assert events[j - 1].Hears?;
        }
      }
    }
  }

  /** The words are here, and if they are only in the file, they wait or were counted. */
  ghost predicate Guarded(host: Host, s: Desk, c: Content, n: nat) {
    && Has(s, c) && Count(s.replica.vv, host.deviceId) >= n
    && (c !in s.replica.copies && c !in s.trash ==> s.pending || Count(s.replica.vv, host.deviceId) > n)
  }

  lemma GuardedStep(host: Host, s: Desk, e: Event, s': Desk, c: Content, n: nat)
    requires host.keepCopies && Follows(host, s, e, s') && Guarded(host, s, c, n) && !e.Types?
    requires e.Hears? ==> Count(e.update.vv, host.deviceId) <= n
    requires e.Flushes? ==> s.echo != Some(host.hash(c))
    ensures Guarded(host, s', c, n)
  {
    hide NewerVersion, PickVersion;
    if e.Hears? {
      OrderMeaning(e.update.vv, s.replica.vv);
    }
  }

  /**
   Main step: in any run, whatever is heard, words once typed stay in the file, in a conflict copy or in the
   trash until the user types over them; unless a version arrives that counts this device's later edits, or the
   same words had come from elsewhere.
   */
  lemma {:induction false} TypedWordsStay(host: Host, states: seq<Desk>, events: seq<Event>, i: nat, j: nat)
    requires IsDeskRun(host, states, events) && host.keepCopies && i < j < |states| && events[i].Types?
    requires forall k | i < k < j :: !events[k].Types?
    ensures Has(states[j], events[i].content)
      || HeardLater(host, states, events, i, j) || SentToo(host, events, j, host.hash(events[i].content))
  {
    hide Receive, ReceiveDelete, Flushed, Follows;
    if !HeardLater(host, states, events, i, j) && !SentToo(host, events, j, host.hash(events[i].content)) {
      WordsAreGuarded(host, states, events, i, j);
    }
  }

  lemma {:induction false} WordsAreGuarded(host: Host, states: seq<Desk>, events: seq<Event>, i: nat, j: nat)
    requires IsDeskRun(host, states, events) && host.keepCopies && i < j < |states| && events[i].Types?
    requires forall k | i < k < j :: !events[k].Types?
    requires !HeardLater(host, states, events, i, j) && !SentToo(host, events, j, host.hash(events[i].content))
    ensures Guarded(host, states[j], events[i].content, Count(states[i].replica.vv, host.deviceId))
  {
    hide Receive, ReceiveDelete, Flushed;
    assert Follows(host, states[j - 1], events[j - 1], states[j]);
    if j > i + 1 {
      hide Follows;
      WordsAreGuarded(host, states, events, i, j - 1);
      EchoWasSent(host, states, events, j - 1);
      GuardedStep(host, states[j - 1], events[j - 1], states[j], events[i].content,
        Count(states[i].replica.vv, host.deviceId));
    }
  }

  // --- Two devices ---

  /** What is left at `b` when a change waiting at `a` won against b's version, b got the answer, and `a` then
      sent the change counted. */
  function AfterFlush(a: Host, b: Host, r: Replica, q: Replica): Replica
    requires r.file.Some? && q.file.Some?
  {
    var o := Receive(a, r, true, OurVersion(b, q.file.value, q.vv));
    var answered := if o.out != [] && o.out[0].SendFile? then Receive(b, q, false, o.out[0].update).replica else q;
    var f := r.file.value;
    Receive(b, answered, false, OurVersion(a, f, Edited(a, o.replica, f.content, f.mtime).vv)).replica
  }

  /**
   An edit of `b` that loses against a change waiting at `a` is saved by `b` exactly if `a` had a counted edit
   that b's version did not include. Otherwise the answer looks older than b's version and is ignored, and the
   counted change, whose vector includes b's edit by then, replaces it as if it had been made on top.
   */
  lemma DraftKeepsPeersEditIff(a: Host, b: Host, r: Replica, q: Replica)
    requires a.deviceId != [] && b.deviceId != [] && a.deviceId != b.deviceId
    requires b.keepCopies && a.hash == b.hash && r.file.Some? && q.file.Some?
    requires r.file.value.content != q.file.value.content
    requires HasOwnUnseenEdit(q.vv, r.vv, b.deviceId)
    requires Receive(a, r, true, OurVersion(b, q.file.value, q.vv)).replica.file == r.file
    ensures var q' := AfterFlush(a, b, r, q);
      && q'.file == r.file
      && (q.file.value.content in q'.copies <==> q.file.value.content in q.copies || !Includes(q.vv, r.vv))
  {
    var u, f, g := OurVersion(b, q.file.value, q.vv), r.file.value, q.file.value;
    WaitingChangeMeets(a, r, u);
    NamedDevicesPickAlike(RemoteVersion(a, u), LocalVersion(a, f, r.vv));
    var answer := OurVersion(a, f, r.vv);
    OrderMeaning(r.vv, q.vv);
    var flushed := Edited(a, Receive(a, r, true, u).replica, f.content, f.mtime).vv;
    FlushedIncludes(a.deviceId, r.vv, q.vv);
    OrderMeaning(flushed, q.vv);
    hide NewerVersion, Merge, OrderOf;
  }

  lemma FlushedIncludes(d: Name, a: Vector, b: Vector)
    ensures var m := Merge(a, b)[d := Count(Merge(a, b), d) + 1]; Includes(m, b) && !Includes(b, m)
  {
    var m := Merge(a, b)[d := Count(Merge(a, b), d) + 1];
    assert Count(b, d) < Count(m, d);
  }

  /** So it goes with two devices that have one version, if the one edits it while a later change waits on the other. */
  lemma DraftLosesPeersEdit(a: Host, b: Host, typed: Content, theirs: Content, base: Content)
    requires a.deviceId != [] && b.deviceId != [] && a.deviceId != b.deviceId
    requires a.keepCopies && b.keepCopies && a.hash == b.hash && typed != theirs
    ensures var vv := map[a.deviceId := 1];
      var r := Replica(Some(File(typed, 20.0)), vv, None, {});
      var q := Edited(b, Replica(Some(File(base, 1.0)), vv, None, {}), theirs, 10.0);
      var q' := AfterFlush(a, b, r, q);
      q'.file == Some(File(typed, 20.0)) && theirs !in q'.copies
  {
    var vv := map[a.deviceId := 1];
    var r := Replica(Some(File(typed, 20.0)), vv, None, {});
    var q := Edited(b, Replica(Some(File(base, 1.0)), vv, None, {}), theirs, 10.0);
    WaitingChangeMeets(a, r, OurVersion(b, q.file.value, q.vv));
    forall d ensures Count(r.vv, d) <= Count(q.vv, d) {}
    DraftKeepsPeersEditIff(a, b, r, q);
    hide AfterFlush;
  }
}
