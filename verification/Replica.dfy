/**
 One device's state for one path, and what it does with a version or a deletion that a peer
 sends (src/main.ts, applyFileUpdate to replyWithOurVersion, and applyFileDelete).

 The functions give each handler's outcome; the class `Device` performs them on its fields, as
 the handlers do, and is proved to have that outcome.
 */
module Replicas {
  import opened Basics
  import opened Names
  import opened Versions

  type Content = seq<CodeUnit>

  datatype File = File(content: Content, mtime: real)

  /** `copies` are the contents saved as conflict copies; `deletedAt` is the path's tombstone. */
  datatype Replica = Replica(file: Option<File>, vv: Vector, deletedAt: Option<real>, copies: set<Content>)

  /** A file-update message, or a reply with our version: content, time, vector, sender. */
  datatype Update = Update(content: Content, mtime: real, vv: Vector, from: Name)

  /** A file-delete message; `at` is absent in messages of older peers. */
  datatype Deletion = Deletion(at: Option<real>, vv: Vector, from: Name)

  datatype Outgoing = SendFile(to: Name, update: Update) | SendDelete(to: Name)

  /** What stays fixed while messages are handled: this device, its strategy, the hash of a content. */
  datatype Host = Host(deviceId: Name, keepCopies: bool, hash: Content -> Name)

  datatype Outcome = Outcome(replica: Replica, out: seq<Outgoing>)

  // --- Outcomes of an update ---

  function LocalVersion(host: Host, f: File, vv: Vector): Version {
    Version(f.mtime, vv, host.hash(f.content), host.deviceId)
  }

  function RemoteVersion(host: Host, u: Update): Version {
    Version(u.mtime, u.vv, host.hash(u.content), u.from)
  }

  /** Our version, under the vector from before theirs was merged. */
  function OurVersion(host: Host, f: File, vv: Vector): Update {
    Update(f.content, f.mtime, vv, host.deviceId)
  }

  /** This device's deletion beats the copy a peer sent. */
  predicate DeletionOutranks(host: Host, r: Replica, u: Update) {
    && r.deletedAt.Some?
    && PickVersion(Version(r.deletedAt.value, r.vv, [], host.deviceId), RemoteVersion(host, u)).A?
  }

  function Conflict(host: Host, r: Replica, pending: bool, u: Update): Outcome
    requires r.file.Some?
  {
    var merged := Merge(r.vv, u.vv);
    if NewerVersion(RemoteVersion(host, u), LocalVersion(host, r.file.value, r.vv)).B? then
      Outcome(r.(vv := merged), [SendFile(u.from, OurVersion(host, r.file.value, r.vv))])
    else
      var keep := host.keepCopies && (HasOwnUnseenEdit(r.vv, u.vv, host.deviceId) || pending);
      Outcome(r.(file := Some(File(u.content, u.mtime)), vv := merged,
                 copies := if keep then r.copies + {r.file.value.content} else r.copies), [])
  }

  function Modify(host: Host, r: Replica, pending: bool, u: Update): Outcome
    requires r.file.Some?
  {
    if r.file.value.content == u.content && !pending then
      Outcome(r.(vv := Merge(r.vv, u.vv)), [])
    else
      match if pending then Concurrent else OrderOf(u.vv, r.vv)
      case After => Outcome(r.(file := Some(File(u.content, u.mtime)), vv := Merge(r.vv, u.vv)), [])
      case Before => Outcome(r, [SendFile(u.from, OurVersion(host, r.file.value, r.vv))])
      case _ => Conflict(host, r, pending, u)
  }

  /** `pending` tells that a local change still sits in the path's debounce, uncounted by the vector. */
  function Receive(host: Host, r: Replica, pending: bool, u: Update): Outcome {
    if r.file.Some? then
      Modify(host, r, pending, u)
    else if DeletionOutranks(host, r, u) then
      Outcome(r.(vv := Merge(r.vv, u.vv)), [SendDelete(u.from)])
    else
      Outcome(r.(file := Some(File(u.content, u.mtime)), vv := Merge(r.vv, u.vv), deletedAt := None), [])
  }

  // --- Outcome of a deletion ---

  function DeletionVersion(d: Deletion): Version {
    Version(if d.at.Some? then d.at.value else 0.0, d.vv, [], d.from)
  }

  /** The file stays: it was changed here after the peer deleted it. */
  predicate FileOutranks(host: Host, r: Replica, d: Deletion)
    requires r.file.Some?
  {
    && !(d.at.None? && OrderOf(d.vv, r.vv) != Before)
    && PickVersion(DeletionVersion(d), Version(r.file.value.mtime, r.vv, [], host.deviceId)).B?
  }

  function ReceiveDelete(host: Host, r: Replica, d: Deletion, now: real): Outcome {
    var merged := Merge(r.vv, d.vv);
    var at := if d.at.Some? then d.at.value else now;
    if r.file.None? then
      Outcome(r.(vv := merged, deletedAt := if r.deletedAt.Some? then r.deletedAt else Some(at)), [])
    else if FileOutranks(host, r, d) then
      Outcome(r.(vv := merged), [SendFile(d.from, OurVersion(host, r.file.value, r.vv))])
    else
      Outcome(r.(file := None, vv := merged, deletedAt := Some(at)), [])
  }

  /** A copy edited on `a` crosses a deletion made on `b`: both devices keep the file, or both lose it. */
  lemma EditVersusDeleteAgrees(a: Host, b: Host, ra: Replica, rb: Replica, now: real)
    requires ra.file.Some? && ra.deletedAt.None? && rb.file.None? && rb.deletedAt.Some?
    ensures var f, at := ra.file.value, rb.deletedAt.value;
      var ra' := ReceiveDelete(a, ra, Deletion(Some(at), rb.vv, b.deviceId), now).replica;
      var rb' := Receive(b, rb, false, OurVersion(a, f, ra.vv)).replica;
      && SameCounts(ra'.vv, rb'.vv)
      && ((ra'.file == rb'.file == Some(f) && ra'.deletedAt == rb'.deletedAt == None)
          || (ra'.file == rb'.file == None && ra'.deletedAt == rb'.deletedAt == Some(at)))
  {
    var f, at := ra.file.value, rb.deletedAt.value;
    var deletion := Version(at, rb.vv, [], b.deviceId);
    assert PickVersion(deletion, LocalVersion(a, f, ra.vv).(hash := []))
      == PickVersion(deletion, RemoteVersion(b, OurVersion(a, f, ra.vv)));
    forall d ensures Max(Count(ra.vv, d), Count(rb.vv, d)) == Max(Count(rb.vv, d), Count(ra.vv, d)) {}
  }

  // --- A local change ---

  /** A change made here and counted in the vector, as the debounce's flush does. */
  function Edited(host: Host, r: Replica, content: Content, mtime: real): Replica {
    r.(file := Some(File(content, mtime)), vv := r.vv[host.deviceId := Count(r.vv, host.deviceId) + 1])
  }

  // --- The handlers ---

  class Device {
    const host: Host
    var file: Option<File>
    var vv: Vector
    var deletedAt: Option<real>
    var copies: set<Content>
    var pending: bool
    var queue: seq<Outgoing>

    constructor (host: Host)
      ensures this.host == host && View() == Replica(None, map[], None, {}) && !pending && queue == []
    {
      this.host := host;
      file, vv, deletedAt, copies, pending, queue := None, map[], None, {}, false, [];
    }

    ghost function View(): Replica
      reads this
    {
      Replica(file, vv, deletedAt, copies)
    }

    twostate predicate Became(o: Outcome)
      reads this
    {
      View() == o.replica && queue == old(queue) + o.out && pending == old(pending)
    }

    method ApplyFileUpdate(u: Update)
      modifies this
      ensures Became(Receive(host, old(View()), old(pending), u))
    {
      if file.None? {
        var outranks := false;
        if deletedAt.Some? {
          var verdict := PickVersion(Version(deletedAt.value, vv, [], host.deviceId), RemoteVersion(host, u));
          outranks := verdict.A?;
        }
        if outranks {
          AdoptMerged(u.vv);
          queue := queue + [SendDelete(u.from)];
        } else {
          HandleNewFileCreation(u);
          AdoptMerged(u.vv);
        }
      } else {
        HandleFileModification(u);
      }
    }

    method AdoptMerged(remote: Vector)
      modifies this`vv
      ensures vv == Merge(old(vv), remote)
    {
      vv := MergeVectors(vv, remote);
    }

    method HandleNewFileCreation(u: Update)
      modifies this
      ensures View() == old(View()).(file := Some(File(u.content, u.mtime)), deletedAt := None)
      ensures queue == old(queue) && pending == old(pending)
    {
      deletedAt := None;
      file := Some(File(u.content, u.mtime));
    }

    method HandleFileModification(u: Update)
      requires file.Some?
      modifies this
      ensures Became(Modify(host, old(View()), old(pending), u))
    {
      if file.value.content == u.content && !pending {
        AdoptMerged(u.vv);
        return;
      }
      var order := Concurrent;
      if !pending {
        order := CompareVectors(u.vv, vv);
      }
      if order == After {
        file := Some(File(u.content, u.mtime));
        AdoptMerged(u.vv);
        return;
      }
      if order == Before {
        ReplyWithOurVersion(u.from, vv);
        return;
      }
      ResolveConflict(u);
    }

    method ResolveConflict(u: Update)
      requires file.Some?
      modifies this
      ensures Became(Conflict(host, old(View()), old(pending), u))
    {
      var localVV := vv;
      if NewerVersion(RemoteVersion(host, u), LocalVersion(host, file.value, localVV)) == B {
        ReplyWithOurVersion(u.from, localVV);
        AdoptMerged(u.vv);
        return;
      }
      if host.keepCopies && (HasOwnUnseenEdit(localVV, u.vv, host.deviceId) || pending) {
        copies := copies + {file.value.content};
      }
      file := Some(File(u.content, u.mtime));
      AdoptMerged(u.vv);
    }

    method ReplyWithOurVersion(peer: Name, vector: Vector)
      requires file.Some?
      modifies this`queue
      ensures queue == old(queue) + [SendFile(peer, OurVersion(host, file.value, vector))]
    {
      queue := queue + [SendFile(peer, Update(file.value.content, file.value.mtime, vector, host.deviceId))];
    }

    method ApplyFileDelete(d: Deletion, now: real)
      modifies this
      ensures Became(ReceiveDelete(host, old(View()), d, now))
    {
      var localVV := vv;
      if file.None? {
        AdoptMerged(d.vv);
        if deletedAt.None? {
          deletedAt := Some(if d.at.Some? then d.at.value else now);
        }
        return;
      }
      var order := CompareVectors(d.vv, localVV);
      var legacy := d.at.None? && order != Before;
      if !legacy && PickVersion(DeletionVersion(d), Version(file.value.mtime, localVV, [], host.deviceId)) == B {
        ReplyWithOurVersion(d.from, localVV);
        AdoptMerged(d.vv);
        return;
      }
      file := None;
      AdoptMerged(d.vv);
      deletedAt := Some(if d.at.Some? then d.at.value else now);
    }

    method RecordLocalEdit(content: Content, mtime: real)
      modifies this
      ensures View() == Edited(host, old(View()), content, mtime)
      ensures queue == old(queue) && pending == old(pending)
    {
      file := Some(File(content, mtime));
      vv := vv[host.deviceId := Count(vv, host.deviceId) + 1];
    }
  }
}
