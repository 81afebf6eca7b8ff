/**
 One device tells another what it has of a path, a file or a deletion, and the other answers if it holds to
 its own. Afterwards both have the same file, or neither has one: whatever either had, and whether or not
 either had seen anything of the other.
 */
module RoundTrips {
  import opened Basics
  import opened Names
  import opened Versions
  import opened VersionOrder
  import opened Replicas

  /** What a device says of a path: its file, or when that was deleted. */
  datatype Word = Here(update: Update) | Gone(deletion: Deletion)

  function WordOf(host: Host, r: Replica): Word {
    if r.file.Some? then Here(OurVersion(host, r.file.value, r.vv))
      else Gone(Deletion(r.deletedAt, r.vv, host.deviceId))
  }

  function Hear(host: Host, r: Replica, w: Word, now: real): Outcome {
    match w
    case Here(u) => Receive(host, r, false, u)
    case Gone(d) => ReceiveDelete(host, r, d, now)
  }

  /** What reaches `to` of what `from` has to send: a version as it was when it was answered, a deletion as it
      is now. */
  function Answer(from: Host, r: Replica, out: seq<Outgoing>, to: Name): Option<Word> {
    if out == [] then None
    else match out[0]
      case SendFile(peer, u) => if peer == to then Some(Here(u)) else None
      case SendDelete(peer) => if peer == to then Some(Gone(Deletion(r.deletedAt, r.vv, from.deviceId))) else None
  }

  /** `b` says what it has, `a` hears it, and `b` hears the answer: what each has then. */
  function RoundTrip(a: Host, b: Host, ra: Replica, rb: Replica, now: real): (Replica, Replica) {
    var o := Hear(a, ra, WordOf(b, rb), now);
    var answer := Answer(a, o.replica, o.out, b.deviceId);
    (o.replica, if answer.None? then rb else Hear(b, rb, answer.value, now).replica)
  }

  /** The same words in the file on both, or no file on either. */
  predicate SameThere(r: Replica, q: Replica) {
    if r.file.Some? then q.file.Some? && r.file.value.content == q.file.value.content else q.file.None?
  }

  /** Two devices with names of their own, that hash alike. */
  ghost predicate Apart(a: Host, b: Host) {
    a.deviceId != [] && b.deviceId != [] && a.deviceId != b.deviceId && a.hash == b.hash
  }

  lemma FilesMeet(a: Host, b: Host, ra: Replica, rb: Replica, now: real)
    requires Apart(a, b) && ra.file.Some? && rb.file.Some?
    ensures var t := RoundTrip(a, b, ra, rb, now);
      && SameThere(t.0, t.1) && t.0.file in {ra.file, rb.file} && t.1.file in {ra.file, rb.file}
  {
    var f, g := ra.file.value, rb.file.value;
    OrderMeaning(rb.vv, ra.vv);
    OrderMeaning(ra.vv, rb.vv);
    NamedDevicesPickAlike(LocalVersion(a, f, ra.vv), LocalVersion(b, g, rb.vv));
    hide NewerVersion, OrderOf, Merge;
  }

  /** A deletion that `a` holds to is told with what `a` has heard by then, and `b` gives in. */
  lemma DeletionTold(a: Host, b: Host, ra: Replica, rb: Replica, now: real)
    requires Apart(a, b) && ra.file.None? && ra.deletedAt.Some? && rb.file.Some?
    requires DeletionOutranks(a, ra, OurVersion(b, rb.file.value, rb.vv))
    ensures ReceiveDelete(b, rb, Deletion(ra.deletedAt, Merge(ra.vv, rb.vv), a.deviceId), now).replica.file.None?
  {
    var g, merged := rb.file.value, Merge(ra.vv, rb.vv);
    OrderMeaning(ra.vv, rb.vv);
    OrderMeaning(merged, rb.vv);
    MergeIsLeastUpperBound(ra.vv, rb.vv, rb.vv);
    if SameCounts(merged, rb.vv) {
      assert SameCounts(ra.vv, rb.vv);
      UnseenEditsShape(ra.vv, rb.vv);
      UnseenEditsShape(rb.vv, ra.vv);
      UnseenEditsShape(merged, rb.vv);
      UnseenEditsShape(rb.vv, merged);
      hide UnseenEdits, Merge, OrderOf;
    }
  }

  lemma FileMeetsDeletion(a: Host, b: Host, ra: Replica, rb: Replica, now: real)
    requires Apart(a, b) && ra.file.None? && rb.file.Some?
    ensures var t := RoundTrip(a, b, ra, rb, now);
      && SameThere(t.0, t.1) && (t.0.file.Some? ==> t.0.file == t.1.file == rb.file)
      && (t.0.file.None? ==> t.0.deletedAt == t.1.deletedAt == ra.deletedAt)
  {
    if ra.deletedAt.Some? && DeletionOutranks(a, ra, OurVersion(b, rb.file.value, rb.vv)) {
      DeletionTold(a, b, ra, rb, now);
    }
    hide PickVersion, FileOutranks, Merge;
  }

  lemma DeletionMeetsFile(a: Host, b: Host, ra: Replica, rb: Replica, now: real)
    requires Apart(a, b) && ra.file.Some? && rb.file.None? && rb.deletedAt.Some?
    ensures var t := RoundTrip(a, b, ra, rb, now);
      && SameThere(t.0, t.1) && (t.0.file.Some? ==> t.0.file == t.1.file == ra.file)
      && (t.0.file.None? ==> t.0.deletedAt == t.1.deletedAt == rb.deletedAt)
  {
    var f := ra.file.value;
    var deletion := Version(rb.deletedAt.value, rb.vv, [], b.deviceId);
    assert PickVersion(deletion, LocalVersion(a, f, ra.vv).(hash := []))
      == PickVersion(deletion, RemoteVersion(b, OurVersion(a, f, ra.vv)));
    hide PickVersion, Merge;
  }

  /** Main step: after one word and its answer both have the same file, one that one of them had, or none. */
  lemma RoundTripAgrees(a: Host, b: Host, ra: Replica, rb: Replica, now: real)
    requires Apart(a, b) && (rb.file.None? ==> rb.deletedAt.Some?)
    ensures var t := RoundTrip(a, b, ra, rb, now);
      && SameThere(t.0, t.1) && t.0.file in {ra.file, rb.file, None}
      && (t.0.file.None? ==> t.0.deletedAt.Some? && t.1.deletedAt.Some?)
  {
    hide RoundTrip;
    if ra.file.Some? && rb.file.Some? {
      FilesMeet(a, b, ra, rb, now);
    } else if rb.file.Some? {
      FileMeetsDeletion(a, b, ra, rb, now);
      StaysDeleted(a, b, ra, rb, now);
    } else if ra.file.Some? {
      DeletionMeetsFile(a, b, ra, rb, now);
    } else {
      DeletionsMeet(a, b, ra, rb, now);
    }
  }

  lemma StaysDeleted(a: Host, b: Host, ra: Replica, rb: Replica, now: real)
    requires Apart(a, b) && ra.file.None? && rb.file.Some?
    ensures RoundTrip(a, b, ra, rb, now).0.file.None? ==> ra.deletedAt.Some?
  {
    hide PickVersion, Merge;
  }

  /** Deleted on both: each has heard of the other's deletion, and keeps the time it had, if it had one. */
  lemma DeletionsMeet(a: Host, b: Host, ra: Replica, rb: Replica, now: real)
    requires ra.file.None? && rb.file.None? && rb.deletedAt.Some?
    ensures var t := RoundTrip(a, b, ra, rb, now);
      && t.0.file.None? && t.1 == rb && Includes(t.0.vv, rb.vv) && Includes(t.0.vv, ra.vv)
      && t.0.deletedAt == if ra.deletedAt.Some? then ra.deletedAt else rb.deletedAt
  {
    MergeIsLeastUpperBound(ra.vv, rb.vv, ra.vv);
  }

  /** A deletion heard a second time changes nothing more, and nothing is said to it, once the file is gone. */
  lemma DeletionHeardTwice(host: Host, r: Replica, d: Deletion, now: real, later: real)
    requires ReceiveDelete(host, r, d, now).replica.file.None?
    ensures var once := ReceiveDelete(host, r, d, now).replica;
      var twice := ReceiveDelete(host, once, d, later);
      && twice.out == [] && twice.replica.(vv := once.vv) == once && SameCounts(twice.replica.vv, once.vv)
  {
    hide PickVersion;
  }

  /** A deletion that does not say when it was made takes the file, unless the file counts all it counts and more. */
  lemma UndatedDeletion(host: Host, r: Replica, d: Deletion, now: real)
    requires r.file.Some? && d.at.None?
    ensures var o := ReceiveDelete(host, r, d, now);
      if Includes(r.vv, d.vv) && !Includes(d.vv, r.vv) then
        o.replica.file == r.file && o.out == [SendFile(d.from, OurVersion(host, r.file.value, r.vv))]
      else o.replica.file.None? && o.replica.deletedAt == Some(now) && o.out == []
  {
    OrderMeaning(d.vv, r.vv);
    hide NewerVersion, OrderOf, Merge;
  }
}
