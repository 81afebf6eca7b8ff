/**
 One device's settings sync as the program runs it (src/core/ConfigSync.ts, 262-541): the files last
 seen and the deletions remembered, changed by scans of the disk and by the peer's messages. What a
 message does at each path is what `OnNote` says of the notes it holds for that path.
 */
module ConfigDevices {
  import opened Basics
  import opened Names
  import opened ConfigSyncs

  const MAX_MANIFEST_ENTRIES: nat := 5000

  datatype FileState = FileState(hash: Name, mtime: real, size: nat)

  /** What a scan finds at a path: nothing, something it cannot read, a file too large to sync, or a file. */
  datatype OnDisk = Absent | Unreadable | TooLarge | Found(file: FileState)

  datatype FileEntry = FileEntry(rel: Name, file: FileState)

  datatype DeletedEntry = DeletedEntry(rel: Name, at: real)

  datatype Message =
    | Manifest(files: seq<FileEntry>, deleted: seq<DeletedEntry>)
    | Request(paths: seq<Name>)
    | ConfigFile(rel: Name, file: FileState)
    | ConfigDelete(rel: Name, at: real)

  /** A message about many paths is read up to a limit. */
  function First<T>(s: seq<T>): seq<T> {
    s[..Min(|s|, MAX_MANIFEST_ENTRIES)]
  }

  // --- What a message says of one path ---

  function FilesSaid(files: seq<FileEntry>, rel: Name): seq<Note> {
    if files == [] then []
    else
      var last := files[|files| - 1];
      FilesSaid(files[..|files| - 1], rel) +
        if last.rel == rel then [Offer(Have(last.file.hash, last.file.mtime))] else []
  }

  function DeletedSaid(deleted: seq<DeletedEntry>, rel: Name): seq<Note> {
    if deleted == [] then []
    else
      var last := deleted[|deleted| - 1];
      DeletedSaid(deleted[..|deleted| - 1], rel) + if last.rel == rel then [Offer(Gone(last.at))] else []
  }

  function Asked(paths: seq<Name>, rel: Name): seq<Note> {
    if paths == [] then [] else Asked(paths[..|paths| - 1], rel) + if paths[|paths| - 1] == rel then [Ask] else []
  }

  function Said(m: Message, rel: Name): seq<Note> {
    match m
    case Manifest(files, deleted) => FilesSaid(First(files), rel) + DeletedSaid(First(deleted), rel)
    case Request(paths) => Asked(First(paths), rel)
    case ConfigFile(r, f) => if r == rel then [Note.SendFile(f.hash, f.mtime)] else []
    case ConfigDelete(r, at) => if r == rel then [Note.SendDelete(at)] else []
  }

  function AllSaid(ms: seq<Message>, rel: Name): seq<Note> {
    if ms == [] then [] else AllSaid(ms[..|ms| - 1], rel) + Said(ms[|ms| - 1], rel)
  }

  lemma FilesSaidMore(files: seq<FileEntry>, f: FileEntry, rel: Name)
    ensures FilesSaid(files + [f], rel) == FilesSaid(files, rel) +
      if f.rel == rel then [Offer(Have(f.file.hash, f.file.mtime))] else []
  {
    assert (files + [f])[..|files|] == files;
  }

  lemma DeletedSaidMore(deleted: seq<DeletedEntry>, d: DeletedEntry, rel: Name)
    ensures DeletedSaid(deleted + [d], rel) == DeletedSaid(deleted, rel) +
      if d.rel == rel then [Offer(Gone(d.at))] else []
  {
    assert (deleted + [d])[..|deleted|] == deleted;
  }

  lemma AskedMore(paths: seq<Name>, p: Name, rel: Name)
    ensures Asked(paths + [p], rel) == Asked(paths, rel) + if p == rel then [Ask] else []
  {
    assert (paths + [p])[..|paths|] == paths;
  }

  lemma SaidMore(ms: seq<Message>, m: Message, rel: Name)
    ensures AllSaid(ms + [m], rel) == AllSaid(ms, rel) + Said(m, rel)
  {
    assert (ms + [m])[..|ms|] == ms;
  }

  // --- What notes about one path do ---

  /** The notes are heard one after the other. */
  function OnNotes(e: Ends, h: Holding, notes: seq<Note>): Effect {
    if notes == [] then Effect(h, [])
    else
      var before := OnNotes(e, h, notes[..|notes| - 1]);
      var f := OnNote(e, before.holding, notes[|notes| - 1]);
      Effect(f.holding, before.replies + f.replies)
  }

  lemma OnNotesMore(e: Ends, h: Holding, notes: seq<Note>, n: Note)
    ensures var before := OnNotes(e, h, notes);
      var f := OnNote(e, before.holding, n);
      OnNotes(e, h, notes + [n]) == Effect(f.holding, before.replies + f.replies)
  {
    assert (notes + [n])[..|notes|] == notes;
  }

  lemma OneNote(e: Ends, h: Holding, n: Note)
    ensures OnNotes(e, h, [n]) == OnNote(e, h, n)
  {
    var f := OnNote(e, h, n);
    assert [n][..0] == [] && [] + f.replies == f.replies;
  }

  /** The requests among the notes, and the others. */
  function Asks(notes: seq<Note>): seq<Note> {
    if notes == [] then [] else Asks(notes[..|notes| - 1]) + if notes[|notes| - 1] == Ask then [Ask] else []
  }

  function Others(notes: seq<Note>): seq<Note> {
    if notes == [] then []
    else Others(notes[..|notes| - 1]) + if notes[|notes| - 1] == Ask then [] else [notes[|notes| - 1]]
  }

  /** A manifest is answered at once but for the files it makes one ask for: they are asked for at the end. */
  function AsksLast(notes: seq<Note>): seq<Note> {
    Others(notes) + Asks(notes)
  }

  lemma SplitMore(notes: seq<Note>, n: Note)
    ensures Asks(notes + [n]) == Asks(notes) + if n == Ask then [Ask] else []
    ensures Others(notes + [n]) == Others(notes) + if n == Ask then [] else [n]
  {
    assert (notes + [n])[..|notes|] == notes;
  }

  lemma SplitMost(notes: seq<Note>, more: seq<Note>)
    requires |more| <= 1
    ensures Asks(notes + more) == Asks(notes) + Asks(more) && Others(notes + more) == Others(notes) + Others(more)
  {
    if more == [] {
      assert notes + more == notes;
    } else {
      assert more == [more[0]];
      SplitMore(notes, more[0]);
      SplitMore([], more[0]);
      assert [] + more == more;
    }
  }

  // --- What was said in between ---

  /** Between the two states of the outbox, exactly `notes` were said of `rel`. */
  ghost predicate Added(before: seq<Message>, after: seq<Message>, rel: Name, notes: seq<Note>) {
    before <= after && AllSaid(after, rel) == AllSaid(before, rel) + notes
  }

  lemma AddedNothing(before: seq<Message>, rel: Name)
    ensures Added(before, before, rel, [])
  {}

  lemma AddedIsMore(before: seq<Message>, after: seq<Message>, rel: Name, notes: seq<Note>)
    requires Added(before, after, rel, notes)
    ensures before <= after
  {}

  lemma AddedTwice(before: seq<Message>, middle: seq<Message>, after: seq<Message>, rel: Name, first: seq<Note>,
          second: seq<Note>)
    requires Added(before, middle, rel, first) && Added(middle, after, rel, second)
    ensures Added(before, after, rel, first + second)
    ensures first == [] ==> Added(before, after, rel, second)
    ensures second == [] ==> Added(before, after, rel, first)
  {
    assert AllSaid(before, rel) + first + second == AllSaid(before, rel) + (first + second);
    assert first == [] ==> first + second == second;
    assert second == [] ==> first + second == first;
  }

  /** What a device has at a path: a file, or a deletion it remembers. */
  function HoldingAt(baseline: map<Name, FileState>, tombstones: map<Name, real>, rel: Name): Holding {
    if rel in baseline then Have(baseline[rel].hash, baseline[rel].mtime)
    else if rel in tombstones then Gone(tombstones[rel])
    else Missing
  }

  /** The listed entries are those of `all` that may be told, each once: all of them, or as many as the limit
      lets through. */
  ghost predicate TellsOf(rels: seq<Name>, all: set<Name>, accepts: Name -> bool) {
    && NoDuplicates(rels)
    && (forall i | 0 <= i < |rels| :: rels[i] in all && accepts(rels[i]))
    && |rels| <= MAX_MANIFEST_ENTRIES
    && (|rels| < MAX_MANIFEST_ENTRIES ==> forall rel | rel in all && accepts(rel) :: rel in rels)
  }

  function Rels(files: seq<FileEntry>): (r: seq<Name>)
    ensures |r| == |files| && forall i | 0 <= i < |r| :: r[i] == files[i].rel
  {
    seq(|files|, i requires 0 <= i < |files| => files[i].rel)
  }

  function DeletedRels(deleted: seq<DeletedEntry>): (r: seq<Name>)
    ensures |r| == |deleted| && forall i | 0 <= i < |r| :: r[i] == deleted[i].rel
  {
    seq(|deleted|, i requires 0 <= i < |deleted| => deleted[i].rel)
  }

  ghost predicate ListsFiles(files: seq<FileEntry>, baseline: map<Name, FileState>, accepts: Name -> bool) {
    && TellsOf(Rels(files), baseline.Keys, accepts)
    && forall i | 0 <= i < |files| :: files[i].rel in baseline && files[i].file == baseline[files[i].rel]
  }

  ghost predicate ListsDeletions(deleted: seq<DeletedEntry>, tombstones: map<Name, real>, accepts: Name -> bool) {
    && TellsOf(DeletedRels(deleted), tombstones.Keys, accepts)
    && forall i | 0 <= i < |deleted| :: deleted[i].rel in tombstones && deleted[i].at == tombstones[deleted[i].rel]
  }

  class ConfigDevice {
    const ends: Ends
    /** In scope on this device, and open to this peer. */
    const accepts: Name -> bool
    var baseline: map<Name, FileState>
    var tombstones: map<Name, real>
    var sent: seq<Message>

    ghost predicate Valid()
      reads this
    {
      baseline.Keys !! tombstones.Keys
    }

    ghost function At(rel: Name): Holding
      reads `baseline, `tombstones
    {
      HoldingAt(baseline, tombstones, rel)
    }

    constructor (ends: Ends, accepts: Name -> bool)
      ensures Valid() && this.ends == ends && this.accepts == accepts && sent == [] && forall rel :: At(rel) == Missing
    {
      this.ends, this.accepts, baseline, tombstones, sent := ends, accepts, map[], map[], [];
    }

    method Send(m: Message)
      modifies `sent
      ensures sent == old(sent) + [m]
      ensures forall rel :: Added(old(sent), sent, rel, Said(m, rel))
    {
      forall rel ensures Added(sent, sent + [m], rel, Said(m, rel)) { SaidMore(sent, m, rel); }
      sent := sent + [m];
    }

    /** A message about one path only. */
    method Tell(m: Message)
      requires m.ConfigFile? || m.ConfigDelete?
      modifies `sent
      ensures sent == old(sent) + [m]
      ensures Added(old(sent), sent, m.rel,
          if m.ConfigFile? then [Note.SendFile(m.file.hash, m.file.mtime)] else [Note.SendDelete(m.at)])
      ensures forall other | other != m.rel :: Added(old(sent), sent, other, [])
    {
      ghost var before := sent;
      Send(m);
      forall other | other != m.rel ensures Added(before, sent, other, []) { assert Said(m, other) == []; }
    }

    /** One path is asked for. */
    method AskFor(rel: Name)
      modifies `sent
      ensures Added(old(sent), sent, rel, [Ask])
      ensures forall other | other != rel :: Added(old(sent), sent, other, [])
      ensures Prompted(old(sent)) ==> Prompted(sent)
    {
      ghost var before := sent;
      var m := Request([rel]);
      RequestSpeaks(sent, [rel]);
      Send(m);
      forall other ensures Said(m, other) == if other == rel then [Ask] else [] {
        assert First([rel]) == [] + [rel];
        AskedMore([], rel, other);
      }
    }

    // --- The disk ---

    /** The scan takes a file with the time and size it was last seen with to be unchanged. */
    ghost predicate Untouched(rel: Name, disk: OnDisk)
      reads `baseline
    {
      disk.Found? && rel in baseline && baseline[rel].mtime == disk.file.mtime && baseline[rel].size == disk.file.size
    }

    /** One path is compared with the disk: what is found there, or nothing, is remembered; a change is told
        to the peer. */
    method Refresh(rel: Name, disk: OnDisk, now: real, announce: bool)
      requires Valid()
      modifies this
      ensures Valid() && forall other | other != rel :: At(other) == old(At(other)) && Added(old(sent), sent, other, [])
      ensures match disk
        case Unreadable => At(rel) == old(At(rel))
        case TooLarge => At(rel) == if old(At(rel)).Have? then Missing else old(At(rel))
        case Absent => At(rel) == if old(At(rel)).Have? then Gone(now) else old(At(rel))
        case Found(f) => At(rel) == if old(Untouched(rel, disk)) then old(At(rel)) else Have(f.hash, f.mtime)
      ensures Added(old(sent), sent, rel,
        if !announce || !accepts(rel) || old(Untouched(rel, disk)) then []
        else if disk.Found? && !(old(At(rel)).Have? && old(At(rel)).hash == disk.file.hash)
          then [Note.SendFile(disk.file.hash, disk.file.mtime)]
        else if disk.Absent? && old(At(rel)).Have? then [Note.SendDelete(now)]
        else [])
    {
      hide Added;
      forall r ensures Added(sent, sent, r, []) { AddedNothing(sent, r); }
      if disk.Unreadable? { return; }
      var known := rel in baseline;
      if disk.Absent? {
        if !known { return; }
        baseline := baseline - {rel};
        tombstones := tombstones[rel := now];
        if announce && accepts(rel) { Tell(ConfigDelete(rel, now)); }
        return;
      }
      if disk.TooLarge? {
        baseline := baseline - {rel};
        return;
      }
      if known && baseline[rel].mtime == disk.file.mtime && baseline[rel].size == disk.file.size { return; }
      var changed := !known || baseline[rel].hash != disk.file.hash;
      baseline := baseline[rel := disk.file];
      tombstones := tombstones - {rel};
      if announce && changed && accepts(rel) { Tell(ConfigFile(rel, disk.file)); }
    }

    // --- A file or a deletion from the peer ---

    /** The peer's file; content that is not what its hash says is asked for again. */
    method ApplyFile(rel: Name, file: FileState, intact: bool)
      requires Valid()
      modifies this
      ensures Valid() && forall other | other != rel :: At(other) == old(At(other)) && Added(old(sent), sent, other, [])
      ensures var f := OnFile(ends, old(At(rel)), file.hash, file.mtime);
        if !accepts(rel) then At(rel) == old(At(rel)) && Added(old(sent), sent, rel, [])
        else if !intact then At(rel) == old(At(rel)) && Added(old(sent), sent, rel, [Ask])
        else At(rel) == f.holding && Added(old(sent), sent, rel, f.replies)
      ensures intact && Plain(old(sent)) ==> Plain(sent)
      ensures Prompted(old(sent)) ==> Prompted(sent)
    {
      hide RemoteWins, Added, AllSaid, Plain, Prompted;
      forall r ensures Added(sent, sent, r, []) { AddedNothing(sent, r); }
      if !accepts(rel) { return; }
      if !intact {
        AskFor(rel);
        return;
      }
      if rel in baseline {
        var local := baseline[rel];
        if local.hash == file.hash {
          if file.mtime > local.mtime { baseline := baseline[rel := local.(mtime := file.mtime)]; }
          return;
        }
        if !RemoteWins(ends, file.mtime, file.hash, local.mtime, local.hash) {
          PlainMore(sent, ConfigFile(rel, local));
          Tell(ConfigFile(rel, local));
          return;
        }
      } else if rel in tombstones {
        var deletedAt := tombstones[rel];
        if !RemoteWins(ends, file.mtime, file.hash, deletedAt, []) {
          PlainMore(sent, ConfigDelete(rel, deletedAt));
          Tell(ConfigDelete(rel, deletedAt));
          return;
        }
      }
      baseline := baseline[rel := file];
      tombstones := tombstones - {rel};
    }

    method ApplyDelete(rel: Name, at: real)
      requires Valid()
      modifies this
      ensures Valid() && forall other | other != rel :: At(other) == old(At(other)) && Added(old(sent), sent, other, [])
      ensures var f := OnDelete(ends, old(At(rel)), at);
        if accepts(rel) then At(rel) == f.holding && Added(old(sent), sent, rel, f.replies)
        else At(rel) == old(At(rel)) && Added(old(sent), sent, rel, [])
      ensures Plain(old(sent)) ==> Plain(sent)
      ensures Prompted(old(sent)) ==> Prompted(sent)
    {
      hide RemoteWins, Added, AllSaid, Plain, Prompted;
      forall r ensures Added(sent, sent, r, []) { AddedNothing(sent, r); }
      if !accepts(rel) { return; }
      if rel !in baseline {
        if rel !in tombstones || tombstones[rel] < at { tombstones := tombstones[rel := at]; }
        return;
      }
      var local := baseline[rel];
      if !RemoteWins(ends, at, [], local.mtime, local.hash) {
        PlainMore(sent, ConfigFile(rel, local));
        Tell(ConfigFile(rel, local));
        return;
      }
      baseline := baseline - {rel};
      tombstones := tombstones[rel := at];
    }

    // --- Requests and manifests ---

    /** The files the peer asked for, of those this device has and may send, as often as they were asked for. */
    method HandleRequest(paths: seq<Name>)
      requires Valid()
      modifies `sent
      ensures forall rel ::
        Added(old(sent), sent, rel,
          if accepts(rel) then OnNotes(ends, At(rel), Asked(First(paths), rel)).replies else [])
      ensures Plain(old(sent)) ==> Plain(sent)
      ensures Prompted(old(sent)) ==> Prompted(sent)
    {
      hide Added, Plain, Prompted, Asked, OnNotes;
      var read := First(paths);
      forall rel ensures Added(sent, sent, rel,
          if accepts(rel) then OnNotes(ends, At(rel), Asked([], rel)).replies else []) {
        NothingAsked(ends, At(rel), sent, rel);
      }
      for i := 0 to |read|
        invariant forall rel ::
          Added(old(sent), sent, rel,
            if accepts(rel) then OnNotes(ends, At(rel), Asked(read[..i], rel)).replies else [])
        invariant Plain(old(sent)) ==> Plain(sent)
        invariant Prompted(old(sent)) ==> Prompted(sent)
      {
        var rel := read[i];
        ghost var before := sent;
        assert read[..i + 1] == read[..i] + [rel];
        forall other ensures Added(sent, sent, other, []) { AddedNothing(sent, other); }
        if accepts(rel) && rel in baseline {
          PlainMore(sent, ConfigFile(rel, baseline[rel]));
          Tell(ConfigFile(rel, baseline[rel]));
        }
        forall other
          ensures Added(old(sent), sent, other,
              if accepts(other) then OnNotes(ends, At(other), Asked(read[..i + 1], other)).replies else [])
        {
          OneMoreAsked(ends, At(other), read[..i], rel, other);
          AddedTwice(old(sent), before, sent, other,
            if accepts(other) then OnNotes(ends, At(other), Asked(read[..i], other)).replies else [],
            if other == rel && accepts(rel) && At(rel).Have? then [Note.SendFile(At(rel).hash, At(rel).mtime)] else []);
        }
      }
      assert read[..|read|] == read;
    }

    /** What this device has of what it may tell, up to a limit. */
    method SendManifest() returns (files: seq<FileEntry>, deleted: seq<DeletedEntry>)
      requires Valid()
      modifies `sent
      ensures sent == old(sent) + [Manifest(files, deleted)]
      ensures ListsFiles(files, baseline, accepts)
      ensures ListsDeletions(deleted, tombstones, accepts)
      ensures Plain(old(sent)) ==> Plain(sent)
      ensures old(sent) == [] ==> Prompted(sent)
    {
      files := ListFiles();
      deleted := ListDeletions();
      PlainManifest(sent, files, deleted, baseline, tombstones, accepts);
      hide Plain, TellsOf;
      Send(Manifest(files, deleted));
    }

    method ListFiles() returns (files: seq<FileEntry>)
      ensures ListsFiles(files, baseline, accepts)
    {
      files := [];
      var left := baseline.Keys;
      while left != {} && |files| < MAX_MANIFEST_ENTRIES
        invariant left <= baseline.Keys && |files| <= MAX_MANIFEST_ENTRIES
        invariant forall i, j | 0 <= i < j < |files| :: files[i].rel != files[j].rel
        invariant forall i | 0 <= i < |files| ::
          files[i].rel in baseline && files[i].rel !in left && accepts(files[i].rel)
            && files[i].file == baseline[files[i].rel]
        invariant forall rel | rel in baseline && rel !in left && accepts(rel) :: rel in Rels(files)
        decreases left
      {
        var rel :| rel in left;
        left := left - {rel};
        if accepts(rel) {
          ghost var before := files;
          files := files + [FileEntry(rel, baseline[rel])];
          assert Rels(files) == Rels(before) + [rel];
        }
      }
    }

    method ListDeletions() returns (deleted: seq<DeletedEntry>)
      ensures ListsDeletions(deleted, tombstones, accepts)
    {
      deleted := [];
      var left := tombstones.Keys;
      while left != {} && |deleted| < MAX_MANIFEST_ENTRIES
        invariant left <= tombstones.Keys && |deleted| <= MAX_MANIFEST_ENTRIES
        invariant forall i, j | 0 <= i < j < |deleted| :: deleted[i].rel != deleted[j].rel
        invariant forall i | 0 <= i < |deleted| ::
          deleted[i].rel in tombstones && deleted[i].rel !in left && accepts(deleted[i].rel)
            && deleted[i].at == tombstones[deleted[i].rel]
        invariant forall rel | rel in tombstones && rel !in left && accepts(rel) :: rel in DeletedRels(deleted)
        decreases left
      {
        var rel :| rel in left;
        left := left - {rel};
        if accepts(rel) {
          ghost var before := deleted;
          deleted := deleted + [DeletedEntry(rel, tombstones[rel])];
          assert DeletedRels(deleted) == DeletedRels(before) + [rel];
        }
      }
    }

    /**
     The peer's manifest, whatever it lists and however often: say at once what is newer here, take the
     deletions in their order, and at the end ask for what is newer there.
     */
    method ApplyManifest(files: seq<FileEntry>, deleted: seq<DeletedEntry>)
      requires Valid()
      modifies this
      ensures Valid()
      ensures forall rel :: var f := OnNotes(ends, old(At(rel)), Said(Manifest(files, deleted), rel));
        if accepts(rel) then At(rel) == f.holding && Added(old(sent), sent, rel, AsksLast(f.replies))
        else At(rel) == old(At(rel)) && Added(old(sent), sent, rel, [])
      ensures Plain(old(sent)) && NoDuplicates(Rels(files)) ==> Plain(sent)
      ensures Prompted(old(sent)) ==> Prompted(sent)
    {
      hide OnNotes, FilesSaid, DeletedSaid, At, Added, Plain, Prompted, Asks, Others, WantedOf;
      if NoDuplicates(Rels(files)) { assert NoDuplicates(Rels(First(files))); }
      var wanted := CompareFiles(First(files));
      ghost var middle := sent;
      ApplyDeletions(First(deleted));
      ghost var late := sent;
      assert |wanted| <= MAX_MANIFEST_ENTRIES ==> First(wanted) == wanted;
      if wanted != [] {
        if Plain(sent) && WantedOf(wanted, First(files)) { PlainRequest(sent, wanted, First(files)); }
        RequestSpeaks(sent, wanted);
        Send(Request(wanted));
        forall rel ensures Added(late, sent, rel, Asked(wanted, rel)) {
          assert Said(Request(wanted), rel) == Asked(wanted, rel);
        }
      } else {
        forall rel ensures Added(late, sent, rel, Asked(wanted, rel)) { AddedNothing(late, rel); }
      }
      forall rel
        ensures var f := OnNotes(ends, old(At(rel)), Said(Manifest(files, deleted), rel));
          if accepts(rel) then At(rel) == f.holding && Added(old(sent), sent, rel, AsksLast(f.replies))
          else At(rel) == old(At(rel)) && Added(old(sent), sent, rel, [])
      {
        ManifestIs(ends, old(At(rel)), First(files), First(deleted), rel);
        var one := if accepts(rel) then Others(OnNotes(ends, old(At(rel)), FilesSaid(First(files), rel)).replies)
          else [];
        var two := if accepts(rel) then OnNotes(ends, old(At(rel)), DeletedSaid(First(deleted), rel)).replies else [];
        AddedTwice(old(sent), middle, late, rel, one, two);
        AddedTwice(old(sent), late, sent, rel, one + two, Asked(wanted, rel));
      }
    }

    /** A message from the peer; a file comes as it was sent. */
    method Handle(m: Message)
      requires Valid()
      modifies this
      ensures Valid() && old(sent) <= sent && (Plain(old(sent)) && PlainOne(m) ==> Plain(sent))
      ensures Prompted(old(sent)) ==> Prompted(sent)
      ensures forall rel | !accepts(rel) :: At(rel) == old(At(rel)) && Added(old(sent), sent, rel, [])
      ensures forall rel | PlainOne(m) && accepts(rel) ::
        if Said(m, rel) == [] then At(rel) == old(At(rel)) && Added(old(sent), sent, rel, [])
        else
          var f := OnNote(ends, old(At(rel)), Said(m, rel)[0]);
          At(rel) == f.holding && Added(old(sent), sent, rel, f.replies)
    {
      hide At, Added, Plain, Prompted, OnNote, OnNotes, Asked, FilesSaid, DeletedSaid, Asks, Others;
      match m
      case Manifest(files, deleted) =>
        forall rel ensures PlainOne(m) ==> AsHeard(ends, At(rel), Said(m, rel)) {
          if PlainOne(m) { HeardAtOnce(ends, At(rel), Said(m, rel)); }
        }
        ghost var replies := if accepts([]) then AsksLast(OnNotes(ends, At([]), Said(m, [])).replies) else [];
        ApplyManifest(files, deleted);
        AddedIsMore(old(sent), sent, [], replies);
      case Request(paths) =>
        forall rel ensures PlainOne(m) ==> AsHeard(ends, At(rel), Said(m, rel)) {
          if PlainOne(m) { HeardAtOnce(ends, At(rel), Said(m, rel)); }
        }
        forall rel ensures OnNotes(ends, At(rel), Said(m, rel)).holding == At(rel) {
          AskingKeeps(ends, At(rel), First(paths), rel);
        }
        ghost var replies := if accepts([]) then OnNotes(ends, At([]), Said(m, [])).replies else [];
        HandleRequest(paths);
        AddedIsMore(old(sent), sent, [], replies);
      case ConfigFile(rel, file) =>
        HearFile(ends, At(rel), file.hash, file.mtime);
        ghost var replies := if accepts(rel) then OnFile(ends, At(rel), file.hash, file.mtime).replies else [];
        ApplyFile(rel, file, true);
        AddedIsMore(old(sent), sent, rel, replies);
      case ConfigDelete(rel, at) =>
        HearDelete(ends, At(rel), at);
        ghost var replies := if accepts(rel) then OnDelete(ends, At(rel), at).replies else [];
        ApplyDelete(rel, at);
        AddedIsMore(old(sent), sent, rel, replies);
    }

    method ApplyDeletions(deleted: seq<DeletedEntry>)
      requires Valid()
      modifies this
      ensures Valid()
      ensures forall rel :: var f := OnNotes(ends, old(At(rel)), DeletedSaid(deleted, rel));
        if accepts(rel) then At(rel) == f.holding && Added(old(sent), sent, rel, f.replies)
        else At(rel) == old(At(rel)) && Added(old(sent), sent, rel, [])
      ensures Plain(old(sent)) ==> Plain(sent)
      ensures Prompted(old(sent)) ==> Prompted(sent)
    {
      hide OnNotes, DeletedSaid, OnDelete, At, Added, Plain, Prompted;
      forall rel
        ensures OnNotes(ends, At(rel), DeletedSaid([], rel)) == Effect(At(rel), []) && Added(sent, sent, rel, [])
      {
        NothingSaid(ends, At(rel), sent, rel);
      }
      for i := 0 to |deleted|
        invariant Valid() && (Plain(old(sent)) ==> Plain(sent)) && (Prompted(old(sent)) ==> Prompted(sent))
        invariant forall rel :: var f := OnNotes(ends, old(At(rel)), DeletedSaid(deleted[..i], rel));
          if accepts(rel) then At(rel) == f.holding && Added(old(sent), sent, rel, f.replies)
          else At(rel) == old(At(rel)) && Added(old(sent), sent, rel, [])
      {
        var d := deleted[i];
        ghost var before := sent;
        assert deleted[..i + 1] == deleted[..i] + [d];
        ghost var replies := OnDelete(ends, At(d.rel), d.at).replies;
        ApplyDelete(d.rel, d.at);
        forall rel
          ensures var f := OnNotes(ends, old(At(rel)), DeletedSaid(deleted[..i + 1], rel));
            if accepts(rel) then At(rel) == f.holding && Added(old(sent), sent, rel, f.replies)
            else At(rel) == old(At(rel)) && Added(old(sent), sent, rel, [])
        {
          OneMoreDeleted(ends, old(At(rel)), deleted[..i], d, rel);
          AddedTwice(old(sent), before, sent, rel,
            if accepts(rel) then OnNotes(ends, old(At(rel)), DeletedSaid(deleted[..i], rel)).replies else [],
            if rel == d.rel && accepts(rel) then replies else []);
        }
      }
      assert deleted[..|deleted|] == deleted;
    }

    /** The listed files: which to ask for; those deleted here since are answered with the deletion. */
    method CompareFiles(files: seq<FileEntry>) returns (wanted: seq<Name>)
      requires Valid()
      modifies `sent
      ensures forall rel :: var f := OnNotes(ends, At(rel), FilesSaid(files, rel));
        Asked(wanted, rel) == (if accepts(rel) then Asks(f.replies) else [])
        && Added(old(sent), sent, rel, if accepts(rel) then Others(f.replies) else [])
      ensures |wanted| <= |files|
      ensures NoDuplicates(Rels(files)) ==> WantedOf(wanted, files)
      ensures Plain(old(sent)) ==> Plain(sent)
      ensures Prompted(old(sent)) ==> Prompted(sent)
    {
      hide Compared, Plain, Prompted, WantedOf, OnNotes, FilesSaid, Asked, Asks, Others, At, Added;
      wanted := [];
      NoneWanted();
      NothingCompared();
      for i := 0 to |files|
        invariant Compared(old(sent), files[..i], wanted)
        invariant |wanted| <= i && (NoDuplicates(Rels(files)) ==> WantedOf(wanted, files[..i]))
        invariant Plain(old(sent)) ==> Plain(sent)
        invariant Prompted(old(sent)) ==> Prompted(sent)
      {
        assert files[..i + 1] == files[..i] + [files[i]];
        var ask := CompareNext(old(sent), files[..i], files[i], wanted);
        if NoDuplicates(Rels(files)) { OneMoreWanted(wanted, files, i, ask); }
        if ask { wanted := wanted + [files[i].rel]; }
      }
      assert files[..|files|] == files;
      ComparedIs(old(sent), files, wanted);
    }

    /** Since the outbox was `begun`, the entries `read` were compared, and `wanted` are to be asked for. */
    ghost predicate Compared(begun: seq<Message>, read: seq<FileEntry>, wanted: seq<Name>)
      reads this
    {
      forall rel :: var f := OnNotes(ends, At(rel), FilesSaid(read, rel));
        Asked(wanted, rel) == (if accepts(rel) then Asks(f.replies) else [])
        && Added(begun, sent, rel, if accepts(rel) then Others(f.replies) else [])
    }

    lemma ComparedIs(begun: seq<Message>, read: seq<FileEntry>, wanted: seq<Name>)
      requires Compared(begun, read, wanted)
      ensures forall rel :: var f := OnNotes(ends, At(rel), FilesSaid(read, rel));
        Asked(wanted, rel) == (if accepts(rel) then Asks(f.replies) else [])
        && Added(begun, sent, rel, if accepts(rel) then Others(f.replies) else [])
    {
      hide OnNotes, FilesSaid, Asked, Asks, Others, At, Added;
    }

    lemma NothingCompared()
      ensures Compared(sent, [], [])
    {
      hide OnNotes, FilesSaid, Asked, Asks, Others, At, Added;
      forall rel
        ensures var f := OnNotes(ends, At(rel), FilesSaid([], rel));
          Asks(f.replies) == Asked([], rel) == [] && Added(sent, sent, rel, Others(f.replies))
            && Added(sent, sent, rel, [])
      {
        NothingOffered(ends, At(rel), sent, rel);
      }
    }

    method CompareNext(ghost begun: seq<Message>, ghost read: seq<FileEntry>, f: FileEntry,
            ghost wanted: seq<Name>) returns (ask: bool)
      requires Valid() && Compared(begun, read, wanted)
      modifies `sent
      ensures Compared(begun, read + [f], if ask then wanted + [f.rel] else wanted)
      ensures Plain(old(sent)) ==> Plain(sent)
      ensures Prompted(old(sent)) ==> Prompted(sent)
    {
      hide OnNotes, FilesSaid, Asked, Asks, Others, At, Added, Plain, Prompted, OnFileOffer;
      ghost var before, replies := sent, OnFileOffer(ends, At(f.rel), f.file).replies;
      forall rel ensures Added(sent, sent, rel, []) { AddedNothing(sent, rel); }
      ask := false;
      if accepts(f.rel) { ask := CompareFile(f.rel, f.file); }
      ghost var more := if ask then wanted + [f.rel] else wanted;
      forall rel
        ensures var g := OnNotes(ends, At(rel), FilesSaid(read + [f], rel));
          Asked(more, rel) == (if accepts(rel) then Asks(g.replies) else [])
          && Added(begun, sent, rel, if accepts(rel) then Others(g.replies) else [])
      {
        OneMoreOffered(ends, At(rel), read, f, rel);
        AskedMore(wanted, f.rel, rel);
        AddedTwice(begun, before, sent, rel,
          if accepts(rel) then Others(OnNotes(ends, At(rel), FilesSaid(read, rel)).replies) else [],
          if rel == f.rel && accepts(rel) then Others(replies) else []);
        NothingMore(OnNotes(ends, At(rel), FilesSaid(read, rel)).replies);
      }
    }

    method CompareFile(rel: Name, entry: FileState) returns (ask: bool)
      requires Valid()
      modifies `sent
      ensures Asks(OnFileOffer(ends, At(rel), entry).replies) == if ask then [Ask] else []
      ensures Added(old(sent), sent, rel, Others(OnFileOffer(ends, At(rel), entry).replies))
      ensures forall other | other != rel :: Added(old(sent), sent, other, [])
      ensures Plain(old(sent)) ==> Plain(sent)
      ensures Prompted(old(sent)) ==> Prompted(sent)
    {
      hide RemoteWins, Added, AllSaid, Plain, Prompted;
      forall r ensures Added(sent, sent, r, []) { AddedNothing(sent, r); }
      OfferAnswered(ends, At(rel), entry);
      hide Asks, Others;
      if rel in baseline {
        var local := baseline[rel];
        ask := local.hash != entry.hash && RemoteWins(ends, entry.mtime, entry.hash, local.mtime, local.hash);
        return;
      }
      if rel in tombstones && !RemoteWins(ends, entry.mtime, entry.hash, tombstones[rel], []) {
        PlainMore(sent, ConfigDelete(rel, tombstones[rel]));
        Tell(ConfigDelete(rel, tombstones[rel]));
        return false;
      }
      ask := true;
    }
  }

  // --- One entry after the other ---

  function OnFileOffer(e: Ends, h: Holding, f: FileState): Effect {
    OnOffer(e, h, Have(f.hash, f.mtime))
  }

  lemma NothingMore(notes: seq<Note>)
    ensures Asks(notes + []) == Asks(notes) == Asks(notes) + Asks([])
      && Others(notes + []) == Others(notes) == Others(notes) + Others([])
  {
    SplitMost(notes, []);
    assert notes + [] == notes;
  }

  lemma OfferAnswered(e: Ends, h: Holding, f: FileState)
    ensures var replies := OnFileOffer(e, h, f).replies;
      |replies| <= 1 && Asks(replies) == (if replies == [Ask] then [Ask] else []) && Others(replies) ==
        if replies == [Ask] then [] else replies
  {
    OneReply(e, h, Have(f.hash, f.mtime));
    hide OnOffer, Asks, Others;
    SplitOne(OnFileOffer(e, h, f).replies);
  }

  lemma OneReply(e: Ends, h: Holding, theirs: Holding)
    ensures |OnOffer(e, h, theirs).replies| <= 1
    ensures theirs.Gone? ==> OnOffer(e, h, theirs).replies != [Ask]
  {
    hide RemoteWins;
  }

  lemma SplitOne(notes: seq<Note>)
    requires |notes| <= 1
    ensures Asks(notes) == if notes == [Ask] then [Ask] else []
    ensures Others(notes) == if notes == [Ask] then [] else notes
  {
    if notes != [] {
      SplitMore([], notes[0]);
      assert notes == [] + [notes[0]];
    }
  }

  /** One note at most is heard as `OnNote` says, and answered in that order. */
  ghost predicate AsHeard(e: Ends, h: Holding, notes: seq<Note>) {
    var f := OnNotes(e, h, notes);
    && AsksLast(f.replies) == f.replies
    && f == if notes == [] then Effect(h, []) else OnNote(e, h, notes[0])
  }

  lemma HeardAtOnce(e: Ends, h: Holding, notes: seq<Note>)
    requires |notes| <= 1
    ensures AsHeard(e, h, notes)
  {
    if notes == [] {
      SplitOne([]);
    } else {
      assert notes == [notes[0]];
      OneNote(e, h, notes[0]);
      AnsweredOnce(e, h, notes[0]);
      SplitOne(OnNote(e, h, notes[0]).replies);
    }
  }

  lemma AnsweredOnce(e: Ends, h: Holding, n: Note)
    ensures |OnNote(e, h, n).replies| <= 1
  {
    hide RemoteWins;
  }

  lemma HearFile(e: Ends, h: Holding, hash: Name, mtime: real)
    ensures OnNote(e, h, Note.SendFile(hash, mtime)) == OnFile(e, h, hash, mtime)
  {
    hide RemoteWins;
  }

  lemma HearDelete(e: Ends, h: Holding, at: real)
    ensures OnNote(e, h, Note.SendDelete(at)) == OnDelete(e, h, at)
  {
    hide RemoteWins;
  }

  lemma NothingAsked(e: Ends, h: Holding, ms: seq<Message>, rel: Name)
    ensures Asked([], rel) == [] && OnNotes(e, h, []) == Effect(h, []) && Added(ms, ms, rel, [])
  {}

  lemma NothingSaid(e: Ends, h: Holding, ms: seq<Message>, rel: Name)
    ensures OnNotes(e, h, DeletedSaid([], rel)) == Effect(h, []) && Added(ms, ms, rel, [])
  {}

  lemma NothingOffered(e: Ends, h: Holding, ms: seq<Message>, rel: Name)
    ensures var f := OnNotes(e, h, FilesSaid([], rel));
      Asks(f.replies) == Asked([], rel) == [] && Added(ms, ms, rel, Others(f.replies)) && Added(ms, ms, rel, [])
  {}

  /** Requests change nothing, and each is answered. */
  lemma {:induction false} AskingKeeps(e: Ends, h: Holding, paths: seq<Name>, rel: Name)
    ensures OnNotes(e, h, Asked(paths, rel)).holding == h
  {
    if paths != [] {
      var rest := paths[..|paths| - 1];
      AskingKeeps(e, h, rest, rel);
      OnNotesMore(e, h, Asked(rest, rel), Ask);
      assert Asked(rest, rel) + [] == Asked(rest, rel);
    }
  }

  lemma OneMoreAsked(e: Ends, h: Holding, paths: seq<Name>, p: Name, rel: Name)
    ensures OnNotes(e, h, Asked(paths + [p], rel)).replies
      == OnNotes(e, h, Asked(paths, rel)).replies + if p == rel && h.Have? then [Note.SendFile(h.hash, h.mtime)] else []
  {
    AskingKeeps(e, h, paths, rel);
    AskedMore(paths, p, rel);
    OnNotesMore(e, h, Asked(paths, rel), Ask);
    hide OnNotes, Asked;
    assert Asked(paths, rel) + [] == Asked(paths, rel);
    assert OnNotes(e, h, Asked(paths, rel)).replies + [] == OnNotes(e, h, Asked(paths, rel)).replies;
  }

  lemma OneMoreDeleted(e: Ends, h: Holding, deleted: seq<DeletedEntry>, d: DeletedEntry, rel: Name)
    ensures var before := OnNotes(e, h, DeletedSaid(deleted, rel));
      OnNotes(e, h, DeletedSaid(deleted + [d], rel)) ==
        if d.rel == rel then
          var f := OnDelete(e, before.holding, d.at);
          Effect(f.holding, before.replies + f.replies)
        else before
  {
    DeletedSaidMore(deleted, d, rel);
    OnNotesMore(e, h, DeletedSaid(deleted, rel), Offer(Gone(d.at)));
    hide OnNotes, DeletedSaid, OnDelete;
    assert DeletedSaid(deleted, rel) + [] == DeletedSaid(deleted, rel);
  }

  /** Offers of files change nothing but what is asked for and answered. */
  lemma {:induction false} OfferingKeeps(e: Ends, h: Holding, files: seq<FileEntry>, rel: Name)
    ensures OnNotes(e, h, FilesSaid(files, rel)).holding == h
  {
    if files != [] {
      hide RemoteWins;
      var rest, last := files[..|files| - 1], files[|files| - 1];
      OfferingKeeps(e, h, rest, rel);
      OnNotesMore(e, h, FilesSaid(rest, rel), Offer(Have(last.file.hash, last.file.mtime)));
      assert FilesSaid(rest, rel) + [] == FilesSaid(rest, rel);
    }
  }

  lemma OneMoreOffered(e: Ends, h: Holding, files: seq<FileEntry>, f: FileEntry, rel: Name)
    ensures var before, after := OnNotes(e, h, FilesSaid(files, rel)).replies,
      OnNotes(e, h, FilesSaid(files + [f], rel)).replies;
      var more := if f.rel == rel then OnFileOffer(e, h, f.file).replies else [];
      && after == before + more && Asks(after) == Asks(before) + Asks(more)
      && Others(after) == Others(before) + Others(more)
  {
    hide OnNotes, FilesSaid, OnOffer, Asks, Others;
    OfferingKeeps(e, h, files, rel);
    FilesSaidMore(files, f, rel);
    OnNotesMore(e, h, FilesSaid(files, rel), Offer(Have(f.file.hash, f.file.mtime)));
    OneReply(e, h, Have(f.file.hash, f.file.mtime));
    var before := OnNotes(e, h, FilesSaid(files, rel)).replies;
    SplitMost(before, if f.rel == rel then OnFileOffer(e, h, f.file).replies else []);
    assert FilesSaid(files, rel) + [] == FilesSaid(files, rel) && before + [] == before;
  }

  /** What comes after the offers of files is heard as if they had not been there. */
  lemma {:induction false} OffersThenDeletions(e: Ends, h: Holding, files: seq<FileEntry>, deleted: seq<DeletedEntry>,
          rel: Name)
    ensures var f, g := OnNotes(e, h, FilesSaid(files, rel)), OnNotes(e, h, DeletedSaid(deleted, rel));
      OnNotes(e, h, FilesSaid(files, rel) + DeletedSaid(deleted, rel)) == Effect(g.holding, f.replies + g.replies)
    ensures Others(OnNotes(e, h, DeletedSaid(deleted, rel)).replies) == OnNotes(e, h, DeletedSaid(deleted, rel)).replies
    ensures Asks(OnNotes(e, h, FilesSaid(files, rel) + DeletedSaid(deleted, rel)).replies)
      == Asks(OnNotes(e, h, FilesSaid(files, rel)).replies)
    ensures Others(OnNotes(e, h, FilesSaid(files, rel) + DeletedSaid(deleted, rel)).replies)
      == Others(OnNotes(e, h, FilesSaid(files, rel)).replies) + OnNotes(e, h, DeletedSaid(deleted, rel)).replies
  {
    var f := OnNotes(e, h, FilesSaid(files, rel));
    OfferingKeeps(e, h, files, rel);
    if deleted == [] {
      assert FilesSaid(files, rel) + [] == FilesSaid(files, rel) && f.replies + [] == f.replies;
      assert Others(f.replies) + [] == Others(f.replies);
    } else {
      var rest, last := deleted[..|deleted| - 1], deleted[|deleted| - 1];
      OffersThenDeletions(e, h, files, rest, rel);
      assert deleted == rest + [last];
      OneMoreDeletion(e, h, files, rest, last, rel);
    }
  }

  lemma OneMoreDeletion(e: Ends, h: Holding, files: seq<FileEntry>, rest: seq<DeletedEntry>, last: DeletedEntry,
          rel: Name)
    requires var f, g := OnNotes(e, h, FilesSaid(files, rel)), OnNotes(e, h, DeletedSaid(rest, rel));
      && OnNotes(e, h, FilesSaid(files, rel) + DeletedSaid(rest, rel)) == Effect(g.holding, f.replies + g.replies)
      && Others(g.replies) == g.replies && Asks(f.replies + g.replies) == Asks(f.replies)
      && Others(f.replies + g.replies) == Others(f.replies) + g.replies
    ensures var f, g := OnNotes(e, h, FilesSaid(files, rel)), OnNotes(e, h, DeletedSaid(rest + [last], rel));
      && OnNotes(e, h, FilesSaid(files, rel) + DeletedSaid(rest + [last], rel))
        == Effect(g.holding, f.replies + g.replies)
      && Others(g.replies) == g.replies && Asks(f.replies + g.replies) == Asks(f.replies)
      && Others(f.replies + g.replies) == Others(f.replies) + g.replies
  {
    hide OnNotes, FilesSaid, DeletedSaid, OnDelete, Asks, Others;
    var f, g := OnNotes(e, h, FilesSaid(files, rel)), OnNotes(e, h, DeletedSaid(rest, rel));
    DeletedSaidMore(rest, last, rel);
    OneMoreDeleted(e, h, rest, last, rel);
    if last.rel == rel {
      var n, more := Offer(Gone(last.at)), OnDelete(e, g.holding, last.at).replies;
      OnNotesMore(e, h, FilesSaid(files, rel) + DeletedSaid(rest, rel), n);
      DeletionsAreAnsweredAtOnce(e, g.holding, last.at);
      AnswersJoin(f.replies, g.replies, more);
      assert FilesSaid(files, rel) + (DeletedSaid(rest, rel) + [n])
        == FilesSaid(files, rel) + DeletedSaid(rest, rel) + [n];
      assert f.replies + (g.replies + more) == f.replies + g.replies + more;
    } else {
      assert DeletedSaid(rest, rel) + [] == DeletedSaid(rest, rel);
    }
  }

  lemma AnswersJoin(asked: seq<Note>, told: seq<Note>, more: seq<Note>)
    requires Others(told) == told && Asks(asked + told) == Asks(asked) && Others(asked + told) == Others(asked) + told
    requires |more| <= 1 && Asks(more) == [] && Others(more) == more
    ensures Others(told + more) == told + more && Asks(asked + (told + more)) == Asks(asked)
      && Others(asked + (told + more)) == Others(asked) + (told + more)
  {
    hide Asks, Others;
    SplitMost(told, more);
    SplitMost(asked + told, more);
    assert asked + (told + more) == asked + told + more;
    assert Others(asked) + (told + more) == Others(asked) + told + more;
    assert Asks(asked) + [] == Asks(asked);
  }

  lemma DeletionsAreAnsweredAtOnce(e: Ends, h: Holding, at: real)
    ensures var replies := OnDelete(e, h, at).replies;
      |replies| <= 1 && Asks(replies) == [] && Others(replies) == replies
  {
    OneReply(e, h, Gone(at));
    hide OnDelete, Asks, Others;
    SplitOne(OnDelete(e, h, at).replies);
  }

  lemma ManifestIs(e: Ends, h: Holding, files: seq<FileEntry>, deleted: seq<DeletedEntry>, rel: Name)
    ensures var f, g, all := OnNotes(e, h, FilesSaid(files, rel)), OnNotes(e, h, DeletedSaid(deleted, rel)),
        OnNotes(e, h, FilesSaid(files, rel) + DeletedSaid(deleted, rel));
      all.holding == g.holding && AsksLast(all.replies) == Others(f.replies) + g.replies + Asks(f.replies)
  {
    OffersThenDeletions(e, h, files, deleted, rel);
    hide OnNotes, FilesSaid, DeletedSaid, Asks, Others;
  }

  // --- Messages that say one thing of a path at most ---

  ghost predicate PlainOne(m: Message) {
    (m.Manifest? ==> NoDuplicates(Rels(m.files))) && forall rel :: |Said(m, rel)| <= 1
  }

  ghost predicate Plain(ms: seq<Message>) {
    forall i | 0 <= i < |ms| :: PlainOne(ms[i])
  }

  lemma PlainMore(ms: seq<Message>, m: Message)
    requires m.ConfigFile? || m.ConfigDelete?
    ensures Plain(ms) ==> Plain(ms + [m])
    ensures Prompted(ms) ==> Prompted(ms + [m])
  {
    assert PlainOne(m);
    assert Said(m, m.rel) != [];
    assert Speaks(m);
    hide PlainOne, Speaks;
  }

  /** A message that says something of some path. */
  ghost predicate Speaks(m: Message) {
    exists rel :: Said(m, rel) != []
  }

  /** Every message after the first says something. */
  ghost predicate Prompted(ms: seq<Message>) {
    forall i | 0 < i < |ms| :: Speaks(ms[i])
  }

  lemma RequestSpeaks(ms: seq<Message>, paths: seq<Name>)
    requires paths != []
    ensures Prompted(ms) ==> Prompted(ms + [Request(paths)])
  {
    var read := First(paths);
    var rest, last := read[..|read| - 1], read[|read| - 1];
    assert read == rest + [last];
    AskedMore(rest, last, last);
    assert Said(Request(paths), last) != [];
    assert Speaks(Request(paths));
    hide Speaks;
  }

  lemma {:induction false} AskedOnce(paths: seq<Name>, rel: Name)
    requires NoDuplicates(paths)
    ensures Asked(paths, rel) == if rel in paths then [Ask] else []
  {
    if paths != [] {
      AskedOnce(paths[..|paths| - 1], rel);
    }
  }

  /** The wanted paths are some of those listed, each once. */
  ghost predicate WantedOf(wanted: seq<Name>, files: seq<FileEntry>) {
    && NoDuplicates(wanted)
    && forall k | 0 <= k < |wanted| :: exists j :: 0 <= j < |files| && files[j].rel == wanted[k]
  }

  lemma NoneWanted()
    ensures WantedOf([], [])
  {}

  lemma OneMoreWanted(wanted: seq<Name>, files: seq<FileEntry>, i: nat, ask: bool)
    requires i < |files| && NoDuplicates(Rels(files)) && WantedOf(wanted, files[..i])
    ensures WantedOf(if ask then wanted + [files[i].rel] else wanted, files[..i + 1])
  {
    var read, more := files[..i], files[..i + 1];
    forall k | 0 <= k < |wanted|
      ensures wanted[k] != files[i].rel && exists j :: 0 <= j < |more| && more[j].rel == wanted[k]
    {
      var j :| 0 <= j < |read| && read[j].rel == wanted[k];
      assert more[j].rel == wanted[k];
    }
    assert more[i] == files[i];
  }

  lemma PlainRequest(ms: seq<Message>, paths: seq<Name>, files: seq<FileEntry>)
    requires Plain(ms) && WantedOf(paths, files)
    ensures Plain(ms + [Request(paths)])
  {
    forall rel ensures |Said(Request(paths), rel)| <= 1 { AskedOnce(First(paths), rel); }
    assert PlainOne(Request(paths));
    hide PlainOne;
  }

  lemma {:induction false} OfferedOnce(files: seq<FileEntry>, rel: Name)
    requires NoDuplicates(Rels(files))
    ensures (forall i | 0 <= i < |files| :: files[i].rel != rel) ==> FilesSaid(files, rel) == []
    ensures forall i | 0 <= i < |files| && files[i].rel == rel ::
      FilesSaid(files, rel) == [Offer(Have(files[i].file.hash, files[i].file.mtime))]
  {
    if files != [] {
      var rest := files[..|files| - 1];
      assert Rels(files)[..|files| - 1] == Rels(rest);
      forall i | 0 <= i < |rest| ensures files[i].rel != files[|files| - 1].rel {
        assert Rels(files)[i] == files[i].rel;
      }
      OfferedOnce(rest, rel);
    }
  }

  lemma {:induction false} DeletedOnce(deleted: seq<DeletedEntry>, rel: Name)
    requires NoDuplicates(DeletedRels(deleted))
    ensures (forall i | 0 <= i < |deleted| :: deleted[i].rel != rel) ==> DeletedSaid(deleted, rel) == []
    ensures forall i | 0 <= i < |deleted| && deleted[i].rel == rel ::
      DeletedSaid(deleted, rel) == [Offer(Gone(deleted[i].at))]
  {
    if deleted != [] {
      var rest := deleted[..|deleted| - 1];
      assert DeletedRels(deleted)[..|deleted| - 1] == DeletedRels(rest);
      forall i | 0 <= i < |rest| ensures deleted[i].rel != deleted[|deleted| - 1].rel {
        assert DeletedRels(deleted)[i] == deleted[i].rel;
      }
      DeletedOnce(rest, rel);
    }
  }

  lemma OfferedOfAll(files: seq<FileEntry>, baseline: map<Name, FileState>, accepts: Name -> bool, rel: Name)
    requires ListsFiles(files, baseline, accepts)
    ensures FilesSaid(files, rel) == []
      || (accepts(rel) && rel in baseline
        && FilesSaid(files, rel) == [Offer(Have(baseline[rel].hash, baseline[rel].mtime))])
    ensures |files| < MAX_MANIFEST_ENTRIES && accepts(rel) && rel in baseline ==> FilesSaid(files, rel) != []
  {
    OfferedOnce(files, rel);
    hide FilesSaid;
    if rel in Rels(files) {
      var i :| 0 <= i < |files| && Rels(files)[i] == rel;
      assert files[i].rel == rel;
    } else {
      forall i | 0 <= i < |files| ensures files[i].rel != rel { assert Rels(files)[i] in Rels(files); }
    }
  }

  lemma DeletedOfAll(deleted: seq<DeletedEntry>, tombstones: map<Name, real>, accepts: Name -> bool, rel: Name)
    requires ListsDeletions(deleted, tombstones, accepts)
    ensures DeletedSaid(deleted, rel) == []
      || (accepts(rel) && rel in tombstones && DeletedSaid(deleted, rel) == [Offer(Gone(tombstones[rel]))])
    ensures |deleted| < MAX_MANIFEST_ENTRIES && accepts(rel) && rel in tombstones ==> DeletedSaid(deleted, rel) != []
  {
    DeletedOnce(deleted, rel);
    hide DeletedSaid;
    if rel in DeletedRels(deleted) {
      var i :| 0 <= i < |deleted| && DeletedRels(deleted)[i] == rel;
      assert deleted[i].rel == rel;
    } else {
      forall i | 0 <= i < |deleted| ensures deleted[i].rel != rel {
        assert DeletedRels(deleted)[i] in DeletedRels(deleted);
      }
    }
  }

  /** Up to the limit, a manifest says of every path that may be told what the device has there. */
  lemma ManifestSays(files: seq<FileEntry>, deleted: seq<DeletedEntry>, baseline: map<Name, FileState>,
          tombstones: map<Name, real>, accepts: Name -> bool, rel: Name)
    requires baseline.Keys !! tombstones.Keys
    requires ListsFiles(files, baseline, accepts)
    requires ListsDeletions(deleted, tombstones, accepts)
    ensures |Said(Manifest(files, deleted), rel)| <= 1
    ensures !accepts(rel) || (rel !in baseline && rel !in tombstones) ==> Said(Manifest(files, deleted), rel) == []
    ensures |files| < MAX_MANIFEST_ENTRIES && |deleted| < MAX_MANIFEST_ENTRIES && accepts(rel) ==>
      Said(Manifest(files, deleted), rel)
        == match HoldingAt(baseline, tombstones, rel) case Missing => [] case h => [Offer(h)]
  {
    hide FilesSaid, DeletedSaid;
    OfferedOfAll(files, baseline, accepts, rel);
    DeletedOfAll(deleted, tombstones, accepts, rel);
    assert |Rels(files)| == |files| && |DeletedRels(deleted)| == |deleted|;
    hide TellsOf;
    assert |files| <= MAX_MANIFEST_ENTRIES ==> First(files) == files;
    assert |deleted| <= MAX_MANIFEST_ENTRIES ==> First(deleted) == deleted;
  }

  lemma PlainManifest(ms: seq<Message>, files: seq<FileEntry>, deleted: seq<DeletedEntry>,
          baseline: map<Name, FileState>, tombstones: map<Name, real>, accepts: Name -> bool)
    requires baseline.Keys !! tombstones.Keys
    requires ListsFiles(files, baseline, accepts)
    requires ListsDeletions(deleted, tombstones, accepts)
    ensures Plain(ms) ==> Plain(ms + [Manifest(files, deleted)])
  {
    forall rel ensures |Said(Manifest(files, deleted), rel)| <= 1 {
      ManifestSays(files, deleted, baseline, tombstones, accepts, rel);
    }
    assert PlainOne(Manifest(files, deleted));
    hide PlainOne;
  }
}
