/**
 Syncing Obsidian's own settings (src/core/ConfigSync.ts, 383-541): for each path, a device remembers
 the file it last saw or the time of its deletion; the later change wins.

 `Holding` and `Note` are what one device has at one path, and what a message says about that path.
 */
module ConfigSyncs {
  import opened Names
  import opened Versions

  datatype Holding = Missing | Have(hash: Name, mtime: real) | Gone(at: real)

  datatype Note = Offer(holding: Holding) | Ask | SendFile(hash: Name, mtime: real) | SendDelete(at: real)

  /** The devices at either end, for the last tie-break. */
  datatype Ends = Ends(me: Name, peer: Name)

  predicate RemoteWins(e: Ends, remoteTime: real, remoteHash: Name, localTime: real, localHash: Name) {
    NewerVersion(Version(remoteTime, map[], remoteHash, e.peer), Version(localTime, map[], localHash, e.me)).A?
  }

  // --- What a message about one path does ---

  datatype Effect = Effect(holding: Holding, replies: seq<Note>)

  function OnFile(e: Ends, h: Holding, hash: Name, mtime: real): Effect {
    match h
    case Have(ours, time) =>
      if ours == hash then Effect(Have(ours, if mtime > time then mtime else time), [])
      else if RemoteWins(e, mtime, hash, time, ours) then Effect(Have(hash, mtime), [])
      else Effect(h, [SendFile(ours, time)])
    case Gone(at) =>
      if RemoteWins(e, mtime, hash, at, []) then Effect(Have(hash, mtime), []) else Effect(h, [SendDelete(at)])
    case Missing => Effect(Have(hash, mtime), [])
  }

  function OnDelete(e: Ends, h: Holding, at: real): Effect {
    match h
    case Have(ours, time) =>
      if RemoteWins(e, at, [], time, ours) then Effect(Gone(at), []) else Effect(h, [SendFile(ours, time)])
    case Gone(known) => Effect(if known < at then Gone(at) else h, [])
    case Missing => Effect(Gone(at), [])
  }

  function OnOffer(e: Ends, h: Holding, theirs: Holding): Effect {
    match theirs
    case Missing => Effect(h, [])
    case Gone(at) => OnDelete(e, h, at)
    case Have(hash, mtime) =>
      match h
      case Have(ours, time) => Effect(h, if ours != hash && RemoteWins(e, mtime, hash, time, ours) then [Ask] else [])
      case Gone(at) => Effect(h, if RemoteWins(e, mtime, hash, at, []) then [Ask] else [SendDelete(at)])
      case Missing => Effect(h, [Ask])
  }

  function OnNote(e: Ends, h: Holding, n: Note): Effect {
    match n
    case Offer(theirs) => OnOffer(e, h, theirs)
    case Ask => Effect(h, if h.Have? then [SendFile(h.hash, h.mtime)] else [])
    case SendFile(hash, mtime) => OnFile(e, h, hash, mtime)
    case SendDelete(at) => OnDelete(e, h, at)
  }

  // --- The latest change wins ---

  /** `h` is later than, or the same as, `k`; nothing at all is earliest. */
  predicate AtLeast(h: Holding, k: Holding) {
    k.Missing? || (!h.Missing? && TimeOf(k) <= TimeOf(h))
  }

  function TimeOf(h: Holding): real
    requires !h.Missing?
  {
    match h case Have(_, mtime) => mtime case Gone(at) => at
  }

  /** Two different changes have different times; of one content, another time is a change as well. */
  predicate Distinct(h: Holding, k: Holding) {
    h == k || h.Missing? || k.Missing? || TimeOf(h) != TimeOf(k)
  }

  /** The change a file or a deletion tells of. */
  function Told(n: Note): Holding
    requires n.SendFile? || n.SendDelete?
  {
    match n case SendFile(hash, mtime) => Have(hash, mtime) case SendDelete(at) => Gone(at)
  }

  function Later(h: Holding, k: Holding): Holding {
    if AtLeast(h, k) then h else k
  }

  /** Receiving a change leaves the later of it and what was there. */
  lemma ReceivingKeepsLater(e: Ends, h: Holding, n: Note)
    requires (n.SendFile? || n.SendDelete?) && Distinct(h, Told(n))
    ensures OnNote(e, h, n).holding == Later(h, Told(n))
  {
    hide UnseenEdits;
  }

  function ReceiveAll(h: Holding, notes: seq<(Ends, Note)>): Holding {
    if notes == [] then h
    else OnNote(notes[|notes| - 1].0, ReceiveAll(h, notes[..|notes| - 1]), notes[|notes| - 1].1).holding
  }

  /** `h` is one of the changes received or the one there was, and none of them is later. */
  ghost predicate IsLatest(h: Holding, first: Holding, notes: seq<(Ends, Note)>) {
    && (h == first || exists i :: 0 <= i < |notes| && Changes(notes[i].1) && Told(notes[i].1) == h)
    && AtLeast(h, first) && forall i | 0 <= i < |notes| && Changes(notes[i].1) :: AtLeast(h, Told(notes[i].1))
  }

  predicate Changes(n: Note) { n.SendFile? || n.SendDelete? }

  /** However the changes of a path arrive, from whomever, the device is left with the latest. */
  lemma {:induction false} AnyOrderKeepsLatest(first: Holding, notes: seq<(Ends, Note)>)
    requires forall i | 0 <= i < |notes| :: Changes(notes[i].1) && Distinct(first, Told(notes[i].1))
    requires forall i, j | 0 <= i < |notes| && 0 <= j < |notes| && Changes(notes[i].1) && Changes(notes[j].1) ::
      Distinct(Told(notes[i].1), Told(notes[j].1))
    ensures IsLatest(ReceiveAll(first, notes), first, notes)
  {
    if notes != [] {
      var rest, last := notes[..|notes| - 1], notes[|notes| - 1];
      AnyOrderKeepsLatest(first, rest);
      var h := ReceiveAll(first, rest);
      assert Distinct(h, Told(last.1)) by {
        if h != first {
          var i :| 0 <= i < |rest| && Changes(rest[i].1) && Told(rest[i].1) == h;
          assert notes[i] == rest[i];
        }
      }
      ReceivingKeepsLater(last.0, h, last.1);
      LatestOfOneMore(h, first, notes);
    }
  }

  lemma LatestOfOneMore(h: Holding, first: Holding, notes: seq<(Ends, Note)>)
    requires notes != [] && Changes(notes[|notes| - 1].1) && IsLatest(h, first, notes[..|notes| - 1])
    ensures IsLatest(Later(h, Told(notes[|notes| - 1].1)), first, notes)
  {
    var rest, last := notes[..|notes| - 1], notes[|notes| - 1];
    var l := Later(h, Told(last.1));
    forall i | 0 <= i < |notes| && Changes(notes[i].1)
      ensures AtLeast(l, Told(notes[i].1))
    {
      if i < |rest| { assert rest[i] == notes[i]; }
    }
    if l == h && h != first {
      var i :| 0 <= i < |rest| && Changes(rest[i].1) && Told(rest[i].1) == h;
      assert notes[i] == rest[i];
    }
  }
}
