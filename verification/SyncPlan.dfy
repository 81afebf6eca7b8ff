/**
 The plan of a full sync (src/main.ts, 5413-5511): what each of two manifests makes either device
 send or delete.
 */
module SyncPlans {
  import opened Basics
  import opened Names
  import opened Versions
  import opened VersionOrder
  import opened Pulls

  datatype Item =
    | FileItem(mtime: real, vv: Vector, hash: Name, size: nat)
    | DeletedItem(mtime: real, vv: Vector)
    | FolderItem

  type Manifest = map<Path, Item>

  /** Seen from the device that makes the plan, the receiver of the request. */
  datatype Action = Nothing | ReceiverSends | InitiatorSends | ReceiverDeletes | InitiatorDeletes

  function VersionOf(i: Item, device: Name): Version
    requires !i.FolderItem?
  {
    Version(i.mtime, i.vv, if i.FileItem? then i.hash else [], device)
  }

  function Distance(x: real, y: real): real { if x >= y then x - y else y - x }

  /** The two files are taken to be the same. */
  predicate SameFile(l: Item, r: Item, tolerance: real)
    requires l.FileItem? && r.FileItem?
  {
    || (l.hash != [] && r.hash != [] && l.hash == r.hash)
    || (OrderOf(l.vv, r.vv).Equal? && l.size == r.size && !(l.hash != [] && r.hash != [])
        && Distance(l.mtime, r.mtime) <= tolerance)
  }

  function Verdict(l: Option<Item>, r: Option<Item>, me: Name, peer: Name, tolerance: real): Action {
    match (l, r)
    case (None, None) => Nothing
    case (Some(i), None) => if i.FileItem? then ReceiverSends else Nothing
    case (None, Some(i)) => if i.FileItem? then InitiatorSends else Nothing
    case (Some(i), Some(j)) =>
      if i.FolderItem? || j.FolderItem? || (i.DeletedItem? && j.DeletedItem?) then Nothing
      else if i.FileItem? && j.FileItem? && SameFile(i, j, tolerance) then Nothing
      else
        var mine := PickVersion(VersionOf(i, me), VersionOf(j, peer)).A?;
        if i.FileItem? && j.FileItem? then if mine then ReceiverSends else InitiatorSends
        else if i.DeletedItem? then if mine then InitiatorDeletes else InitiatorSends
        else if !mine then ReceiverDeletes else ReceiverSends
  }

  function At(m: Manifest, p: Path): Option<Item> {
    if p in m then Some(m[p]) else None
  }

  function ActionAt(local: Manifest, remote: Manifest, me: Name, peer: Name, tolerance: real, p: Path): Action {
    Verdict(At(local, p), At(remote, p), me, peer, tolerance)
  }

  // --- The plan ---

  datatype Plan = Plan(receiverSends: seq<Path>, initiatorSends: seq<Path>, receiverDeletes: seq<Path>,
    initiatorDeletes: seq<Path>)
  {
    function Get(a: Action): seq<Path> {
      match a
      case Nothing => []
      case ReceiverSends => receiverSends
      case InitiatorSends => initiatorSends
      case ReceiverDeletes => receiverDeletes
      case InitiatorDeletes => initiatorDeletes
    }

    function With(a: Action, p: Path): Plan {
      match a
      case Nothing => this
      case ReceiverSends => this.(receiverSends := receiverSends + [p])
      case InitiatorSends => this.(initiatorSends := initiatorSends + [p])
      case ReceiverDeletes => this.(receiverDeletes := receiverDeletes + [p])
      case InitiatorDeletes => this.(initiatorDeletes := initiatorDeletes + [p])
    }
  }

  /** Each list of the plan holds, once, the paths of `seen` with its verdict. */
  ghost predicate Covers(plan: Plan, local: Manifest, remote: Manifest, me: Name, peer: Name, tolerance: real,
          seen: set<Path>)
  {
    forall a: Action | !a.Nothing? ::
      && NoDuplicates(plan.Get(a))
      && forall p :: p in plan.Get(a) <==> p in seen && ActionAt(local, remote, me, peer, tolerance, p) == a
  }

  lemma CoversOneMore(plan: Plan, local: Manifest, remote: Manifest, me: Name, peer: Name, tolerance: real,
          seen: set<Path>, p: Path)
    requires Covers(plan, local, remote, me, peer, tolerance, seen) && p !in seen
    ensures Covers(plan.With(ActionAt(local, remote, me, peer, tolerance, p), p), local, remote, me,
      peer, tolerance, seen + {p})
  {
    hide ActionAt, NoDuplicates;
    var was := ActionAt(local, remote, me, peer, tolerance, p);
    forall a: Action | !a.Nothing?
      ensures NoDuplicates(plan.With(was, p).Get(a))
      ensures forall q ::
        q in plan.With(was, p).Get(a) <==> q in seen + {p} && ActionAt(local, remote, me, peer, tolerance, q) == a
    {
      GetWith(plan, was, p, a);
      assert p !in plan.Get(a);
      OneMorePath(plan.Get(a), p);
    }
  }

  lemma GetWith(plan: Plan, a: Action, p: Path, b: Action)
    requires !b.Nothing?
    ensures plan.With(a, p).Get(b) == if a == b then plan.Get(b) + [p] else plan.Get(b)
  {}

  lemma OneMorePath(s: seq<Path>, p: Path)
    requires NoDuplicates(s) && p !in s
    ensures NoDuplicates(s + [p])
    ensures forall q :: q in s + [p] <==> q in s || q == p
  {}

  // --- What goes with the plan ---

  datatype When = When(at: real, vv: Vector)

  /** The sizes of what either side will send, and the deletions that the other side is to record as its own. */
  datatype Notes = Notes(sizes: map<Path, nat>, peerSizes: map<Path, nat>, deletions: map<Path, When>,
    myDeletions: map<Path, When>)
  {
    function With(a: Action, p: Path, l: Option<Item>, r: Option<Item>): Notes
      requires Fits(a, l, r)
    {
      match a
      case Nothing => this
      case ReceiverSends => this.(sizes := sizes[p := l.value.size])
      case InitiatorSends => this.(peerSizes := peerSizes[p := r.value.size])
      case InitiatorDeletes => this.(deletions := deletions[p := When(l.value.mtime, l.value.vv)])
      case ReceiverDeletes => this.(myDeletions := myDeletions[p := When(r.value.mtime, r.value.vv)])
    }
  }

  /** What is sent is a file of the sender; what is deleted was deleted on the other side. */
  predicate Fits(a: Action, l: Option<Item>, r: Option<Item>) {
    match a
    case Nothing => true
    case ReceiverSends => l.Some? && l.value.FileItem?
    case InitiatorSends => r.Some? && r.value.FileItem?
    case InitiatorDeletes => l.Some? && l.value.DeletedItem? && r.Some? && r.value.FileItem?
    case ReceiverDeletes => r.Some? && r.value.DeletedItem? && l.Some? && l.value.FileItem?
  }

  lemma VerdictFits(l: Option<Item>, r: Option<Item>, me: Name, peer: Name, tolerance: real)
    ensures Fits(Verdict(l, r, me, peer, tolerance), l, r)
  {
    hide PickVersion, SameFile;
  }

  /** A file on one side only that is older than deletions are remembered for. */
  predicate MaybeStale(l: Option<Item>, r: Option<Item>, now: real, retention: real) {
    || (l.Some? && r.None? && l.value.FileItem? && now - l.value.mtime > retention)
    || (l.None? && r.Some? && r.value.FileItem? && now - r.value.mtime > retention)
  }

  /** Every path on a list has its note, and no other has. */
  ghost predicate Noted(plan: Plan, notes: Notes, local: Manifest, remote: Manifest) {
    && (forall p :: p in notes.sizes <==> p in plan.receiverSends)
    && (forall p | p in notes.sizes :: p in local && local[p].FileItem? && notes.sizes[p] == local[p].size)
    && (forall p :: p in notes.peerSizes <==> p in plan.initiatorSends)
    && (forall p | p in notes.peerSizes :: p in remote && remote[p].FileItem? && notes.peerSizes[p] == remote[p].size)
    && (forall p :: p in notes.deletions <==> p in plan.initiatorDeletes)
    && (forall p | p in notes.deletions ::
        p in local && local[p].DeletedItem? && notes.deletions[p] == When(local[p].mtime, local[p].vv))
    && (forall p :: p in notes.myDeletions <==> p in plan.receiverDeletes)
    && (forall p | p in notes.myDeletions ::
        p in remote && remote[p].DeletedItem? && notes.myDeletions[p] == When(remote[p].mtime, remote[p].vv))
  }

  lemma NotedOneMore(plan: Plan, notes: Notes, local: Manifest, remote: Manifest, a: Action, p: Path)
    requires Noted(plan, notes, local, remote) && Fits(a, At(local, p), At(remote, p))
    ensures Noted(plan.With(a, p), notes.With(a, p, At(local, p), At(remote, p)), local, remote)
  {}

  /** Every path of either manifest is looked at once, put on the list its verdict calls for, and noted. */
  method MakePlan(local: Manifest, remote: Manifest, me: Name, peer: Name, tolerance: real, now: real, retention: real)
    returns (plan: Plan, notes: Notes, stale: bool)
    ensures Covers(plan, local, remote, me, peer, tolerance, local.Keys + remote.Keys)
    ensures Noted(plan, notes, local, remote)
    ensures stale <==> exists p :: MaybeStale(At(local, p), At(remote, p), now, retention)
    ensures stale <==> exists p | p in local.Keys + remote.Keys :: OldOnOneSide(local, remote, p, now, retention)
  {
    hide Covers, Noted, Verdict, MaybeStale, OldOnOneSide;
    plan, notes, stale := Plan([], [], [], []), Notes(map[], map[], map[], map[]), false;
    var left := local.Keys + remote.Keys;
    ghost var seen: set<Path> := {};
    StartCovers(local, remote, me, peer, tolerance);
    while left != {}
      invariant left + seen == local.Keys + remote.Keys && left !! seen
      invariant Covers(plan, local, remote, me, peer, tolerance, seen)
      invariant Noted(plan, notes, local, remote)
      invariant stale <==> exists p :: p in seen && MaybeStale(At(local, p), At(remote, p), now, retention)
      decreases left
    {
      var p :| p in left;
      var a := ActionAt(local, remote, me, peer, tolerance, p);
      CoversOneMore(plan, local, remote, me, peer, tolerance, seen, p);
      VerdictFits(At(local, p), At(remote, p), me, peer, tolerance);
      NotedOneMore(plan, notes, local, remote, a, p);
      plan, notes := plan.With(a, p), notes.With(a, p, At(local, p), At(remote, p));
      stale := stale || MaybeStale(At(local, p), At(remote, p), now, retention);
      left, seen := left - {p}, seen + {p};
    }
    forall p | p !in local.Keys + remote.Keys ensures !MaybeStale(At(local, p), At(remote, p), now, retention) {
      NotStale(now, retention);
    }
    forall p | p in local.Keys + remote.Keys
      ensures MaybeStale(At(local, p), At(remote, p), now, retention)
        <==> OldOnOneSide(local, remote, p, now, retention)
    {
      StaleIsOld(local, remote, p, now, retention);
    }
  }

  /** Only one manifest has the path, as a file last changed before the time for which deletions are remembered. */
  ghost predicate OldOnOneSide(local: Manifest, remote: Manifest, p: Path, now: real, retention: real)
    requires p in local.Keys + remote.Keys
  {
    && !(p in local && p in remote)
    && var i := if p in local then local[p] else remote[p]; i.FileItem? && i.mtime < now - retention
  }

  lemma StaleIsOld(local: Manifest, remote: Manifest, p: Path, now: real, retention: real)
    requires p in local.Keys + remote.Keys
    ensures MaybeStale(At(local, p), At(remote, p), now, retention)
      <==> OldOnOneSide(local, remote, p, now, retention)
  {}

  lemma NotStale(now: real, retention: real)
    ensures !MaybeStale(None, None, now, retention)
  {}

  lemma StartCovers(local: Manifest, remote: Manifest, me: Name, peer: Name, tolerance: real)
    ensures Covers(Plan([], [], [], []), local, remote, me, peer, tolerance, {})
    ensures Noted(Plan([], [], [], []), Notes(map[], map[], map[], map[]), local, remote)
  {}

  /** No path is on two lists. */
  lemma ListsAreDisjoint(plan: Plan, local: Manifest, remote: Manifest, me: Name, peer: Name, tolerance: real,
          a: Action, b: Action, p: Path)
    requires Covers(plan, local, remote, me, peer, tolerance, local.Keys + remote.Keys)
    requires p in plan.Get(a) && p in plan.Get(b)
    ensures a == b && !a.Nothing?
  {
    hide ActionAt;
  }

  // --- Mirroring ---

  function Mirrored(a: Action): Action {
    match a
    case Nothing => Nothing
    case ReceiverSends => InitiatorSends
    case InitiatorSends => ReceiverSends
    case ReceiverDeletes => InitiatorDeletes
    case InitiatorDeletes => ReceiverDeletes
  }

  lemma SameFileSwaps(l: Item, r: Item, tolerance: real)
    requires l.FileItem? && r.FileItem?
    ensures SameFile(l, r, tolerance) <==> SameFile(r, l, tolerance)
  {
    OrderMeaning(l.vv, r.vv);
    OrderMeaning(r.vv, l.vv);
  }

  /** The two entries are files that are taken to be the same. */
  predicate TakenSame(l: Option<Item>, r: Option<Item>, tolerance: real) {
    l.Some? && r.Some? && l.value.FileItem? && r.value.FileItem? && SameFile(l.value, r.value, tolerance)
  }

  lemma TakenSameSwaps(l: Option<Item>, r: Option<Item>, tolerance: real)
    ensures TakenSame(l, r, tolerance) <==> TakenSame(r, l, tolerance)
  {
    hide SameFile;
    if l.Some? && r.Some? && l.value.FileItem? && r.value.FileItem? { SameFileSwaps(l.value, r.value, tolerance); }
  }

  /** What is taken to be the same needs nothing; two files that are not are sent one way or the other,
      whatever the tolerance. */
  lemma VerdictShape(l: Option<Item>, r: Option<Item>, me: Name, peer: Name, tolerance: real)
    ensures TakenSame(l, r, tolerance) ==> Verdict(l, r, me, peer, tolerance).Nothing?
    ensures !TakenSame(l, r, tolerance) ==>
      forall t | !TakenSame(l, r, t) :: Verdict(l, r, me, peer, t) == Verdict(l, r, me, peer, tolerance)
    ensures !TakenSame(l, r, tolerance) ==>
      forall t | TakenSame(l, r, t) :: Verdict(l, r, me, peer, tolerance) in {ReceiverSends, InitiatorSends}
  {
    hide PickVersion, SameFile;
  }

  /**
   Had the other device made the plan, with its own tolerance, the verdict would be the same seen from
   the other end, exactly if both tolerances take the two files for the same or neither does.
   */
  lemma VerdictMirrors(l: Option<Item>, r: Option<Item>, me: Name, peer: Name, mine: real, theirs: real)
    requires me != [] && peer != [] && me != peer
    ensures Verdict(r, l, peer, me, theirs) == Mirrored(Verdict(l, r, me, peer, mine))
      <==> (TakenSame(l, r, mine) <==> TakenSame(r, l, theirs))
  {
    hide PickVersion, SameFile;
    if l.Some? && r.Some? && !l.value.FolderItem? && !r.value.FolderItem? {
      PickSwaps(VersionOf(l.value, me), VersionOf(r.value, peer));
    }
  }

  lemma CoversAt(plan: Plan, local: Manifest, remote: Manifest, me: Name, peer: Name, tolerance: real, seen: set<Path>,
          p: Path)
    requires Covers(plan, local, remote, me, peer, tolerance, seen)
    ensures forall a: Action | !a.Nothing? ::
      p in plan.Get(a) <==> p in seen && ActionAt(local, remote, me, peer, tolerance, p) == a
    ensures p !in local && p !in remote ==> ActionAt(local, remote, me, peer, tolerance, p).Nothing?
  {
    hide Plan.Get, NoDuplicates, PickVersion, SameFile;
  }

  ghost predicate MirrorAt(plan: Plan, other: Plan, p: Path) {
    forall a: Action | !a.Nothing? :: p in plan.Get(a) <==> p in other.Get(Mirrored(a))
  }

  /** The lists of the two plans are the same lists, each seen from its end. */
  ghost predicate ListsMirror(plan: Plan, other: Plan) {
    forall p: Path :: MirrorAt(plan, other, p)
  }

  lemma ListsMirrorAt(plan: Plan, other: Plan, seen: set<Path>, x: Action, y: Action, p: Path)
    requires forall a: Action | !a.Nothing? ::
      (p in plan.Get(a) <==> p in seen && x == a) && (p in other.Get(a) <==> p in seen && y == a)
    requires p !in seen ==> x.Nothing? && y.Nothing?
    ensures MirrorAt(plan, other, p) <==> y == Mirrored(x)
  {
    hide Plan.Get;
    assert forall a: Action :: Mirrored(Mirrored(a)) == a;
    if MirrorAt(plan, other, p) {
      if !x.Nothing? { assert p in plan.Get(x); }
      if !y.Nothing? { assert p in plan.Get(Mirrored(y)) <==> p in other.Get(Mirrored(Mirrored(y))); }
    }
  }

  /** What the two planners go by; each may know more of its own files than its manifest told the other. */
  lemma ListsMirrorIff(plan: Plan, other: Plan, local: Manifest, remote: Manifest, known: Manifest, told: Manifest,
                       me: Name, peer: Name, mine: real, theirs: real)
    requires Covers(plan, local, remote, me, peer, mine, local.Keys + remote.Keys)
    requires Covers(other, known, told, peer, me, theirs, known.Keys + told.Keys)
    requires known.Keys == remote.Keys && told.Keys == local.Keys
    ensures ListsMirror(plan, other)
      <==> forall p ::
        ActionAt(known, told, peer, me, theirs, p) == Mirrored(ActionAt(local, remote, me, peer, mine, p))
  {
    hide ActionAt, Covers, Plan.Get, MirrorAt;
    var seen := local.Keys + remote.Keys;
    assert seen == known.Keys + told.Keys;
    forall p: Path
      ensures MirrorAt(plan, other, p)
        <==> ActionAt(known, told, peer, me, theirs, p) == Mirrored(ActionAt(local, remote, me, peer, mine, p))
    {
      CoversAt(plan, local, remote, me, peer, mine, seen, p);
      CoversAt(other, known, told, peer, me, theirs, seen, p);
      ListsMirrorAt(plan, other, seen, ActionAt(local, remote, me, peer, mine, p),
        ActionAt(known, told, peer, me, theirs, p), p);
    }
  }

  /** From the manifests alone: the four lists either device would make mirror each other exactly if the
      tolerances agree on every path. */
  lemma PlanMirrors(plan: Plan, other: Plan, local: Manifest, remote: Manifest, me: Name, peer: Name, mine: real,
          theirs: real)
    requires me != [] && peer != [] && me != peer
    requires Covers(plan, local, remote, me, peer, mine, local.Keys + remote.Keys)
    requires Covers(other, remote, local, peer, me, theirs, remote.Keys + local.Keys)
    ensures ListsMirror(plan, other)
      <==> forall p: Path ::
        TakenSame(At(local, p), At(remote, p), mine) <==> TakenSame(At(remote, p), At(local, p), theirs)
  {
    hide Verdict, TakenSame, Covers, ListsMirror;
    ListsMirrorIff(plan, other, local, remote, remote, local, me, peer, mine, theirs);
    forall p: Path
      ensures ActionAt(remote, local, peer, me, theirs, p) == Mirrored(ActionAt(local, remote, me, peer, mine, p))
        <==> (TakenSame(At(local, p), At(remote, p), mine) <==> TakenSame(At(remote, p), At(local, p), theirs))
    {
      VerdictMirrors(At(local, p), At(remote, p), me, peer, mine, theirs);
    }
  }

  // --- Who plans ---

  /** The planner hashes a file of its own that came without a hash, if the other side's file has its size and
      may yet be another. */
  predicate Prehashes(l: Item, r: Item, tolerance: real) {
    && l.FileItem? && r.FileItem? && l.hash == [] && l.size == r.size
    && !(Distance(l.mtime, r.mtime) <= tolerance && OrderOf(l.vv, r.vv).Equal?)
  }

  /** The planner's entry, with `l` as it was in its manifest and `content` the hash of what the vault holds there. */
  function HashedEntry(l: Option<Item>, r: Option<Item>, tolerance: real, content: Name): Option<Item> {
    if l.Some? && r.Some? && Prehashes(l.value, r.value, tolerance) then Some(l.value.(hash := content)) else l
  }

  function Prehashed(local: Manifest, remote: Manifest, tolerance: real, content: Path -> Name): Manifest {
    map p | p in local :: HashedEntry(Some(local[p]), At(remote, p), tolerance, content(p)).value
  }

  /** Hashing tells the planner what its manifest did not: that its file is the other side's. */
  predicate FindsEqual(l: Option<Item>, r: Option<Item>, tolerance: real, content: Name) {
    l.Some? && r.Some? && Prehashes(l.value, r.value, tolerance) && r.value.hash != [] && content == r.value.hash
  }

  /** A hash never decides between files that are hashed for the plan: their times or their vectors do. */
  lemma HashDecidesNothing(l: Item, r: Item, me: Name, peer: Name, tolerance: real, content: Name)
    requires Prehashes(l, r, tolerance) && tolerance >= 0.0
    ensures PickVersion(VersionOf(l.(hash := content), me), VersionOf(r, peer))
      == PickVersion(VersionOf(l, me), VersionOf(r, peer))
  {
    UnseenEditsShape(l.vv, r.vv);
    UnseenEditsShape(r.vv, l.vv);
    OrderMeaning(l.vv, r.vv);
    hide UnseenEdits, UnseenSet, OrderOf;
  }

  /** So hashing first changes the verdict to nothing where it finds the files equal, and never otherwise. */
  lemma HashingVerdict(l: Option<Item>, r: Option<Item>, me: Name, peer: Name, tolerance: real, content: Name)
    requires tolerance >= 0.0
    ensures Verdict(HashedEntry(l, r, tolerance, content), r, me, peer, tolerance)
      == if FindsEqual(l, r, tolerance, content) then Nothing else Verdict(l, r, me, peer, tolerance)
    ensures FindsEqual(l, r, tolerance, content)
      ==> Verdict(l, r, me, peer, tolerance) in {ReceiverSends, InitiatorSends}
  {
    hide PickVersion, OrderOf;
    if l.Some? && r.Some? && Prehashes(l.value, r.value, tolerance) {
      HashDecidesNothing(l.value, r.value, me, peer, tolerance, content);
    }
  }

  /** What a planner that hashes its own file first takes to be the same file. */
  predicate FoundSame(l: Option<Item>, r: Option<Item>, tolerance: real, content: Name) {
    TakenSame(l, r, tolerance) || FindsEqual(l, r, tolerance, content)
  }

  /**
   At one path the two devices, each with its own tolerance and hashing its own file first, plan the same,
   mirrored, exactly if both find the files to be the same or neither does.
   */
  lemma VerdictsMirrorIff(l: Option<Item>, r: Option<Item>, me: Name, peer: Name, mine: real, theirs: real, here: Name,
          there: Name)
    requires me != [] && peer != [] && me != peer && mine >= 0.0 && theirs >= 0.0
    ensures Verdict(HashedEntry(r, l, theirs, there), l, peer, me, theirs)
      == Mirrored(Verdict(HashedEntry(l, r, mine, here), r, me, peer, mine))
      <==> (FoundSame(l, r, mine, here) <==> FoundSame(r, l, theirs, there))
  {
    HashingVerdict(l, r, me, peer, mine, here);
    HashingVerdict(r, l, peer, me, theirs, there);
    VerdictMirrors(l, r, me, peer, mine, theirs);
    VerdictShape(l, r, me, peer, mine);
    VerdictShape(r, l, peer, me, theirs);
    FoundNotTaken(l, r, mine, here);
    FoundNotTaken(r, l, theirs, there);
    hide Verdict, HashedEntry, FindsEqual, TakenSame;
  }

  lemma FoundNotTaken(l: Option<Item>, r: Option<Item>, tolerance: real, content: Name)
    ensures FindsEqual(l, r, tolerance, content) ==> !TakenSame(l, r, tolerance)
  {
    hide OrderOf, Distance;
  }

  /** With one tolerance for both, that is: exactly if neither finds by hashing what its manifest did not tell. */
  lemma OneToleranceMirrorsIff(l: Option<Item>, r: Option<Item>, me: Name, peer: Name, tolerance: real, here: Name,
          there: Name)
    requires me != [] && peer != [] && me != peer && tolerance >= 0.0
    ensures Verdict(HashedEntry(r, l, tolerance, there), l, peer, me, tolerance)
      == Mirrored(Verdict(HashedEntry(l, r, tolerance, here), r, me, peer, tolerance))
      <==> !FindsEqual(l, r, tolerance, here) && !FindsEqual(r, l, tolerance, there)
  {
    VerdictsMirrorIff(l, r, me, peer, tolerance, tolerance, here, there);
    TakenSameSwaps(l, r, tolerance);
    OneHashes(l, r, tolerance, here, there);
    FoundNotTaken(l, r, tolerance, here);
    FoundNotTaken(r, l, tolerance, there);
    hide Verdict, HashedEntry, FindsEqual, TakenSame;
  }

  lemma OneHashes(l: Option<Item>, r: Option<Item>, tolerance: real, here: Name, there: Name)
    ensures !(FindsEqual(l, r, tolerance, here) && FindsEqual(r, l, tolerance, there))
  {
    hide OrderOf, Distance;
  }

  lemma PrehashedAt(local: Manifest, remote: Manifest, tolerance: real, content: Path -> Name, p: Path)
    ensures p in Prehashed(local, remote, tolerance, content) <==> p in local
    ensures At(Prehashed(local, remote, tolerance, content), p)
      == HashedEntry(At(local, p), At(remote, p), tolerance, content(p))
  {
    hide Prehashes;
  }

  /** The four lists the one would make are those the other would make, mirrored, exactly if that holds at
      every path. */
  lemma PlansMirrorIff(plan: Plan, other: Plan, local: Manifest, remote: Manifest, me: Name, peer: Name,
                       mine: real, theirs: real, here: Path -> Name, there: Path -> Name)
    requires me != [] && peer != [] && me != peer && mine >= 0.0 && theirs >= 0.0
    requires Covers(plan, Prehashed(local, remote, mine, here), remote, me, peer, mine, local.Keys + remote.Keys)
    requires Covers(other, Prehashed(remote, local, theirs, there), local, peer, me, theirs, remote.Keys + local.Keys)
    ensures ListsMirror(plan, other)
      <==> forall p: Path ::
        FoundSame(At(local, p), At(remote, p), mine, here(p))
        <==> FoundSame(At(remote, p), At(local, p), theirs, there(p))
  {
    hide Verdict, FoundSame, HashedEntry, Covers, ListsMirror, Prehashed;
    var mineKnown, theirsKnown := Prehashed(local, remote, mine, here), Prehashed(remote, local, theirs, there);
    KeysPrehashed(local, remote, mine, here);
    KeysPrehashed(remote, local, theirs, there);
    ListsMirrorIff(plan, other, mineKnown, remote, theirsKnown, local, me, peer, mine, theirs);
    forall p: Path
      ensures ActionAt(theirsKnown, local, peer, me, theirs, p)
        == Mirrored(ActionAt(mineKnown, remote, me, peer, mine, p))
        <==> (FoundSame(At(local, p), At(remote, p), mine, here(p))
            <==> FoundSame(At(remote, p), At(local, p), theirs, there(p)))
    {
      VerdictsMirrorIff(At(local, p), At(remote, p), me, peer, mine, theirs, here(p), there(p));
      PrehashedAt(local, remote, mine, here, p);
      PrehashedAt(remote, local, theirs, there, p);
    }
  }

  lemma KeysPrehashed(local: Manifest, remote: Manifest, tolerance: real, content: Path -> Name)
    ensures Prehashed(local, remote, tolerance, content).Keys == local.Keys
  {
    hide HashedEntry;
  }

  /** Every file came with its hash. */
  ghost predicate AllHashed(m: Manifest) {
    forall p | p in m && m[p].FileItem? :: m[p].hash != []
  }

  lemma PrehashingChangesNothing(local: Manifest, remote: Manifest, tolerance: real, content: Path -> Name)
    requires AllHashed(local)
    ensures Prehashed(local, remote, tolerance, content) == local
  {
    hide OrderOf, Distance;
  }

  /** Where every file came with its hash it does not matter which device plans, whatever the two tolerances. */
  lemma HashedPlansMirror(plan: Plan, other: Plan, local: Manifest, remote: Manifest, me: Name, peer: Name,
                          mine: real, theirs: real, here: Path -> Name, there: Path -> Name)
    requires me != [] && peer != [] && me != peer && AllHashed(local) && AllHashed(remote)
    requires Covers(plan, Prehashed(local, remote, mine, here), remote, me, peer, mine, local.Keys + remote.Keys)
    requires Covers(other, Prehashed(remote, local, theirs, there), local, peer, me, theirs, remote.Keys + local.Keys)
    ensures ListsMirror(plan, other)
  {
    PrehashingChangesNothing(local, remote, mine, here);
    PrehashingChangesNothing(remote, local, theirs, there);
    hide Covers, ListsMirror, Prehashed;
    PlanMirrors(plan, other, local, remote, me, peer, mine, theirs);
    forall p: Path
      ensures TakenSame(At(local, p), At(remote, p), mine) <==> TakenSame(At(remote, p), At(local, p), theirs)
    {
      hide OrderOf, Distance;
    }
  }

  /** Without hashes it can: the planner hashes its own file and finds it equal, where the other would have
      sent its own. */
  lemma WhoPlansMatters(p: Path, me: Name, peer: Name, hash: Name)
    requires hash != [] && me != [] && peer != [] && me != peer
    ensures exists local: Manifest, remote: Manifest, content: Path -> Name ::
      && ActionAt(Prehashed(local, remote, 1.0, content), remote, me, peer, 1.0, p).Nothing?
      && ActionAt(Prehashed(remote, local, 1.0, content), local, peer, me, 1.0, p).ReceiverSends?
  {
    var local: Manifest, remote: Manifest :=
      map[p := FileItem(1.0, map[], [], 5)], map[p := FileItem(5.0, map[], hash, 5)];
    var content := (q: Path) => hash;
    OrderMeaning(map[], map[]);
    PrehashedAt(local, remote, 1.0, content, p);
    PrehashedAt(remote, local, 1.0, content, p);
    HashingVerdict(At(local, p), At(remote, p), me, peer, 1.0, hash);
    HashingVerdict(At(remote, p), At(local, p), peer, me, 1.0, hash);
  }

  /** And so can the two tolerances: of two files a second apart, the one device lets both be, the other sends
      its own, whatever is in them. */
  lemma TolerancesMatter(p: Path, me: Name, peer: Name, here: Path -> Name, there: Path -> Name)
    requires me != [] && peer != [] && me != peer
    ensures exists local: Manifest, remote: Manifest ::
      && ActionAt(Prehashed(local, remote, 2.0, here), remote, me, peer, 2.0, p).Nothing?
      && ActionAt(Prehashed(remote, local, 0.5, there), local, peer, me, 0.5, p).ReceiverSends?
      && forall t: real ::
        && !FindsEqual(At(local, p), At(remote, p), t, here(p))
        && !FindsEqual(At(remote, p), At(local, p), t, there(p))
  {
    var local: Manifest, remote: Manifest :=
      map[p := FileItem(1.0, map[], [], 5)], map[p := FileItem(2.0, map[], [], 5)];
    OrderMeaning(map[], map[]);
    PrehashedAt(local, remote, 2.0, here, p);
    PrehashedAt(remote, local, 0.5, there, p);
    HashingVerdict(At(local, p), At(remote, p), me, peer, 2.0, here(p));
    HashingVerdict(At(remote, p), At(local, p), peer, me, 0.5, there(p));
  }

  // --- Who wins ---

  /** Two files that both came with hashes are told apart by these alone; others are not, if they have the same
      counts and size, and nearly the same time. */
  lemma WhatIsTakenSame(l: Item, r: Item, tolerance: real)
    requires l.FileItem? && r.FileItem?
    ensures l.hash != [] && r.hash != [] ==> (TakenSame(Some(l), Some(r), tolerance) <==> l.hash == r.hash)
    ensures l.hash == [] || r.hash == [] ==>
      (TakenSame(Some(l), Some(r), tolerance)
       <==> SameCounts(l.vv, r.vv) && l.size == r.size && -tolerance <= l.mtime - r.mtime <= tolerance)
  {
    OrderMeaning(l.vv, r.vv);
  }

  /** By its own hashing a planner finds a file equal only if it came without a hash, has the size of the other, and
      was not taken to be the same already. */
  lemma WhatIsFoundEqual(l: Item, r: Item, tolerance: real, content: Name)
    requires l.FileItem? && r.FileItem?
    ensures FindsEqual(Some(l), Some(r), tolerance, content)
      <==> (l.hash == [] && r.hash != [] && content == r.hash && l.size == r.size
            && !TakenSame(Some(l), Some(r), tolerance))
  {
    OrderMeaning(l.vv, r.vv);
  }

  /** `l` was made with `r` in hand; or neither was made with the other, and `l` is later, or breaks the tie. */
  ghost predicate Wins(l: Item, r: Item, me: Name, peer: Name)
    requires !l.FolderItem? && !r.FolderItem?
  {
    || (Includes(l.vv, r.vv) && !Includes(r.vv, l.vv))
    || ((Includes(l.vv, r.vv) <==> Includes(r.vv, l.vv))
        && (|| l.mtime > r.mtime
            || (l.mtime == r.mtime && PickVersion(VersionOf(l, me), VersionOf(r, peer)).A?)))
  }

  /** Two entries that a winner is sought of. */
  predicate Contend(l: Option<Item>, r: Option<Item>, tolerance: real) {
    && l.Some? && r.Some? && !l.value.FolderItem? && !r.value.FolderItem?
    && !(l.value.DeletedItem? && r.value.DeletedItem?) && !TakenSame(l, r, tolerance)
  }

  lemma WinnerIsPicked(l: Item, r: Item, me: Name, peer: Name)
    requires !l.FolderItem? && !r.FolderItem?
    ensures Wins(l, r, me, peer) <==> PickVersion(VersionOf(l, me), VersionOf(r, peer)).A?
  {
    OrderMeaning(l.vv, r.vv);
    hide OrderOf, UnseenEdits;
  }

  ghost predicate SendsMine(l: Option<Item>, r: Option<Item>, me: Name, peer: Name, tolerance: real) {
    l.Some? && l.value.FileItem? && (r.None? || (Contend(l, r, tolerance) && Wins(l.value, r.value, me, peer)))
  }

  ghost predicate SendsTheirs(l: Option<Item>, r: Option<Item>, me: Name, peer: Name, tolerance: real) {
    r.Some? && r.value.FileItem? && (l.None? || (Contend(l, r, tolerance) && !Wins(l.value, r.value, me, peer)))
  }

  ghost predicate DeletesMine(l: Option<Item>, r: Option<Item>, me: Name, peer: Name) {
    l.Some? && l.value.FileItem? && r.Some? && r.value.DeletedItem? && !Wins(l.value, r.value, me, peer)
  }

  ghost predicate DeletesTheirs(l: Option<Item>, r: Option<Item>, me: Name, peer: Name) {
    l.Some? && l.value.DeletedItem? && r.Some? && r.value.FileItem? && Wins(l.value, r.value, me, peer)
  }

  /** The four lists by who wins: a winning file is sent, a winning deletion carried out, and nothing else is done. */
  lemma ListsByWinner(plan: Plan, local: Manifest, remote: Manifest, me: Name, peer: Name, tolerance: real, p: Path)
    requires Covers(plan, local, remote, me, peer, tolerance, local.Keys + remote.Keys)
    ensures p in plan.receiverSends <==> SendsMine(At(local, p), At(remote, p), me, peer, tolerance)
    ensures p in plan.initiatorSends <==> SendsTheirs(At(local, p), At(remote, p), me, peer, tolerance)
    ensures p in plan.receiverDeletes <==> DeletesMine(At(local, p), At(remote, p), me, peer)
    ensures p in plan.initiatorDeletes <==> DeletesTheirs(At(local, p), At(remote, p), me, peer)
  {
    CoversAt(plan, local, remote, me, peer, tolerance, local.Keys + remote.Keys, p);
    assert plan.receiverSends == plan.Get(ReceiverSends) && plan.initiatorSends == plan.Get(InitiatorSends);
    assert plan.receiverDeletes == plan.Get(ReceiverDeletes) && plan.initiatorDeletes == plan.Get(InitiatorDeletes);
    VerdictByWinner(At(local, p), At(remote, p), me, peer, tolerance);
    hide Covers, Verdict, Wins, SendsMine, SendsTheirs, DeletesMine, DeletesTheirs, Plan.Get;
  }

  lemma VerdictByWinner(l: Option<Item>, r: Option<Item>, me: Name, peer: Name, tolerance: real)
    ensures var a := Verdict(l, r, me, peer, tolerance);
      && (a.ReceiverSends? <==> SendsMine(l, r, me, peer, tolerance))
      && (a.InitiatorSends? <==> SendsTheirs(l, r, me, peer, tolerance))
      && (a.ReceiverDeletes? <==> DeletesMine(l, r, me, peer))
      && (a.InitiatorDeletes? <==> DeletesTheirs(l, r, me, peer))
  {
    if l.Some? && r.Some? && !l.value.FolderItem? && !r.value.FolderItem? {
      WinnerIsPicked(l.value, r.value, me, peer);
    }
    hide Wins, PickVersion, SameFile;
  }

  // --- Executing ---

  /**
   What a device has that took over `i`: the content, time and size, a hash of its own, and a vector of its
   own making: merged, or what it had, where the transfer carried none.
   */
  function Taken(i: Item, vv: Vector, hash: Name): Item {
    match i
    case FileItem(mtime, _, _, size) => FileItem(mtime, vv, hash, size)
    case DeletedItem(mtime, _) => DeletedItem(mtime, vv)
    case FolderItem => FolderItem
  }

  function AfterHere(l: Option<Item>, r: Option<Item>, a: Action, vv: Vector, hash: Name): Option<Item> {
    if (a.InitiatorSends? || a.ReceiverDeletes?) && r.Some? then Some(Taken(r.value, vv, hash)) else l
  }

  function AfterThere(l: Option<Item>, r: Option<Item>, a: Action, vv: Vector, hash: Name): Option<Item> {
    if (a.ReceiverSends? || a.InitiatorDeletes?) && l.Some? then Some(Taken(l.value, vv, hash)) else r
  }

  /** `hash` is that of the content of `i`. */
  predicate HashOf(i: Item, hash: Name) {
    hash != [] && (i.FileItem? && i.hash != [] ==> i.hash == hash)
  }

  /** A device that took a file and plans again lets it be exactly if the file had come with its hash, or the
      vectors are equal. */
  lemma TakerReplansIff(w: Item, vv: Vector, hash: Name, me: Name, peer: Name, tolerance: real)
    requires w.FileItem? && HashOf(w, hash) && tolerance >= 0.0
    ensures Verdict(Some(Taken(w, vv, hash)), Some(w), me, peer, tolerance).Nothing?
      <==> w.hash != [] || OrderOf(vv, w.vv).Equal?
  {
    hide PickVersion, OrderOf;
  }

  /** The device that sent it hashes first, and always lets it be. */
  lemma GiverReplans(w: Item, vv: Vector, hash: Name, me: Name, peer: Name, tolerance: real)
    requires w.FileItem? && HashOf(w, hash) && tolerance >= 0.0
    ensures Verdict(HashedEntry(Some(w), Some(Taken(w, vv, hash)), tolerance, hash), Some(Taken(w, vv, hash)), me,
      peer, tolerance).Nothing?
  {
    hide PickVersion, OrderOf;
  }

  /** The vector a device makes by merging equals the winner's exactly if the winner had included its own. */
  lemma MergedIsEqualIff(w: Vector, own: Vector)
    ensures OrderOf(Merge(w, own), w).Equal? <==> Includes(w, own)
  {
    OrderMeaning(Merge(w, own), w);
    MergeIsLeastUpperBound(w, own, w);
  }

  /** A second plan at one path, after the first was carried out. */
  lemma ReplanAtIff(l: Option<Item>, r: Option<Item>, me: Name, peer: Name, tolerance: real, own: Name, vv: Vector,
          hash: Name)
    requires tolerance >= 0.0 && own != []
    requires var a := Verdict(HashedEntry(l, r, tolerance, own), r, me, peer, tolerance);
      && (a.InitiatorSends? ==> HashOf(r.value, hash)) && (a.ReceiverSends? ==> HashOf(l.value, hash) && hash == own)
    ensures var known := HashedEntry(l, r, tolerance, own);
      var a := Verdict(known, r, me, peer, tolerance);
      var here, there := AfterHere(known, r, a, vv, hash), AfterThere(known, r, a, vv, hash);
      Verdict(HashedEntry(here, there, tolerance, own), there, me, peer, tolerance).Nothing?
      <==> !(a.InitiatorSends? && r.value.hash == [] && !OrderOf(vv, r.value.vv).Equal?)
  {
    hide PickVersion, OrderOf;
    var known := HashedEntry(l, r, tolerance, own);
    var a := Verdict(known, r, me, peer, tolerance);
    VerdictFits(known, r, me, peer, tolerance);
    if a.InitiatorSends? {
      TakerReplansIff(r.value, vv, hash, me, peer, tolerance);
    } else if a.ReceiverSends? {
      GiverReplans(known.value, vv, hash, me, peer, tolerance);
    }
  }

  function HereAfter(known: Manifest, remote: Manifest, me: Name, peer: Name, tolerance: real, vv: Path -> Vector,
          hash: Path -> Name): Manifest
  {
    map p | p in known.Keys + remote.Keys
      && AfterHere(At(known, p), At(remote, p), ActionAt(known, remote, me, peer, tolerance, p), vv(p), hash(p)).Some?
      :: AfterHere(At(known, p), At(remote, p), ActionAt(known, remote, me, peer, tolerance, p), vv(p), hash(p)).value
  }

  function ThereAfter(known: Manifest, remote: Manifest, me: Name, peer: Name, tolerance: real, vv: Path -> Vector,
          hash: Path -> Name): Manifest
  {
    map p | p in known.Keys + remote.Keys
      && AfterThere(At(known, p), At(remote, p), ActionAt(known, remote, me, peer, tolerance, p), vv(p), hash(p)).Some?
      :: AfterThere(At(known, p), At(remote, p), ActionAt(known, remote, me, peer, tolerance, p), vv(p), hash(p)).value
  }

  lemma AfterAt(known: Manifest, remote: Manifest, me: Name, peer: Name, tolerance: real, vv: Path -> Vector,
          hash: Path -> Name, p: Path)
    ensures var a := ActionAt(known, remote, me, peer, tolerance, p);
      && At(HereAfter(known, remote, me, peer, tolerance, vv, hash), p)
        == AfterHere(At(known, p), At(remote, p), a, vv(p), hash(p))
      && At(ThereAfter(known, remote, me, peer, tolerance, vv, hash), p)
        == AfterThere(At(known, p), At(remote, p), a, vv(p), hash(p))
  {
    hide Verdict, Taken;
  }

  /** What a device has is of the kind of `w`, with its time and size. */
  predicate IsLike(i: Option<Item>, w: Item) {
    match w
    case FileItem(mtime, _, _, size) => i.Some? && i.value.FileItem? && i.value.mtime == mtime && i.value.size == size
    case DeletedItem(mtime, _) => i.Some? && i.value.DeletedItem? && i.value.mtime == mtime
    case FolderItem => i == Some(FolderItem)
  }

  /** At one path, once the plan was carried out: both have the winner, or what only one had a file of, or
      what they had. */
  lemma WinnerIsOnBoth(l: Option<Item>, r: Option<Item>, me: Name, peer: Name, tolerance: real, vv: Vector, hash: Name)
    ensures var a := Verdict(l, r, me, peer, tolerance);
      var here, there := AfterHere(l, r, a, vv, hash), AfterThere(l, r, a, vv, hash);
      if Contend(l, r, tolerance) then
        var winner := if Wins(l.value, r.value, me, peer) then l.value else r.value;
        IsLike(here, winner) && IsLike(there, winner)
      else if l.Some? && l.value.FileItem? && r.None? then here == l && IsLike(there, l.value)
      else if r.Some? && r.value.FileItem? && l.None? then there == r && IsLike(here, r.value)
      else here == l && there == r
  {
    VerdictByWinner(l, r, me, peer, tolerance);
    hide Wins, Verdict;
  }

  /** Main step: so it is at every path, with what the planner's own hashing told it. */
  lemma PlanLeavesTheWinner(local: Manifest, remote: Manifest, me: Name, peer: Name, tolerance: real,
          own: Path -> Name, vv: Path -> Vector, hash: Path -> Name, p: Path)
    requires tolerance >= 0.0
    ensures var known := Prehashed(local, remote, tolerance, own);
      var here := At(HereAfter(known, remote, me, peer, tolerance, vv, hash), p);
      var there := At(ThereAfter(known, remote, me, peer, tolerance, vv, hash), p);
      var l, r := At(local, p), At(remote, p);
      if Contend(l, r, tolerance) && !FindsEqual(l, r, tolerance, own(p)) then
        var winner := if Wins(l.value, r.value, me, peer) then l.value else r.value;
        IsLike(here, winner) && IsLike(there, winner)
      else if l.Some? && l.value.FileItem? && r.None? then here == l && IsLike(there, l.value)
      else if r.Some? && r.value.FileItem? && l.None? then there == r && IsLike(here, r.value)
      else here == At(known, p) && there == r
  {
    var known := Prehashed(local, remote, tolerance, own);
    var l, r := At(local, p), At(remote, p);
    AfterAt(known, remote, me, peer, tolerance, vv, hash, p);
    PrehashedAt(local, remote, tolerance, own, p);
    WinnerIsOnBoth(At(known, p), r, me, peer, tolerance, vv(p), hash(p));
    HashingContends(l, r, me, peer, tolerance, own(p));
    hide Wins, Contend, Verdict, Prehashed, HereAfter, ThereAfter, HashedEntry, FindsEqual, AfterHere, AfterThere;
  }

  /** Hashing first takes out the files found equal, and does not change who wins among the rest. */
  lemma HashingContends(l: Option<Item>, r: Option<Item>, me: Name, peer: Name, tolerance: real, own: Name)
    requires tolerance >= 0.0
    ensures var known := HashedEntry(l, r, tolerance, own);
      && (known.Some? <==> l.Some?)
      && (r.None? ==> known == l)
      && (Contend(known, r, tolerance) <==> Contend(l, r, tolerance) && !FindsEqual(l, r, tolerance, own))
      && (Contend(known, r, tolerance) ==>
            && (Wins(known.value, r.value, me, peer) <==> Wins(l.value, r.value, me, peer))
            && forall i :: IsLike(i, known.value) <==> IsLike(i, l.value))
  {
    if l.Some? && r.Some? && Prehashes(l.value, r.value, tolerance) {
      HashDecidesNothing(l.value, r.value, me, peer, tolerance, own);
    }
    hide PickVersion, OrderOf;
  }

  /** The hashes are those of the files: the planner's own, and of what is taken over on either side. */
  ghost predicate TrueHashes(local: Manifest, remote: Manifest, me: Name, peer: Name, tolerance: real,
          own: Path -> Name, hash: Path -> Name)
  {
    forall p: Path ::
      var a := ActionAt(Prehashed(local, remote, tolerance, own), remote, me, peer, tolerance, p);
      && own(p) != []
      && (a.InitiatorSends? ==> p in remote && HashOf(remote[p], hash(p)))
      && (a.ReceiverSends? ==> p in local && HashOf(local[p], hash(p)) && hash(p) == own(p))
  }

  /** A second plan sends the path again: it was taken from a file without a hash, under a vector that is not
      the file's. */
  ghost predicate SentAgain(local: Manifest, remote: Manifest, me: Name, peer: Name, tolerance: real, own: Path -> Name,
          vv: Path -> Vector, p: Path)
  {
    && ActionAt(Prehashed(local, remote, tolerance, own), remote, me, peer, tolerance, p).InitiatorSends?
    && p in remote && remote[p].FileItem? && remote[p].hash == [] && !OrderOf(vv(p), remote[p].vv).Equal?
  }

  lemma ReplanAt(local: Manifest, remote: Manifest, me: Name, peer: Name, tolerance: real, own: Path -> Name,
          vv: Path -> Vector, hash: Path -> Name, p: Path)
    requires tolerance >= 0.0 && TrueHashes(local, remote, me, peer, tolerance, own, hash)
    ensures var known := Prehashed(local, remote, tolerance, own);
      var here, there :=
        HereAfter(known, remote, me, peer, tolerance, vv, hash),
        ThereAfter(known, remote, me, peer, tolerance, vv, hash);
      ActionAt(Prehashed(here, there, tolerance, own), there, me, peer, tolerance, p).Nothing?
      <==> !SentAgain(local, remote, me, peer, tolerance, own, vv, p)
  {
    hide HereAfter, ThereAfter, Prehashed, HashedEntry, OrderOf, HashOf, AfterHere, AfterThere, Verdict;
    var known := Prehashed(local, remote, tolerance, own);
    var here, there :=
      HereAfter(known, remote, me, peer, tolerance, vv, hash), ThereAfter(known, remote, me, peer, tolerance, vv, hash);
    PrehashedAt(local, remote, tolerance, own, p);
    AfterAt(known, remote, me, peer, tolerance, vv, hash, p);
    PrehashedAt(here, there, tolerance, own, p);
    VerdictFits(At(known, p), At(remote, p), me, peer, tolerance);
    ReplanAtIff(At(local, p), At(remote, p), me, peer, tolerance, own(p), vv(p), hash(p));
  }

  /** Once the plan was carried out, planning again finds nothing to do exactly if no file came without a hash
      to a device whose vector for it is another. */
  lemma ReplanIsEmptyIff(local: Manifest, remote: Manifest, me: Name, peer: Name, tolerance: real, own: Path -> Name,
          vv: Path -> Vector, hash: Path -> Name)
    requires tolerance >= 0.0 && TrueHashes(local, remote, me, peer, tolerance, own, hash)
    ensures var known := Prehashed(local, remote, tolerance, own);
      var here, there :=
        HereAfter(known, remote, me, peer, tolerance, vv, hash),
        ThereAfter(known, remote, me, peer, tolerance, vv, hash);
      (forall p: Path :: ActionAt(Prehashed(here, there, tolerance, own), there, me, peer, tolerance, p).Nothing?)
      <==> forall p: Path :: !SentAgain(local, remote, me, peer, tolerance, own, vv, p)
  {
    hide HereAfter, ThereAfter, Prehashed, SentAgain, TrueHashes, ActionAt;
    var known := Prehashed(local, remote, tolerance, own);
    var here, there :=
      HereAfter(known, remote, me, peer, tolerance, vv, hash), ThereAfter(known, remote, me, peer, tolerance, vv, hash);
    forall p: Path
      ensures ActionAt(Prehashed(here, there, tolerance, own), there, me, peer, tolerance, p).Nothing?
        <==> !SentAgain(local, remote, me, peer, tolerance, own, vv, p)
    {
      ReplanAt(local, remote, me, peer, tolerance, own, vv, hash, p);
    }
  }

  /** So it does wherever the other side's files came with their hashes. */
  lemma ReplanIsEmpty(local: Manifest, remote: Manifest, me: Name, peer: Name, tolerance: real, own: Path -> Name,
          vv: Path -> Vector, hash: Path -> Name, p: Path)
    requires tolerance >= 0.0 && TrueHashes(local, remote, me, peer, tolerance, own, hash) && AllHashed(remote)
    ensures var known := Prehashed(local, remote, tolerance, own);
      var here, there :=
        HereAfter(known, remote, me, peer, tolerance, vv, hash),
        ThereAfter(known, remote, me, peer, tolerance, vv, hash);
      ActionAt(Prehashed(here, there, tolerance, own), there, me, peer, tolerance, p).Nothing?
  {
    hide HereAfter, ThereAfter, Prehashed, TrueHashes, ActionAt;
    ReplanAt(local, remote, me, peer, tolerance, own, vv, hash, p);
  }
}
