/**
 Comparing two Merkle trees (src/core/sync/MerkleManager.ts, 192-270): the four lists of the
 difference, under the assumption that equal hashes at a node mean equal leaves below it.
 */
module MerkleDiff {
  import opened Basics
  import opened Names
  import opened Merkle

  datatype Kind = MissingLocally | MissingRemotely | Changed | Identical

  /** A file of the tree: a node without children, other than the root. */
  predicate IsFile(t: Tree, p: NodePath) {
    p != [] && IsLeaf(t, p)
  }

  /** How the file at `p` compares. */
  predicate Belongs(local: Tree, remote: Tree, kind: Kind, p: NodePath) {
    match kind
    case MissingLocally => IsFile(remote, p) && !IsFile(local, p)
    case MissingRemotely => IsFile(local, p) && !IsFile(remote, p)
    case Changed => IsFile(local, p) && IsFile(remote, p) && local[p] != remote[p]
    case Identical => IsFile(local, p) && IsFile(remote, p) && local[p] == remote[p]
  }

  /** Equal hashes, not empty, stand for the same leaves with the same hashes. */
  ghost predicate Sound(local: Tree, remote: Tree) {
    forall p, q | p in local && p in remote && local[p] == remote[p] && local[p] != [] && p <= q ::
      (IsLeaf(local, q) <==> IsLeaf(remote, q)) && (IsLeaf(local, q) ==> local[q] == remote[q])
  }

  /** A part of the tree: what lies at or below `p`, or of that what lies below through one of `keys`. */
  datatype Region = All(p: NodePath) | Through(p: NodePath, keys: set<Name>)

  predicate In(r: Region, q: NodePath) {
    match r
    case All(p) => p <= q
    case Through(p, keys) => p <= q && |q| > |p| && q[|p|] in keys
  }

  function FilesIn(t: Tree, r: Region): set<NodePath> {
    set q | q in t && IsFile(t, q) && In(r, q)
  }

  function Wanted(local: Tree, remote: Tree, kind: Kind, r: Region): set<NodePath> {
    set q | q in local.Keys + remote.Keys && Belongs(local, remote, kind, q) && In(r, q)
  }

  // --- What the lists gain ---

  datatype DiffResult = DiffResult(
    missingLocally: seq<NodePath>, missingRemotely: seq<NodePath>, changed: seq<NodePath>, identical: seq<NodePath>)
  {
    function Get(kind: Kind): seq<NodePath> {
      match kind
      case MissingLocally => missingLocally
      case MissingRemotely => missingRemotely
      case Changed => changed
      case Identical => identical
    }

    function Pushed(kind: Kind, p: NodePath): DiffResult {
      match kind
      case MissingLocally => this.(missingLocally := missingLocally + [p])
      case MissingRemotely => this.(missingRemotely := missingRemotely + [p])
      case Changed => this.(changed := changed + [p])
      case Identical => this.(identical := identical + [p])
    }
  }

  /** `s` lists each of `all` once. */
  ghost predicate Enumerates(s: seq<NodePath>, all: set<NodePath>) {
    NoDuplicates(s) && forall q :: q in s <==> q in all
  }

  ghost predicate Grown(before: DiffResult, after: DiffResult, kind: Kind, gained: set<NodePath>) {
    before.Get(kind) <= after.Get(kind) && Enumerates(after.Get(kind)[|before.Get(kind)|..], gained)
  }

  /** Each list has gained exactly what it should of the region. */
  ghost predicate Covered(before: DiffResult, after: DiffResult, local: Tree, remote: Tree, r: Region) {
    forall kind :: Grown(before, after, kind, Wanted(local, remote, kind, r))
  }

  lemma EnumeratesJoin(s: seq<NodePath>, t: seq<NodePath>, a: set<NodePath>, b: set<NodePath>)
    requires Enumerates(s, a) && Enumerates(t, b) && a !! b
    ensures Enumerates(s + t, a + b)
  {
    forall i, j | 0 <= i < |s| && 0 <= j < |t|
      ensures s[i] != t[j]
    {
      assert s[i] in s && t[j] in t;
    }
  }

  lemma GrownTwice(before: DiffResult, mid: DiffResult, after: DiffResult, kind: Kind, a: set<NodePath>,
          b: set<NodePath>)
    requires Grown(before, mid, kind, a) && Grown(mid, after, kind, b) && a !! b
    ensures Grown(before, after, kind, a + b)
  {
    var x, y, z := before.Get(kind), mid.Get(kind), after.Get(kind);
    EnumeratesJoin(y[|x|..], z[|y|..], a, b);
    assert z[|x|..] == y[|x|..] + z[|y|..];
  }

  lemma GrownByNothing(before: DiffResult, kind: Kind)
    ensures Grown(before, before, kind, {})
  {}

  lemma GrownByOne(before: DiffResult, kind: Kind, p: NodePath)
    ensures Grown(before, before.Pushed(kind, p), kind, {p})
    ensures forall other | other != kind :: before.Pushed(kind, p).Get(other) == before.Get(other)
  {
    var x := before.Get(kind);
    assert (x + [p])[|x|..] == [p];
  }

  lemma GrownByPush(before: DiffResult, pushed: Kind, p: NodePath, kind: Kind)
    ensures Grown(before, before.Pushed(pushed, p), kind, if kind == pushed then {p} else {})
  {
    GrownByOne(before, pushed, p);
  }

  // --- Regions ---

  lemma {:induction false} RootedAbove(t: Tree, p: NodePath, q: NodePath)
    requires Rooted(t) && q in t && p <= q
    ensures p in t && (p != q ==> q[|p|] in Children(t, p))
    decreases |q|
  {
    if p != q {
      if p == Parent(q) {
        ChildrenAre(t, p);
        assert q == p + [q[|p|]];
      } else {
        assert p <= Parent(q);
        RootedAbove(t, p, Parent(q));
      }
    }
  }

  lemma ThroughMore(p: NodePath, keys: set<Name>, k: Name, q: NodePath)
    requires k !in keys
    ensures In(Through(p, keys + {k}), q) <==> In(Through(p, keys), q) || In(All(p + [k]), q)
    ensures !(In(Through(p, keys), q) && In(All(p + [k]), q))
  {
    if p + [k] <= q {
      assert p <= p + [k];
      assert q[|p|] == (p + [k])[|p|];
    }
    if p <= q && |q| > |p| && q[|p|] == k { assert q[..|p| + 1] == p + [k]; }
  }

  lemma WantedThroughMore(local: Tree, remote: Tree, kind: Kind, p: NodePath, keys: set<Name>, k: Name)
    requires k !in keys
    ensures Wanted(local, remote, kind, Through(p, keys + {k}))
      == Wanted(local, remote, kind, Through(p, keys)) + Wanted(local, remote, kind, All(p + [k]))
    ensures Wanted(local, remote, kind, Through(p, keys)) !! Wanted(local, remote, kind, All(p + [k]))
  {
    hide Belongs;
    forall q { ThroughMore(p, keys, k, q); }
    hide In;
  }

  lemma FilesThroughMore(t: Tree, p: NodePath, keys: set<Name>, k: Name)
    requires k !in keys
    ensures FilesIn(t, Through(p, keys + {k})) == FilesIn(t, Through(p, keys)) + FilesIn(t, All(p + [k]))
    ensures FilesIn(t, Through(p, keys)) !! FilesIn(t, All(p + [k]))
  {
    hide IsFile;
    forall q { ThroughMore(p, keys, k, q); }
    hide In;
  }

  /** The files at or below a folder are those below its children; those of a file are itself. */
  lemma FilesOfNode(t: Tree, p: NodePath)
    requires Rooted(t) && p in t
    ensures Children(t, p) != {} ==> FilesIn(t, All(p)) == FilesIn(t, Through(p, Children(t, p)))
    ensures Children(t, p) == {} ==> FilesIn(t, All(p)) == if p == [] then {} else {p}
  {
    forall q | q in t && p <= q
      ensures p != q ==> q[|p|] in Children(t, p)
    {
      RootedAbove(t, p, q);
    }
  }

  lemma NothingBelow(t: Tree, p: NodePath, q: NodePath)
    requires Rooted(t) && p !in t && p <= q
    ensures q !in t
  {
    if q in t { RootedAbove(t, p, q); }
  }

  /** Where only one tree has the node, its files are missing from the other. */
  lemma WantedOneSided(local: Tree, remote: Tree, p: NodePath, kind: Kind)
    requires Rooted(local) && Rooted(remote)
    ensures p !in remote ==>
      Wanted(local, remote, kind, All(p)) == if kind.MissingRemotely? then FilesIn(local, All(p)) else {}
    ensures p !in local ==>
      Wanted(local, remote, kind, All(p)) == if kind.MissingLocally? then FilesIn(remote, All(p)) else {}
  {
    forall q | p <= q
      ensures p !in remote ==> q !in remote
      ensures p !in local ==> q !in local
    {
      if p !in remote { NothingBelow(remote, p, q); }
      if p !in local { NothingBelow(local, p, q); }
    }
  }

  /** Where the hashes are equal, every file is in both. */
  lemma WantedEqual(local: Tree, remote: Tree, p: NodePath, kind: Kind)
    requires Sound(local, remote) && p in local && p in remote && local[p] == remote[p] && local[p] != []
    ensures Wanted(local, remote, kind, All(p)) == if kind.Identical? then FilesIn(local, All(p)) else {}
  {
    hide Children;
    forall q | p <= q
      ensures (IsLeaf(local, q) <==> IsLeaf(remote, q)) && (IsLeaf(local, q) ==> local[q] == remote[q])
    {}
  }

  /** The files at or below a node in both trees: perhaps the node itself, and those below the children either has. */
  lemma WantedBoth(local: Tree, remote: Tree, p: NodePath, kind: Kind)
    requires Rooted(local) && Rooted(remote) && p in local && p in remote
    ensures var own: set<NodePath> := if Belongs(local, remote, kind, p) then {p} else {};
      var below := Wanted(local, remote, kind, Through(p, Children(local, p) + Children(remote, p)));
      Wanted(local, remote, kind, All(p)) == own + below && own !! below
  {
    hide Children, Belongs;
    var keys := Children(local, p) + Children(remote, p);
    forall q | q in local.Keys + remote.Keys
      ensures p <= q && p != q ==> In(Through(p, keys), q)
    {
      if p <= q && p != q {
        if q in local { RootedAbove(local, p, q); } else { RootedAbove(remote, p, q); }
      }
    }
    forall q ensures !In(Through(p, keys), p) && (In(Through(p, keys), q) ==> In(All(p), q)) {}
    hide In;
    var own: set<NodePath> := if Belongs(local, remote, kind, p) then {p} else {};
    assert In(All(p), p);
    assert Wanted(local, remote, kind, All(p)) == own + Wanted(local, remote, kind, Through(p, keys));
  }

  /** The kinds a node itself belongs to, by whether it is a leaf on either side. */
  lemma BelongsByLeaf(local: Tree, remote: Tree, p: NodePath, kind: Kind)
    requires p in local && p in remote
    ensures var here, there := Children(local, p) == {}, Children(remote, p) == {};
      Belongs(local, remote, kind, p) <==> p != [] && match kind
        case MissingLocally => there && !here
        case MissingRemotely => here && !there
        case Changed => here && there && local[p] != remote[p]
        case Identical => here && there && local[p] == remote[p]
  {}

  ghost function Own(local: Tree, remote: Tree, kind: Kind, p: NodePath): set<NodePath> {
    if Belongs(local, remote, kind, p) then {p} else {}
  }

  lemma NothingThrough(local: Tree, remote: Tree, kind: Kind, p: NodePath)
    ensures Wanted(local, remote, kind, Through(p, {})) == {}
  {}

  /** One list has gained all that is to be listed. */
  lemma CoveredByOneKind(before: DiffResult, after: DiffResult, local: Tree, remote: Tree, r: Region, kind: Kind,
          gained: set<NodePath>)
    requires Grown(before, after, kind, gained)
    requires forall other | other != kind :: after.Get(other) == before.Get(other)
    requires forall other :: Wanted(local, remote, other, r) == if other == kind then gained else {}
    ensures Covered(before, after, local, remote, r)
  {
    forall other ensures Grown(before, after, other, Wanted(local, remote, other, r)) {
      if other != kind { GrownByNothing(before, other); }
    }
  }

  /** The node itself, then what lies below it. */
  lemma CoveredByParts(before: DiffResult, mid: DiffResult, after: DiffResult, local: Tree, remote: Tree, p: NodePath)
    requires Rooted(local) && Rooted(remote) && p in local && p in remote
    requires forall kind :: Grown(before, mid, kind, Own(local, remote, kind, p))
    requires Covered(mid, after, local, remote, Through(p, Children(local, p) + Children(remote, p)))
    ensures Covered(before, after, local, remote, All(p))
  {
    hide Wanted, Children, Grown;
    forall kind ensures Grown(before, after, kind, Wanted(local, remote, kind, All(p))) {
      WantedBoth(local, remote, p, kind);
      GrownTwice(before, mid, after, kind, Own(local, remote, kind, p),
        Wanted(local, remote, kind, Through(p, Children(local, p) + Children(remote, p))));
    }
  }

  lemma CoveredOneKeyMore(before: DiffResult, mid: DiffResult, after: DiffResult, local: Tree, remote: Tree,
          p: NodePath, keys: set<Name>, k: Name)
    requires k !in keys
    requires Covered(before, mid, local, remote, Through(p, keys)) && Covered(mid, after, local, remote, All(p + [k]))
    ensures Covered(before, after, local, remote, Through(p, keys + {k}))
  {
    hide Wanted, Grown;
    forall kind ensures Grown(before, after, kind, Wanted(local, remote, kind, Through(p, keys + {k}))) {
      WantedThroughMore(local, remote, kind, p, keys, k);
      GrownTwice(before, mid, after, kind, Wanted(local, remote, kind, Through(p, keys)),
        Wanted(local, remote, kind, All(p + [k])));
    }
  }

  lemma CoveredNothing(before: DiffResult, local: Tree, remote: Tree, p: NodePath)
    ensures Covered(before, before, local, remote, Through(p, {}))
  {
    forall kind ensures Grown(before, before, kind, Wanted(local, remote, kind, Through(p, {}))) {
      NothingThrough(local, remote, kind, p);
      GrownByNothing(before, kind);
    }
  }

  lemma SmallerBelow(local: Tree, remote: Tree, p: NodePath, k: Name)
    requires Rooted(local) && Rooted(remote) && p in local && p in remote
    ensures Below(local, p + [k]) + Below(remote, p + [k]) < Below(local, p) + Below(remote, p)
  {
    ChildIsBelow(local, p, k);
    ChildIsBelow(remote, p, k);
    hide Below;
    assert p in Below(local, p) + Below(remote, p) && p !in Below(local, p + [k]) + Below(remote, p + [k]) by {
      BelowIs(local, p, k);
      BelowIs(remote, p, k);
    }
  }

  lemma BelowIs(t: Tree, p: NodePath, k: Name)
    requires p in t
    ensures p in Below(t, p) && p !in Below(t, p + [k])
  {}

  // --- The comparison ---

  class TreeDiff {
    var result: DiffResult

    constructor ()
      ensures result == DiffResult([], [], [], [])
    {
      result := DiffResult([], [], [], []);
    }

    /** Every file at or below `p` goes on the list. */
    method CollectPaths(t: Tree, p: NodePath, kind: Kind)
      requires Rooted(t) && p in t
      modifies this
      ensures Grown(old(result), result, kind, FilesIn(t, All(p)))
      ensures forall other | other != kind :: result.Get(other) == old(result).Get(other)
      decreases Below(t, p)
    {
      FilesOfNode(t, p);
      GrownByNothing(result, kind);
      if Children(t, p) == {} {
        if p != [] {
          GrownByOne(result, kind, p);
          result := result.Pushed(kind, p);
        }
        return;
      }
      ChildrenAre(t, p);
      var rest, seen: set<Name> := Children(t, p), {};
      assert FilesIn(t, Through(p, {})) == {};
      while rest != {}
        invariant rest !! seen && rest + seen == Children(t, p)
        invariant Grown(old(result), result, kind, FilesIn(t, Through(p, seen)))
        invariant forall other | other != kind :: result.Get(other) == old(result).Get(other)
        decreases rest
      {
        var k :| k in rest;
        ChildIsBelow(t, p, k);
        ghost var mid := result;
        CollectPaths(t, p + [k], kind);
        FilesThroughMore(t, p, seen, k);
        GrownTwice(old(result), mid, result, kind, FilesIn(t, Through(p, seen)), FilesIn(t, All(p + [k])));
        rest, seen := rest - {k}, seen + {k};
      }
    }

    method Walk(local: Tree, remote: Tree, p: NodePath)
      requires Rooted(local) && Rooted(remote) && Sound(local, remote) && (p in local || p in remote)
      modifies this
      ensures Covered(old(result), result, local, remote, All(p))
      decreases Below(local, p) + Below(remote, p)
    {
      hide Wanted, Grown, Covered, FilesIn, Sound, Belongs, Children;
      if p in local && p !in remote {
        CollectPaths(local, p, MissingRemotely);
        forall kind { WantedOneSided(local, remote, p, kind); }
        CoveredByOneKind(old(result), result, local, remote, All(p), MissingRemotely, FilesIn(local, All(p)));
        return;
      }
      if p !in local && p in remote {
        CollectPaths(remote, p, MissingLocally);
        forall kind { WantedOneSided(local, remote, p, kind); }
        CoveredByOneKind(old(result), result, local, remote, All(p), MissingLocally, FilesIn(remote, All(p)));
        return;
      }
      if local[p] == remote[p] && local[p] != [] {
        CollectPaths(local, p, Identical);
        forall kind { WantedEqual(local, remote, p, kind); }
        CoveredByOneKind(old(result), result, local, remote, All(p), Identical, FilesIn(local, All(p)));
        return;
      }
      ListNode(local, remote, p);
      ghost var mid := result;
      CoveredNothing(mid, local, remote, p);
      var keys := Children(local, p) + Children(remote, p);
      var rest, seen: set<Name> := keys, {};
      ChildrenAre(local, p);
      ChildrenAre(remote, p);
      while rest != {}
        invariant rest !! seen && rest + seen == keys
        invariant Covered(mid, result, local, remote, Through(p, seen))
        decreases rest
      {
        var k :| k in rest;
        SmallerBelow(local, remote, p, k);
        ghost var here := result;
        Walk(local, remote, p + [k]);
        CoveredOneKeyMore(mid, here, result, local, remote, p, seen, k);
        rest, seen := rest - {k}, seen + {k};
      }
      assert seen == keys;
      CoveredByParts(old(result), mid, result, local, remote, p);
    }

    /** A node in both trees, with different hashes: what is to be said of the node itself. */
    method ListNode(local: Tree, remote: Tree, p: NodePath)
      requires p in local && p in remote
      modifies this
      ensures forall kind :: Grown(old(result), result, kind, Own(local, remote, kind, p))
    {
      hide Children, Belongs, Grown;
      var isLocalLeaf, isRemoteLeaf := Children(local, p) == {}, Children(remote, p) == {};
      if p == [] {
      } else if isLocalLeaf && isRemoteLeaf {
        if local[p] != remote[p] {
          result := result.Pushed(Changed, p);
        } else {
          result := result.Pushed(Identical, p);
        }
      } else if isLocalLeaf {
        result := result.Pushed(MissingRemotely, p);
      } else if isRemoteLeaf {
        result := result.Pushed(MissingLocally, p);
      }
      forall kind
        ensures Grown(old(result), result, kind, Own(local, remote, kind, p))
      {
        BelongsByLeaf(local, remote, p, kind);
        GrownByNothing(old(result), kind);
        GrownByPush(old(result), Changed, p, kind);
        GrownByPush(old(result), Identical, p, kind);
        GrownByPush(old(result), MissingLocally, p, kind);
        GrownByPush(old(result), MissingRemotely, p, kind);
      }
    }

    /** The four lists are exactly the files in both with equal hashes, in both with different ones, and in
        one only; each file once. */
    method DiffTrees(local: Tree, remote: Tree)
      requires Rooted(local) && Rooted(remote) && Sound(local, remote)
      requires result == DiffResult([], [], [], [])
      modifies this
      ensures forall kind, p :: p in result.Get(kind) <==> Belongs(local, remote, kind, p)
      ensures forall kind :: NoDuplicates(result.Get(kind))
    {
      Walk(local, remote, []);
      forall kind
        ensures forall p :: p in result.Get(kind) <==> Belongs(local, remote, kind, p)
        ensures NoDuplicates(result.Get(kind))
      {
        WholeTree(local, remote, kind);
        assert Grown(old(result), result, kind, Wanted(local, remote, kind, All([])));
        assert result.Get(kind)[0..] == result.Get(kind);
      }
    }
  }

  lemma WholeTree(local: Tree, remote: Tree, kind: Kind)
    ensures forall p :: p in Wanted(local, remote, kind, All([])) <==> Belongs(local, remote, kind, p)
  {}
}
