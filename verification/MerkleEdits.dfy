/**
 Changing one path of a Merkle tree in place (src/main.ts, 808-893), and when that gives the tree a
 full build of the changed vault would have given.
 */
module MerkleEdits {
  import opened Names
  import opened Merkle

  // --- Recomputing ancestors ---

  /** What a node's hash is recomputed to: a node that lost its last child takes the empty form. */
  function Fresh(t: Tree, digest: Digest, p: NodePath): Hash {
    if Children(t, p) == {} then [] else digest(Combined(t, p))
  }

  /** The ancestors of `p` shorter than `i` recomputed, deepest first; those cut off from the tree do not matter. */
  function Refreshed(t: Tree, digest: Digest, p: NodePath, i: nat): Tree
    requires i <= |p|
  {
    if i == 0 then t
    else
      var q := p[..i - 1];
      Refreshed(if q in t then t[q := Fresh(t, digest, q)] else t, digest, p, i - 1)
  }

  predicate IsAbove(q: NodePath, p: NodePath) {
    q <= p && q != p
  }

  lemma FreshSame(t: Tree, u: Tree, digest: Digest, p: NodePath)
    requires t.Keys == u.Keys && forall q | q in t && |q| == |p| + 1 :: t[q] == u[q]
    ensures Fresh(t, digest, p) == Fresh(u, digest, p)
  {
    ChildrenOfSameNodes(t, u, p);
    ChildrenAre(t, p);
    CombinedSame(t, u, p);
  }

  /** From `t` to `u` only the ancestors of `p` shorter than `i` change, and each then has the hash its
      children call for. */
  ghost predicate Refreshes(t: Tree, u: Tree, digest: Digest, p: NodePath, i: nat) {
    && u.Keys == t.Keys
    && (forall q | q in t && !(IsAbove(q, p) && |q| < i) :: u[q] == t[q])
    && (forall q | q in t && IsAbove(q, p) && |q| < i :: u[q] == Fresh(u, digest, q))
  }

  lemma RefreshOneMore(t: Tree, t1: Tree, u: Tree, digest: Digest, p: NodePath, i: nat)
    requires i < |p| && t1 == if p[..i] in t then t[p[..i] := Fresh(t, digest, p[..i])] else t
    requires Refreshes(t1, u, digest, p, i)
    ensures Refreshes(t, u, digest, p, i + 1)
  {
    hide Fresh;
    var n := p[..i];
    assert t1.Keys == t.Keys;
    if n in t {
      FreshSame(t, t1, digest, n);
      FreshSame(t1, u, digest, n);
    }
    forall q | q in t && IsAbove(q, p) && |q| < i + 1
      ensures u[q] == Fresh(u, digest, q)
    {
      assert |q| == i ==> q == n;
    }
  }

  /** Only ancestors change, and each then has the hash its children call for. */
  lemma {:induction false} RefreshedIs(t: Tree, digest: Digest, p: NodePath, i: nat)
    requires i <= |p|
    ensures Refreshes(t, Refreshed(t, digest, p, i), digest, p, i)
  {
    hide Fresh, Refreshes;
    if i > 0 {
      var q := p[..i - 1];
      var t1 := if q in t then t[q := Fresh(t, digest, q)] else t;
      RefreshedIs(t1, digest, p, i - 1);
      RefreshOneMore(t, t1, Refreshed(t1, digest, p, i - 1), digest, p, i - 1);
    } else {
      NothingRefreshed(t, digest, p);
    }
  }

  lemma NothingRefreshed(t: Tree, digest: Digest, p: NodePath)
    ensures Refreshes(t, t, digest, p, 0)
  {}

  // --- A leaf set or removed ---

  /** `p` with its new hash, and the folders above it if they were missing. */
  function Leafed(t: Tree, p: NodePath, hash: Hash): Tree {
    map q | q in t.Keys + Prefixes(p) :: if q == p then hash else if q in t then t[q] else []
  }

  function Updated(t: Tree, digest: Digest, p: NodePath, hash: Hash): Tree {
    Refreshed(Leafed(t, p, hash), digest, p, |p|)
  }

  function CutOff(t: Tree, p: NodePath): Tree {
    t - Below(t, p)
  }

  /** `p` and all below it cut off, and then every folder above that this leaves empty. */
  function Cut(t: Tree, p: NodePath): Tree
    requires p != []
    decreases |p|
  {
    var rest := CutOff(t, p);
    if Parent(p) == [] || Children(rest, Parent(p)) != {} then rest else Cut(rest, Parent(p))
  }

  function Removed(t: Tree, digest: Digest, p: NodePath): Tree
    requires p != []
  {
    if p in t then Refreshed(Cut(t, p), digest, p, |p|) else t
  }

  // --- Setting a leaf ---

  /** Away from the ancestors of `p`, and from `p` itself, both trees have the same nodes and hashes. */
  ghost predicate SameElsewhere(t: Tree, u: Tree, p: NodePath) {
    forall q | !(q <= p) :: (q in t <==> q in u) && (q in t ==> t[q] == u[q])
  }

  lemma OnTheWay(q: NodePath, k: Name, p: NodePath)
    ensures q + [k] <= p ==> IsAbove(q, p)
  {
    assert q <= q + [k];
  }

  lemma ElsewhereSameChildren(t: Tree, u: Tree, p: NodePath, q: NodePath)
    requires SameElsewhere(t, u, p) && !IsAbove(q, p)
    ensures SameChildren(t, u, q)
  {
    ChildrenAre(t, q);
    ChildrenAre(u, q);
    forall k
      ensures q + [k] in t <==> q + [k] in u
      ensures q + [k] in t ==> t[q + [k]] == u[q + [k]]
    {
      OnTheWay(q, k, p);
    }
  }

  /** Below an ancestor of `p`, on the way to `p`, there is a child. */
  lemma AboveHasChild(t: Tree, q: NodePath, p: NodePath)
    requires IsAbove(q, p) && p[..|q| + 1] in t
    ensures Children(t, q) != {}
  {
    ChildrenAre(t, q);
    assert p[..|q| + 1] == q + [p[|q|]];
  }

  lemma LeafedIs(t: Tree, p: NodePath, hash: Hash)
    ensures var l := Leafed(t, p, hash);
      l.Keys == t.Keys + Prefixes(p) && p in l && l[p] == hash && SameElsewhere(t, l, p)
  {
    PrefixesAre(p);
    hide Prefixes;
  }

  lemma ElsewhereVia(t: Tree, l: Tree, u: Tree, digest: Digest, p: NodePath)
    requires SameElsewhere(t, l, p) && Refreshes(l, u, digest, p, |p|)
    ensures SameElsewhere(t, u, p)
  {
    hide Fresh;
  }

  lemma AboveRefreshed(l: Tree, u: Tree, digest: Digest, p: NodePath, q: NodePath)
    requires Refreshes(l, u, digest, p, |p|) && IsAbove(q, p) && q in u && p[..|q| + 1] in u
    ensures Children(u, q) != {} && u[q] == digest(Combined(u, q))
  {
    AboveHasChild(u, q, p);
    assert u[q] == Fresh(u, digest, q);
    hide Children, Combined;
  }

  lemma UpdatedIs(t: Tree, digest: Digest, p: NodePath, hash: Hash)
    ensures var u := Updated(t, digest, p, hash);
      && u.Keys == t.Keys + Prefixes(p) && p in u && u[p] == hash && SameElsewhere(t, u, p)
      && (forall q | IsAbove(q, p) :: q in u && Children(u, q) != {} && u[q] == digest(Combined(u, q)))
  {
    var l, u := Leafed(t, p, hash), Updated(t, digest, p, hash);
    LeafedIs(t, p, hash);
    RefreshedIs(l, digest, p, |p|);
    ElsewhereVia(t, l, u, digest, p);
    assert u.Keys == l.Keys && u[p] == l[p];
    hide Leafed, Updated, Refreshes, SameElsewhere, Children, Combined;
    forall q | IsAbove(q, p)
      ensures q in u && Children(u, q) != {} && u[q] == digest(Combined(u, q))
    {
      InPrefixes(p, q);
      InPrefixes(p, p[..|q| + 1]);
      AboveRefreshed(l, u, digest, p, q);
    }
  }

  lemma InPrefixes(p: NodePath, q: NodePath)
    ensures q <= p ==> q in Prefixes(p)
  {
    PrefixesAre(p);
  }

  lemma NodesAfterUpdate(files: Files, p: NodePath, hash: Hash, q: NodePath)
    ensures IsNode(files[p := hash], q) <==> IsNode(files, q) || q <= p
  {
    if IsNode(files, q) && q != [] {
      var f :| f in files && q <= f;
      assert f in files[p := hash];
    }
    if q <= p { assert p in files[p := hash]; }
  }

  /** A node that is not on the way to `p` is as well hashed after the change as before. */
  lemma ElsewhereHashed(t: Tree, u: Tree, digest: Digest, p: NodePath, q: NodePath)
    requires SameElsewhere(t, u, p) && Hashed(t, digest) && !(q <= p) && q in u
    ensures HashedAt(u, digest, q) && (IsLeaf(u, q) ==> IsLeaf(t, q) && t[q] == u[q])
  {
    ElsewhereSameChildren(t, u, p, q);
    CombinedSame(t, u, q);
    assert q in t && HashedAt(t, digest, q);
  }

  lemma UpdatedHashes(t: Tree, files: Files, digest: Digest, p: NodePath, hash: Hash)
    requires p != [] && Represents(t, files, digest)
    ensures var u := Updated(t, digest, p, hash);
      && p in u && (HashedAt(u, digest, p) <==> Children(t, p) == {} || hash == digest(Combined(t, p)))
      && (HashedAt(u, digest, p) <==> Hashed(u, digest))
  {
    var u := Updated(t, digest, p, hash);
    UpdatedIs(t, digest, p, hash);
    ElsewhereSameChildren(t, u, p, p);
    CombinedSame(t, u, p);
    hide Updated, Combined, Children;
    forall q | q in u && q != p
      ensures HashedAt(u, digest, q)
    {
      if !(q <= p) { ElsewhereHashed(t, u, digest, p, q); }
    }
  }

  lemma UpdatedNodes(t: Tree, files: Files, digest: Digest, p: NodePath, hash: Hash)
    requires p != [] && Represents(t, files, digest)
    ensures var u, files' := Updated(t, digest, p, hash), files[p := hash];
      && (forall q :: q in u <==> IsNode(files', q))
      && forall q | IsLeaf(u, q) :: u[q] == if q in files' then files'[q] else []
  {
    var u, files' := Updated(t, digest, p, hash), files[p := hash];
    UpdatedIs(t, digest, p, hash);
    PrefixesAre(p);
    hide Updated, IsNode, Children, Combined;
    forall q
      ensures q in u <==> IsNode(files', q)
    {
      NodesAfterUpdate(files, p, hash, q);
    }
    forall q | IsLeaf(u, q)
      ensures u[q] == if q in files' then files'[q] else []
    {
      if !(q <= p) { ElsewhereHashed(t, u, digest, p, q); }
    }
  }

  /** Setting a leaf in place, on a tree that was up to date, leaves every node hashed but `p`. */
  lemma UpdatedRepresents(t: Tree, files: Files, digest: Digest, p: NodePath, hash: Hash)
    requires p != [] && Represents(t, files, digest)
    ensures Represents(Updated(t, digest, p, hash), files[p := hash], digest)
      <==> (Children(t, p) == {} || hash == digest(Combined(t, p)))
  {
    UpdatedHashes(t, files, digest, p, hash);
    UpdatedNodes(t, files, digest, p, hash);
    hide Updated, IsNode, Children, Combined, Hashed;
  }

  /** Setting a leaf in place gives the tree of the changed vault exactly if no other node lies below it, or
      its hash happens to be theirs. */
  lemma UpdateIsRebuildIffLeaf(files: Files, digest: Digest, p: NodePath, hash: Hash)
    requires p != []
    ensures var t := Built(files, digest);
      Updated(t, digest, p, hash) == Built(files[p := hash], digest)
      <==> (Children(t, p) == {} || hash == digest(Combined(t, p)))
  {
    BuiltRepresents(files, digest);
    UpdatedRepresents(Built(files, digest), files, digest, p, hash);
    BuiltIffRepresents(Updated(Built(files, digest), digest, p, hash), files[p := hash], digest);
  }

  // --- Removing a path ---

  /** No file lies inside another. */
  ghost predicate PrefixFree(files: Files) {
    [] !in files && forall f, g | f in files && g in files && f <= g :: f == g
  }

  /** `p` is a folder of the vault, with something in it. */
  ghost predicate IsFolder(files: Files, p: NodePath) {
    exists f :: f in files && IsAbove(p, f)
  }

  /** The vault without `p` and without all that is inside `p`. */
  function Outside(files: Files, p: NodePath): Files {
    map f | f in files && !(p <= f) :: files[f]
  }

  /** Neither on the way to `p` nor below `p` do the trees differ. */
  ghost predicate SameBeside(t: Tree, u: Tree, p: NodePath) {
    forall q | !(q <= p) && !(p <= q) :: (q in t <==> q in u) && (q in t ==> t[q] == u[q])
  }

  lemma BesideSameChildren(t: Tree, u: Tree, p: NodePath, q: NodePath)
    requires SameBeside(t, u, p) && !(q <= p) && !(p <= q)
    ensures SameChildren(t, u, q)
  {
    ChildrenAre(t, q);
    ChildrenAre(u, q);
    forall k
      ensures q + [k] in t <==> q + [k] in u
      ensures q + [k] in t ==> t[q + [k]] == u[q + [k]]
    {
      OnTheWay(q, k, p);
      assert p <= q + [k] ==> p <= q || p == q + [k];
    }
  }

  /** A node beside the path to `p` is as well hashed after the change as before. */
  lemma BesideHashed(t: Tree, u: Tree, digest: Digest, p: NodePath, q: NodePath)
    requires SameBeside(t, u, p) && Hashed(t, digest) && !(q <= p) && !(p <= q) && q in u
    ensures HashedAt(u, digest, q) && (IsLeaf(u, q) ==> IsLeaf(t, q) && t[q] == u[q])
  {
    BesideSameChildren(t, u, p, q);
    CombinedSame(t, u, q);
    assert q in t && HashedAt(t, digest, q);
  }

  lemma NodesUpward(files: Files, p: NodePath, q: NodePath)
    requires IsNode(files, q) && p <= q
    ensures IsNode(files, p)
  {
    if p != [] {
      var f :| f in files && q <= f;
      assert p <= f;
    }
  }

  lemma FolderHasChild(files: Files, p: NodePath)
    requires IsNode(files, p) && p != [] && p !in files
    ensures exists k :: IsNode(files, p + [k])
  {
    var f :| f in files && p <= f;
    assert p != f && p < f;
    assert p + [f[|p|]] <= f;
  }

  /** A chain of empty folders down to `p` is cut back to the nodes the remaining files need. */
  lemma {:induction false} CutBack(t: Tree, p: NodePath, files: Files)
    requires p != [] && !IsNode(files, p)
    requires forall q | !(p <= q) :: q in t <==> IsNode(files, q) || q <= p
    requires forall q | IsAbove(q, p) :: q !in files
    ensures forall q :: q in Cut(t, p) <==> IsNode(files, q)
    ensures forall q | q in Cut(t, p) :: q in t && Cut(t, p)[q] == t[q]
    decreases |p|
  {
    var rest, up := CutOff(t, p), Parent(p);
    forall q
      ensures q in rest <==> IsNode(files, q) || q <= up
    {
      if p <= q && IsNode(files, q) { NodesUpward(files, p, q); }
      if q <= p && !(p <= q) { assert q <= up; }
      if q <= up { assert q <= up <= p; }
    }
    ChildrenAre(rest, up);
    if up != [] {
      if Children(rest, up) == {} {
        if IsNode(files, up) { FolderHasChild(files, up); }
        CutBack(rest, up, files);
      } else {
        var k :| k in Children(rest, up);
        forall q | q <= up ensures IsNode(files, q) { NodesUpward(files, q, up + [k]); }
      }
    }
  }

  lemma NodesOutside(files: Files, p: NodePath, q: NodePath)
    requires IsNode(files, p) && p != []
    ensures p <= q ==> !IsNode(Outside(files, p), q)
    ensures !(p <= q) ==> (IsNode(files, q) <==> IsNode(Outside(files, p), q) || q <= p)
  {
    forall f | f in Outside(files, p) && p <= q
      ensures !(q <= f)
    {
      assert q <= f ==> p <= f;
    }
    if !(p <= q) && IsNode(files, q) && q != [] {
      var f :| f in files && q <= f;
      if p <= f {
        assert q <= p;
      } else {
        assert f in Outside(files, p);
      }
    }
    if q <= p { NodesUpward(files, q, p); }
  }

  lemma NoFileAbove(files: Files, p: NodePath, q: NodePath)
    requires PrefixFree(files) && IsNode(files, p) && IsAbove(q, p)
    ensures q !in files
  {
    var f :| f in files && p <= f;
    assert q <= f;
  }

  lemma CutRepresents(t: Tree, files: Files, digest: Digest, p: NodePath)
    requires PrefixFree(files) && p != [] && p in t && Represents(t, files, digest)
    ensures forall q :: q in Cut(t, p) <==> IsNode(Outside(files, p), q)
    ensures SameBeside(t, Cut(t, p), p)
  {
    hide IsNode, PrefixFree, Cut;
    var less := Outside(files, p);
    forall q
      ensures p <= q ==> !IsNode(less, q)
      ensures !(p <= q) ==> (q in t <==> IsNode(less, q) || q <= p)
    {
      NodesOutside(files, p, q);
    }
    forall q | IsAbove(q, p) ensures q !in less { NoFileAbove(files, p, q); }
    CutBack(t, p, less);
  }

  /** Cutting drops the node and all below it, and adds nothing. */
  lemma {:induction false} CutDrops(t: Tree, p: NodePath)
    requires p != []
    ensures Cut(t, p).Keys <= t.Keys && forall q | p <= q :: q !in Cut(t, p)
    decreases |p|
  {
    var rest := CutOff(t, p);
    assert forall q | p <= q :: q in t ==> q in Below(t, p);
    if Parent(p) != [] && Children(rest, Parent(p)) == {} {
      CutDrops(rest, Parent(p));
    }
  }

  lemma RemovedIs(t: Tree, files: Files, digest: Digest, p: NodePath)
    requires PrefixFree(files) && p != [] && p in t && Represents(t, files, digest)
    ensures var u := Removed(t, digest, p);
      && (forall q :: q in u <==> IsNode(Outside(files, p), q)) && (forall q | p <= q :: q !in u) && SameBeside(t, u, p)
      && forall q | q in u && q <= p :: u[q] == Fresh(u, digest, q)
  {
    CutRepresents(t, files, digest, p);
    CutDrops(t, p);
    assert Removed(t, digest, p) == Refreshed(Cut(t, p), digest, p, |p|);
    assert p <= p;
    RefreshedBeside(t, Cut(t, p), digest, p);
    hide Represents, Refreshed, Cut, Fresh, IsNode, Removed, Children, PrefixFree, SameBeside;
  }

  lemma RefreshedBeside(t: Tree, c: Tree, digest: Digest, p: NodePath)
    requires SameBeside(t, c, p) && p !in c
    ensures var u := Refreshed(c, digest, p, |p|);
      u.Keys == c.Keys && SameBeside(t, u, p) && forall q | q in u && q <= p :: u[q] == Fresh(u, digest, q)
  {
    RefreshedIs(c, digest, p, |p|);
    BesideVia(t, c, Refreshed(c, digest, p, |p|), digest, p);
    hide Refreshed, Fresh, SameBeside;
  }

  lemma BesideVia(t: Tree, c: Tree, u: Tree, digest: Digest, p: NodePath)
    requires SameBeside(t, c, p) && Refreshes(c, u, digest, p, |p|)
    ensures SameBeside(t, u, p)
  {
    hide Fresh;
  }

  /** Removing a path in place gives a tree that represents the vault outside it. */
  lemma RemovedRepresents(t: Tree, files: Files, digest: Digest, p: NodePath)
    requires PrefixFree(files) && p != [] && p in t && Represents(t, files, digest)
    ensures Represents(Removed(t, digest, p), Outside(files, p), digest)
  {
    var u, less := Removed(t, digest, p), Outside(files, p);
    RemovedIs(t, files, digest, p);
    hide IsNode, Removed, Combined, Children, PrefixFree, HashedAt, SameBeside, Fresh;
    forall q | q in u
      ensures HashedAt(u, digest, q)
      ensures IsLeaf(u, q) ==> u[q] == if q in less then less[q] else []
    {
      if q <= p {
        assert q != p;
        NoFileAbove(files, p, q);
        AncestorHashed(u, digest, q);
      } else {
        BesideHashed(t, u, digest, p, q);
      }
    }
    NodesAndLeaves(u, less, digest);
    hide Represents;
  }

  lemma NodesAndLeaves(t: Tree, files: Files, digest: Digest)
    requires forall p | p in t :: HashedAt(t, digest, p)
    requires forall p :: p in t <==> IsNode(files, p)
    requires forall p | IsLeaf(t, p) :: t[p] == if p in files then files[p] else []
    ensures Represents(t, files, digest)
  {}

  lemma AncestorHashed(u: Tree, digest: Digest, q: NodePath)
    requires q in u && u[q] == Fresh(u, digest, q)
    ensures HashedAt(u, digest, q) && (IsLeaf(u, q) ==> u[q] == [])
  {}

  /** Removing a path in place removes what is inside it too: the tree of the vault outside the path. */
  lemma RemovalRebuildsOutside(files: Files, digest: Digest, p: NodePath)
    requires PrefixFree(files) && p != []
    ensures Removed(Built(files, digest), digest, p) == Built(Outside(files, p), digest)
  {
    var t := Built(files, digest);
    BuiltRepresents(files, digest);
    hide Built, PrefixFree;
    if p in t {
      RemovedRepresents(t, files, digest, p);
      BuiltIffRepresents(Removed(t, digest, p), Outside(files, p), digest);
    } else {
      assert Outside(files, p) == files;
    }
  }

  /** That is the tree of the vault without the path itself exactly if the path is not a folder with something in it. */
  lemma RemovalIsRebuildIffNotFolder(files: Files, digest: Digest, p: NodePath)
    requires PrefixFree(files) && p != []
    ensures Removed(Built(files, digest), digest, p) == Built(files - {p}, digest) <==> !IsFolder(files, p)
  {
    RemovalRebuildsOutside(files, digest, p);
    hide Removed, Built, PrefixFree, Outside;
    if IsFolder(files, p) {
      InsideIsLost(files, digest, p);
    } else {
      NothingInside(files, p);
    }
  }

  lemma NothingInside(files: Files, p: NodePath)
    requires !IsFolder(files, p)
    ensures Outside(files, p) == files - {p}
  {}

  lemma InsideIsLost(files: Files, digest: Digest, p: NodePath)
    requires IsFolder(files, p)
    ensures Built(Outside(files, p), digest) != Built(files - {p}, digest)
  {
    hide Built, Represents, Nodes;
    var f :| f in files && IsAbove(p, f);
    BuiltRepresents(files - {p}, digest);
    BuiltRepresents(Outside(files, p), digest);
    NodesAre(files - {p});
    NodesAre(Outside(files, p));
    assert IsNode(files - {p}, f) by { assert f in files - {p}; }
    assert !IsNode(Outside(files, p), f);
  }

  // --- Every change keeps the parents of all nodes ---

  lemma {:induction false} RootedUpward(t: Tree, p: NodePath, i: nat)
    requires Rooted(t) && i <= |p| && p in t
    ensures p[..i] in t
    decreases |p|
  {
    if i < |p| {
      RootedUpward(t, Parent(p), i);
      assert Parent(p)[..i] == p[..i];
    } else {
      assert p[..i] == p;
    }
  }

  lemma BuiltIsRooted(files: Files, digest: Digest)
    ensures Rooted(Built(files, digest))
  {
    SkeletonIsRooted(files);
    BuiltRepresents(files, digest);
    assert Built(files, digest).Keys == Skeleton(files).Keys;
  }

  lemma UpdatedIsRooted(t: Tree, digest: Digest, p: NodePath, hash: Hash)
    requires Rooted(t)
    ensures Rooted(Updated(t, digest, p, hash))
  {
    UpdatedIs(t, digest, p, hash);
    PrefixesAre(p);
    hide Updated, Children, Combined, Prefixes;
    var u := Updated(t, digest, p, hash);
    forall q | q in u && q != []
      ensures Parent(q) in u
    {
      assert Parent(q) <= q;
      assert q <= p ==> Parent(q) <= p;
    }
  }

  lemma CutOffIsRooted(t: Tree, p: NodePath)
    requires Rooted(t) && p != []
    ensures Rooted(CutOff(t, p))
  {
    forall q | q in CutOff(t, p) && q != []
      ensures Parent(q) in CutOff(t, p)
    {
      assert p <= Parent(q) ==> p <= q;
    }
  }

  lemma {:induction false} CutIsRooted(t: Tree, p: NodePath)
    requires Rooted(t) && p != []
    ensures Rooted(Cut(t, p))
    decreases |p|
  {
    var rest := CutOff(t, p);
    CutOffIsRooted(t, p);
    if Parent(p) != [] && Children(rest, Parent(p)) == {} { CutIsRooted(rest, Parent(p)); }
  }

  lemma RemovedNodes(t: Tree, digest: Digest, p: NodePath)
    requires p != []
    ensures Removed(t, digest, p).Keys == if p in t then Cut(t, p).Keys else t.Keys
  {
    if p in t { RefreshedIs(Cut(t, p), digest, p, |p|); }
    hide Cut, Refreshed, Fresh;
  }

  lemma RemovedIsRooted(t: Tree, digest: Digest, p: NodePath)
    requires Rooted(t) && p != []
    ensures Rooted(Removed(t, digest, p))
  {
    RemovedNodes(t, digest, p);
    hide Removed;
    if p in t { CutIsRooted(t, p); }
    hide Cut;
    var u := Removed(t, digest, p);
    forall q | q in u && q != []
      ensures Parent(q) in u
    {
      assert q in u.Keys;
    }
    assert [] in u.Keys;
  }
}
