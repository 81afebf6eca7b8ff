/**
 Folding a list of changed paths into a Merkle tree (src/main.ts, 808-834). Paths are told of in the
 order they changed in, folders among them, so the fold can cut off a live file or leave an old one
 standing; here is exactly when it gives the tree of the changed vault.
 */
module MerkleDirty {
  import opened Basics
  import opened Names
  import opened Merkle
  import opened MerkleEdits

  /** One changed path: its leaf set to what the vault now holds there, or removed. */
  function ApplyOne(t: Tree, digest: Digest, vault: Files, p: NodePath): Tree
    requires p != []
  {
    if p in vault then Updated(t, digest, p, vault[p]) else Removed(t, digest, p)
  }

  function ApplyAll(t: Tree, digest: Digest, vault: Files, paths: seq<NodePath>): Tree
    requires [] !in paths
    decreases paths
  {
    if paths == [] then t
    else
      assert paths[0] in paths;
      ApplyAll(ApplyOne(t, digest, vault, paths[0]), digest, vault, paths[1..])
  }

  predicate Agree(files: Files, vault: Files, p: NodePath) {
    (p in files <==> p in vault) && (p in files ==> files[p] == vault[p])
  }

  /** No path is listed twice, and where the vaults differ is listed. */
  ghost predicate Lists(files: Files, vault: Files, paths: seq<NodePath>) {
    [] !in paths && NoDuplicates(paths) && forall p | p !in paths :: Agree(files, vault, p)
  }

  ghost predicate ListedAfter(paths: seq<NodePath>, i: int, v: NodePath) {
    exists j :: i < j < |paths| && 0 <= j && paths[j] == v
  }

  ghost predicate ClearedBefore(paths: seq<NodePath>, i: int, f: NodePath) {
    exists j :: 0 <= j < i && j < |paths| && paths[j] <= f
  }

  /** Each file that is now inside a listed path is listed after it. */
  ghost predicate InsideLater(vault: Files, paths: seq<NodePath>) {
    forall i, v | 0 <= i < |paths| && v in vault && IsAbove(paths[i], v) :: ListedAfter(paths, i, v)
  }

  /** Before a listed path that now is a file, each file that was inside it is listed, or a folder around that. */
  ghost predicate ClearedFirst(files: Files, vault: Files, paths: seq<NodePath>) {
    forall i, f | 0 <= i < |paths| && paths[i] in vault && f in files && IsAbove(paths[i], f) ::
      ClearedBefore(paths, i, f)
  }

  ghost predicate FoldsRight(files: Files, vault: Files, paths: seq<NodePath>) {
    InsideLater(vault, paths) && ClearedFirst(files, vault, paths)
  }

  // --- Under the condition the fold is a rebuild ---

  /** What the tree then stands for: `files` with the vault's file at `p`, or with nothing at `p` and inside. */
  function Folded(files: Files, vault: Files, p: NodePath): Files {
    if p in vault then files[p := vault[p]] else Outside(files, p)
  }

  lemma NodeBelowIsFolder(files: Files, p: NodePath, k: Name)
    requires IsNode(files, p + [k])
    ensures IsFolder(files, p)
  {
    var f :| f in files && p + [k] <= f;
    assert p <= p + [k];
    assert IsAbove(p, f);
  }

  lemma NoFolderNoChildren(files: Files, digest: Digest, p: NodePath)
    requires !IsFolder(files, p)
    ensures Children(Built(files, digest), p) == {}
  {
    var t := Built(files, digest);
    BuiltRepresents(files, digest);
    ChildrenAre(t, p);
    forall k ensures IsNode(files, p + [k]) ==> IsFolder(files, p) {
      if IsNode(files, p + [k]) { NodeBelowIsFolder(files, p, k); }
    }
  }

  lemma ApplyOneRebuilds(files: Files, vault: Files, digest: Digest, p: NodePath)
    requires PrefixFree(files) && p != [] && (p in vault ==> !IsFolder(files, p))
    ensures ApplyOne(Built(files, digest), digest, vault, p) == Built(Folded(files, vault, p), digest)
  {
    hide Built, Updated, Removed;
    if p in vault {
      NoFolderNoChildren(files, digest, p);
      UpdateIsRebuildIffLeaf(files, digest, p, vault[p]);
    } else {
      RemovalRebuildsOutside(files, digest, p);
    }
  }

  lemma DistinctTail(paths: seq<NodePath>)
    requires paths != [] && NoDuplicates(paths)
    ensures paths[0] !in paths[1..] && NoDuplicates(paths[1..])
  {}

  lemma InTail(paths: seq<NodePath>, q: NodePath)
    requires paths != [] && q in paths && q != paths[0]
    ensures q in paths[1..]
  {}

  lemma ListedFirst(paths: seq<NodePath>, v: NodePath)
    requires paths != []
    ensures ListedAfter(paths, 0, v) <==> v in paths[1..]
  {
    if v in paths[1..] {
      var j :| 0 <= j < |paths[1..]| && paths[1..][j] == v;
      assert paths[j + 1] == v;
    }
  }

  lemma ListedNext(paths: seq<NodePath>, i: nat, v: NodePath)
    requires paths != []
    ensures ListedAfter(paths[1..], i, v) <==> ListedAfter(paths, i + 1, v)
  {
    var rest := paths[1..];
    if ListedAfter(rest, i, v) {
      var j :| i < j < |rest| && rest[j] == v;
      assert paths[j + 1] == v;
    }
    if ListedAfter(paths, i + 1, v) {
      var j :| i + 1 < j < |paths| && paths[j] == v;
      assert rest[j - 1] == v;
    }
  }

  lemma ClearedNext(paths: seq<NodePath>, i: nat, f: NodePath)
    requires paths != [] && !(paths[0] <= f)
    ensures ClearedBefore(paths[1..], i, f) <==> ClearedBefore(paths, i + 1, f)
  {
    var rest := paths[1..];
    if ClearedBefore(rest, i, f) {
      var j :| 0 <= j < i && j < |rest| && rest[j] <= f;
      assert paths[j + 1] <= f;
    }
    if ClearedBefore(paths, i + 1, f) {
      var j :| 0 <= j < i + 1 && j < |paths| && paths[j] <= f;
      assert rest[j - 1] <= f;
    }
  }

  lemma NotListedAgain(paths: seq<NodePath>, i: nat)
    requires paths != [] && NoDuplicates(paths)
    ensures !ListedAfter(paths, i, paths[0])
  {}

  /** A file that is no more stands above `p` only if it is listed, and then `p` is listed after it. */
  lemma NoOldFileAbove(files: Files, vault: Files, paths: seq<NodePath>, f: NodePath)
    requires PrefixFree(vault) && Lists(files, vault, paths) && paths != [] && InsideLater(vault, paths)
    requires f in files && paths[0] in vault
    ensures !IsAbove(f, paths[0])
  {
    if f in paths {
      var i :| 0 <= i < |paths| && paths[i] == f;
      NotListedAgain(paths, i);
    } else {
      assert Agree(files, vault, f);
    }
  }

  lemma FoldedPrefixFree(files: Files, vault: Files, paths: seq<NodePath>)
    requires PrefixFree(files) && PrefixFree(vault) && Lists(files, vault, paths) && paths != []
    requires InsideLater(vault, paths) && (paths[0] in vault ==> !IsFolder(files, paths[0]))
    ensures PrefixFree(Folded(files, vault, paths[0]))
  {
    var p := paths[0];
    if p in vault {
      forall f | f in files
        ensures !IsAbove(f, p) && !IsAbove(p, f)
      {
        NoOldFileAbove(files, vault, paths, f);
      }
    }
  }

  lemma AgreeAfterOne(files: Files, vault: Files, paths: seq<NodePath>, q: NodePath)
    requires Lists(files, vault, paths) && paths != [] && InsideLater(vault, paths) && q !in paths[1..]
    ensures Agree(Folded(files, vault, paths[0]), vault, q)
  {
    var p := paths[0];
    if q == p {
      assert p <= p;
    } else {
      if q in paths { InTail(paths, q); }
      assert Agree(files, vault, q);
      ListedFirst(paths, q);
      assert q in vault ==> !IsAbove(paths[0], q);
    }
  }

  lemma InsideLaterTail(vault: Files, paths: seq<NodePath>)
    requires paths != [] && InsideLater(vault, paths)
    ensures InsideLater(vault, paths[1..])
  {
    var rest := paths[1..];
    forall i, v | 0 <= i < |rest| && v in vault && IsAbove(rest[i], v)
      ensures ListedAfter(rest, i, v)
    {
      assert IsAbove(paths[i + 1], v);
      ListedNext(paths, i, v);
    }
  }

  lemma TwoAround(vault: Files, p: NodePath, v: NodePath, f: NodePath)
    requires PrefixFree(vault) && p in vault && v in vault && p != v && v <= f
    ensures !(p <= f)
  {
    assert p <= f ==> p <= v || v <= p;
  }

  lemma ClearedFirstTail(files: Files, vault: Files, paths: seq<NodePath>)
    requires PrefixFree(vault) && paths != [] && NoDuplicates(paths) && ClearedFirst(files, vault, paths)
    ensures ClearedFirst(Folded(files, vault, paths[0]), vault, paths[1..])
  {
    var p, rest := paths[0], paths[1..];
    forall i, f | 0 <= i < |rest| && rest[i] in vault && f in Folded(files, vault, p) && IsAbove(rest[i], f)
      ensures ClearedBefore(rest, i, f)
    {
      assert rest[i] == paths[i + 1];
      assert f in files;
      assert !(p <= f) by { if p in vault { TwoAround(vault, p, rest[i], f); } }
      ClearedNext(paths, i, f);
    }
  }

  lemma SameFiles(files: Files, vault: Files)
    requires forall p :: Agree(files, vault, p)
    ensures files == vault
  {
    forall p ensures (p in files <==> p in vault) && (p in files ==> files[p] == vault[p]) {
      assert Agree(files, vault, p);
    }
  }

  lemma OneFolds(files: Files, vault: Files, digest: Digest, paths: seq<NodePath>)
    requires PrefixFree(files) && PrefixFree(vault) && Lists(files, vault, paths) && FoldsRight(files, vault, paths)
    requires paths != []
    ensures paths[0] != []
    ensures ApplyOne(Built(files, digest), digest, vault, paths[0]) == Built(Folded(files, vault, paths[0]), digest)
    ensures PrefixFree(Folded(files, vault, paths[0]))
  {
    var p := paths[0];
    assert p in paths;
    forall f | f in files ensures p in vault ==> !IsAbove(p, f) { assert !ClearedBefore(paths, 0, f); }
    hide PrefixFree, Lists, FoldsRight, ApplyOne, Built, Folded;
    FoldedPrefixFree(files, vault, paths);
    ApplyOneRebuilds(files, vault, digest, p);
  }

  lemma {:induction false} FoldRebuilds(files: Files, vault: Files, digest: Digest, paths: seq<NodePath>)
    requires PrefixFree(files) && PrefixFree(vault) && Lists(files, vault, paths) && FoldsRight(files, vault, paths)
    ensures ApplyAll(Built(files, digest), digest, vault, paths) == Built(vault, digest)
    decreases paths
  {
    hide PrefixFree, Built, ApplyOne, InsideLater, ClearedFirst, Folded;
    if paths == [] {
      forall p ensures Agree(files, vault, p) { assert p !in paths; }
      SameFiles(files, vault);
    } else {
      var p, rest := paths[0], paths[1..];
      var folded := Folded(files, vault, p);
      OneFolds(files, vault, digest, paths);
      DistinctTail(paths);
      InsideLaterTail(vault, paths);
      ClearedFirstTail(files, vault, paths);
      forall q | q !in rest ensures Agree(folded, vault, q) { AgreeAfterOne(files, vault, paths, q); }
      FoldRebuilds(folded, vault, digest, rest);
    }
  }

  // --- Without it a file of the vault is lost ---

  lemma UpdateKeepsInner(t: Tree, digest: Digest, p: NodePath, hash: Hash, v: NodePath)
    requires !(v <= p) && !IsLeaf(t, v)
    ensures !IsLeaf(Updated(t, digest, p, hash), v)
  {
    var u := Updated(t, digest, p, hash);
    UpdatedIs(t, digest, p, hash);
    hide Updated, Combined, Prefixes;
    ChildrenAre(t, v);
    ChildrenAre(u, v);
    hide Children;
    if v in u {
      var k :| k in Children(t, v);
      assert v + [k] in u.Keys;
    }
  }

  /** Cutting never makes a leaf of a folder: a folder that loses its last child goes too. */
  lemma {:induction false} CutKeepsInner(t: Tree, p: NodePath, v: NodePath)
    requires p != [] && v != [] && !IsLeaf(t, v)
    ensures !IsLeaf(Cut(t, p), v)
    decreases |p|
  {
    var rest, up := CutOff(t, p), Parent(p);
    ChildrenAre(t, v);
    ChildrenAre(rest, v);
    hide Children;
    if up == v {
      if Children(rest, v) == {} { CutDrops(rest, v); }
    } else {
      if v in rest {
        var k :| k in Children(t, v);
        assert p <= v + [k] ==> p <= v || p == v + [k];
        assert Parent(v + [k]) == v;
        assert v + [k] in rest;
      }
      if up != [] && Children(rest, up) == {} { CutKeepsInner(rest, up, v); }
    }
  }

  lemma RemovalKeepsInner(t: Tree, digest: Digest, p: NodePath, v: NodePath)
    requires p != [] && v != [] && !IsLeaf(t, v)
    ensures !IsLeaf(Removed(t, digest, p), v)
  {
    if p in t {
      CutKeepsInner(t, p, v);
      RemovedNodes(t, digest, p);
      ChildrenOfSameNodes(Removed(t, digest, p), Cut(t, p), v);
      hide Removed, Cut, Children;
      assert v in Removed(t, digest, p).Keys <==> v in Cut(t, p).Keys;
    }
  }

  lemma ApplyOneRooted(t: Tree, digest: Digest, vault: Files, p: NodePath)
    requires Rooted(t) && p != []
    ensures Rooted(ApplyOne(t, digest, vault, p))
  {
    hide Rooted, Updated, Removed;
    if p in vault {
      UpdatedIsRooted(t, digest, p, vault[p]);
    } else {
      RemovedIsRooted(t, digest, p);
    }
  }

  /** A file of the vault that is no leaf of the tree, and is not to be told of again, becomes none. */
  lemma {:induction false} LostStays(t: Tree, digest: Digest, vault: Files, paths: seq<NodePath>, v: NodePath)
    requires [] !in paths && PrefixFree(vault) && v in vault && v !in paths && !IsLeaf(t, v)
    ensures !IsLeaf(ApplyAll(t, digest, vault, paths), v)
    decreases paths
  {
    hide IsLeaf, Updated, Removed;
    if paths != [] {
      var p := paths[0];
      assert p in paths;
      if p in vault {
        UpdateKeepsInner(t, digest, p, vault[p], v);
      } else {
        RemovalKeepsInner(t, digest, p, v);
      }
      LostStays(ApplyOne(t, digest, vault, p), digest, vault, paths[1..], v);
    }
  }

  lemma NothingInsideMissing(t: Tree, p: NodePath, v: NodePath)
    requires Rooted(t) && p !in t && p <= v
    ensures v !in t
  {
    assert v[..|p|] == p;
    if v in t { RootedUpward(t, v, |p|); }
  }

  lemma RemovalDropsInside(t: Tree, digest: Digest, p: NodePath, v: NodePath)
    requires Rooted(t) && p != [] && p <= v
    ensures v !in Removed(t, digest, p)
  {
    RemovedNodes(t, digest, p);
    if p in t {
      CutDrops(t, p);
      hide Removed, Cut;
      assert v !in Removed(t, digest, p).Keys;
    } else {
      NothingInsideMissing(t, p, v);
    }
  }

  /** A live file inside a removed path is cut off with it, and is not told of again. */
  lemma {:induction false} InsideIsCutOff(t: Tree, digest: Digest, vault: Files, paths: seq<NodePath>, i: nat,
          v: NodePath)
    requires Rooted(t) && [] !in paths && PrefixFree(vault)
    requires i < |paths| && v in vault && IsAbove(paths[i], v) && !ListedAfter(paths, i, v)
    ensures !IsLeaf(ApplyAll(t, digest, vault, paths), v)
    decreases paths
  {
    hide Rooted, Updated, Removed, IsLeaf;
    var p, rest := paths[0], paths[1..];
    assert p in paths;
    var u := ApplyOne(t, digest, vault, p);
    if i == 0 {
      ListedFirst(paths, v);
      RemovalDropsInside(t, digest, p, v);
      assert !IsLeaf(u, v) by { NoNodeNoLeaf(u, v); }
      LostStays(u, digest, vault, rest, v);
    } else {
      ApplyOneRooted(t, digest, vault, p);
      ListedNext(paths, i - 1, v);
      InsideIsCutOff(u, digest, vault, rest, i - 1, v);
    }
  }

  lemma NoNodeNoLeaf(t: Tree, v: NodePath)
    requires v !in t
    ensures !IsLeaf(t, v)
  {}

  lemma HasChildOnTheWay(t: Tree, q: NodePath, p: NodePath)
    requires Rooted(t) && IsAbove(q, p) && p in t
    ensures Children(t, q) != {} && !IsLeaf(t, q)
  {
    RootedUpward(t, p, |q| + 1);
    AboveHasChild(t, q, p);
  }

  lemma NothingBelowChildless(t: Tree, q: NodePath, p: NodePath)
    requires Rooted(t) && Children(t, q) == {} && p in t
    ensures !IsAbove(q, p)
  {
    if IsAbove(q, p) { HasChildOnTheWay(t, q, p); }
  }

  /** Cutting elsewhere leaves a node standing. */
  lemma {:induction false} CutKeepsBeside(t: Tree, p: NodePath, f: NodePath)
    requires Rooted(t) && p != [] && f in t && !(p <= f) && !(f <= p)
    ensures f in Cut(t, p)
    decreases |p|
  {
    var rest, up := CutOff(t, p), Parent(p);
    CutOffIsRooted(t, p);
    if up != [] && Children(rest, up) == {} {
      assert f <= up ==> f <= p;
      assert up <= up;
      NothingBelowChildless(rest, up, f);
      CutKeepsBeside(rest, up, f);
    }
  }

  lemma UpdateKeepsLeaf(t: Tree, digest: Digest, p: NodePath, hash: Hash, f: NodePath)
    requires IsLeaf(t, f) && !(f <= p)
    ensures IsLeaf(Updated(t, digest, p, hash), f)
  {
    var u := Updated(t, digest, p, hash);
    UpdatedIs(t, digest, p, hash);
    ElsewhereSameChildren(t, u, p, f);
    hide Updated, Combined, Prefixes;
    assert f in u.Keys;
  }

  lemma RemovalKeepsLeaf(t: Tree, digest: Digest, p: NodePath, f: NodePath)
    requires Rooted(t) && IsLeaf(t, f) && p != [] && !(p <= f)
    ensures IsLeaf(Removed(t, digest, p), f)
  {
    if p in t {
      if f <= p { HasChildOnTheWay(t, f, p); }
      CutKeepsBeside(t, p, f);
      CutDrops(t, p);
      RemovedNodes(t, digest, p);
      var u := Removed(t, digest, p);
      hide Removed, Cut;
      ChildrenAre(t, f);
      ChildrenAre(u, f);
      assert f in u.Keys && u.Keys <= t.Keys;
      forall k ensures k !in Children(u, f) { assert f + [k] in u ==> f + [k] in t.Keys; }
    }
  }

  /** A leaf stays one while nothing around it is removed and nothing at or inside it is set. */
  lemma LeafStays(t: Tree, digest: Digest, vault: Files, p: NodePath, f: NodePath)
    requires Rooted(t) && IsLeaf(t, f) && p != [] && !(p <= f) && (p in vault ==> !(f <= p))
    ensures IsLeaf(ApplyOne(t, digest, vault, p), f)
  {
    hide Updated, Removed, IsLeaf, Rooted;
    if p in vault {
      UpdateKeepsLeaf(t, digest, p, vault[p], f);
    } else {
      RemovalKeepsLeaf(t, digest, p, f);
    }
  }

  lemma SetAbove(t: Tree, digest: Digest, vault: Files, p: NodePath, f: NodePath)
    requires Rooted(t) && f in t && p in vault && p != [] && IsAbove(p, f)
    ensures !IsLeaf(ApplyOne(t, digest, vault, p), p)
  {
    ApplyOneRooted(t, digest, vault, p);
    UpdatedIs(t, digest, p, vault[p]);
    hide Updated, Rooted, IsLeaf;
    var u := ApplyOne(t, digest, vault, p);
    assert f in u.Keys;
    HasChildOnTheWay(u, p, f);
  }

  /** An old file that was not removed in time makes a folder of the file set over it. */
  lemma {:induction false} OldFileStands(t: Tree, digest: Digest, vault: Files, paths: seq<NodePath>, i: nat,
          f: NodePath)
    requires Rooted(t) && [] !in paths && PrefixFree(vault) && NoDuplicates(paths) && IsLeaf(t, f)
    requires i < |paths| && paths[i] in vault && IsAbove(paths[i], f) && !ClearedBefore(paths, i, f)
    ensures !IsLeaf(ApplyAll(t, digest, vault, paths), paths[i])
    decreases paths
  {
    hide Rooted, Updated, Removed, ApplyOne;
    var p, rest, v := paths[0], paths[1..], paths[i];
    assert p in paths;
    DistinctTail(paths);
    var u := ApplyOne(t, digest, vault, p);
    if i == 0 {
      SetAbove(t, digest, vault, p, f);
      LostStays(u, digest, vault, rest, v);
    } else {
      ApplyOneRooted(t, digest, vault, p);
      assert !(p <= f);
      assert f <= p ==> v <= p;
      LeafStays(t, digest, vault, p, f);
      assert rest[i - 1] == v;
      ClearedNext(paths, i - 1, f);
      OldFileStands(u, digest, vault, rest, i - 1, f);
    }
  }

  lemma FileIsLeaf(files: Files, digest: Digest, f: NodePath)
    requires PrefixFree(files) && f in files
    ensures IsLeaf(Built(files, digest), f)
  {
    NoFolderNoChildren(files, digest, f);
    BuiltRepresents(files, digest);
    hide Built, Hashed, PrefixFree;
    assert IsNode(files, f);
  }

  lemma FoldLoses(files: Files, vault: Files, digest: Digest, paths: seq<NodePath>)
    requires PrefixFree(files) && PrefixFree(vault) && [] !in paths && NoDuplicates(paths)
      && !FoldsRight(files, vault, paths)
    ensures exists v :: v in vault && !IsLeaf(ApplyAll(Built(files, digest), digest, vault, paths), v)
  {
    BuiltIsRooted(files, digest);
    var t := Built(files, digest);
    hide Built, Rooted, ApplyAll, IsLeaf, PrefixFree, NoDuplicates;
    if !InsideLater(vault, paths) {
      var i, v :| 0 <= i < |paths| && v in vault && IsAbove(paths[i], v) && !ListedAfter(paths, i, v);
      InsideIsCutOff(t, digest, vault, paths, i, v);
    } else {
      var i, f :| 0 <= i < |paths| && paths[i] in vault && f in files && IsAbove(paths[i], f)
        && !ClearedBefore(paths, i, f);
      FileIsLeaf(files, digest, f);
      OldFileStands(t, digest, vault, paths, i, f);
    }
  }

  // --- The theorem ---

  /** The fold gives the tree of the changed vault exactly if the list has each thing in its place. */
  lemma FoldIsRebuildIff(files: Files, vault: Files, digest: Digest, paths: seq<NodePath>)
    requires PrefixFree(files) && PrefixFree(vault) && Lists(files, vault, paths)
    ensures ApplyAll(Built(files, digest), digest, vault, paths) == Built(vault, digest)
      <==> FoldsRight(files, vault, paths)
  {
    hide PrefixFree, Built, ApplyAll, FoldsRight, IsLeaf;
    if FoldsRight(files, vault, paths) {
      FoldRebuilds(files, vault, digest, paths);
    } else {
      FoldLoses(files, vault, digest, paths);
      var v :| v in vault && !IsLeaf(ApplyAll(Built(files, digest), digest, vault, paths), v);
      FileIsLeaf(vault, digest, v);
    }
  }

  /** Where no listed path is a folder, before or after, any order will do. */
  lemma AnyOrderWithoutFolders(files: Files, vault: Files, digest: Digest, paths: seq<NodePath>)
    requires PrefixFree(files) && PrefixFree(vault) && Lists(files, vault, paths)
    requires forall p | p in paths :: !IsFolder(files, p) && !IsFolder(vault, p)
    ensures ApplyAll(Built(files, digest), digest, vault, paths) == Built(vault, digest)
  {
    NoFoldersFoldRight(files, vault, paths);
    FoldIsRebuildIff(files, vault, digest, paths);
    hide *;
  }

  lemma NoFoldersFoldRight(files: Files, vault: Files, paths: seq<NodePath>)
    requires forall p | p in paths :: !IsFolder(files, p) && !IsFolder(vault, p)
    ensures FoldsRight(files, vault, paths)
  {
    forall i, v | 0 <= i < |paths|
      ensures v in files || v in vault ==> !IsAbove(paths[i], v)
    {
      assert paths[i] in paths;
    }
    hide IsAbove, IsFolder;
  }

  /** With the removed paths before the others, the fold is right exactly if every file inside a listed path
      is listed. */
  lemma RemovedPathsFirst(files: Files, vault: Files, digest: Digest, paths: seq<NodePath>)
    requires PrefixFree(files) && PrefixFree(vault) && Lists(files, vault, paths)
    requires forall i, j | 0 <= i < j < |paths| && paths[i] in vault :: paths[j] in vault
    ensures ApplyAll(Built(files, digest), digest, vault, paths) == Built(vault, digest)
      <==> forall q, v | q in paths && v in vault && IsAbove(q, v) :: v in paths
  {
    FoldIsRebuildIff(files, vault, digest, paths);
    hide ApplyAll, Built, IsAbove;
    if forall q, v | q in paths && v in vault && IsAbove(q, v) :: v in paths {
      AllInside(vault, paths);
      AllCleared(files, vault, paths);
    } else {
      var q, v :| q in paths && v in vault && IsAbove(q, v) && v !in paths;
      var i :| 0 <= i < |paths| && paths[i] == q;
      assert !ListedAfter(paths, i, v);
    }
  }

  lemma AllInside(vault: Files, paths: seq<NodePath>)
    requires PrefixFree(vault)
    requires forall i, j | 0 <= i < j < |paths| && paths[i] in vault :: paths[j] in vault
    requires forall q, v | q in paths && v in vault && IsAbove(q, v) :: v in paths
    ensures InsideLater(vault, paths)
  {
    forall i, v | 0 <= i < |paths| && v in vault && IsAbove(paths[i], v)
      ensures ListedAfter(paths, i, v)
    {
      assert paths[i] in paths;
      var j :| 0 <= j < |paths| && paths[j] == v;
      assert paths[i] !in vault;
    }
  }

  lemma AllCleared(files: Files, vault: Files, paths: seq<NodePath>)
    requires PrefixFree(vault) && Lists(files, vault, paths)
    requires forall i, j | 0 <= i < j < |paths| && paths[i] in vault :: paths[j] in vault
    ensures ClearedFirst(files, vault, paths)
  {
    forall i, f | 0 <= i < |paths| && paths[i] in vault && f in files && IsAbove(paths[i], f)
      ensures ClearedBefore(paths, i, f)
    {
      assert f !in vault;
      assert f in paths by { assert !Agree(files, vault, f); }
      var j :| 0 <= j < |paths| && paths[j] == f;
      assert paths[j] <= f;
    }
  }

  // --- Two orders that lose a file, and one that does not ---

  lemma OneFileVault(f: NodePath, hash: Hash)
    requires f != []
    ensures PrefixFree(map[f := hash])
  {}

  /** A file that replaced a folder of the same name: told of the file first, the tree loses it. */
  lemma FileOverFolderIsLost(digest: Digest, a: Name, b: Name, was: Hash, now: Hash)
    ensures var before: Files, after: Files := map[[a, b] := was], map[[a] := now];
      ApplyAll(Built(before, digest), digest, after, [[a], [a, b]]) != Built(after, digest)
  {
    var p, f := [a], [a, b];
    var paths := [p, f];
    var before: Files, after: Files := map[f := was], map[p := now];
    hide Built, ApplyAll, PrefixFree;
    OneFileVault(f, was);
    OneFileVault(p, now);
    assert Lists(before, after, paths) by { assert p in paths && f in paths; }
    assert IsAbove(paths[0], f) && !ClearedBefore(paths, 0, f);
    FoldIsRebuildIff(before, after, digest, paths);
  }

  /** A folder deleted and made again with its file: the set keeps the file's older place, and the fold cuts
      the file off. */
  lemma FolderMadeAgainIsLost(digest: Digest, a: Name, b: Name, was: Hash, now: Hash)
    ensures var before: Files, after: Files := map[[a, b] := was], map[[a, b] := now];
      ApplyAll(Built(before, digest), digest, after, [[a, b], [a]]) != Built(after, digest)
  {
    var p, f := [a], [a, b];
    var paths := [f, p];
    var before: Files, after: Files := map[f := was], map[f := now];
    hide Built, ApplyAll, PrefixFree;
    OneFileVault(f, was);
    OneFileVault(f, now);
    assert Lists(before, after, paths) by { assert f in paths; }
    assert p <= f;
    assert IsAbove(paths[1], f) && !ListedAfter(paths, 1, f);
    FoldIsRebuildIff(before, after, digest, paths);
  }

  /** A new folder and then its first file: the order in which they come is right. */
  lemma NewFolderIsRight(digest: Digest, a: Name, b: Name, hash: Hash)
    ensures var before: Files, after: Files := map[], map[[a, b] := hash];
      ApplyAll(Built(before, digest), digest, after, [[a], [a, b]]) == Built(after, digest)
  {
    var p, f := [a], [a, b];
    var paths := [p, f];
    var before: Files, after: Files := map[], map[f := hash];
    hide Built, ApplyAll;
    OneFileVault(f, hash);
    assert Lists(before, after, paths) by { assert f in paths; }
    assert paths[1] == f;
    assert ListedAfter(paths, 0, f);
    FoldIsRebuildIff(before, after, digest, paths);
  }
}
