/**
 The Merkle tree as the program keeps it: built, hashed and edited in place (src/main.ts, 649-893;
 src/core/sync/MerkleManager.ts, 144-170).
 */
module MerkleTrees {
  import opened Names
  import opened Merkle
  import opened MerkleEdits
  import opened MerkleDirty
  import opened MerkleStack

  datatype Leaf = Leaf(path: NodePath, hash: Hash)

  /** `leaves` lists the files of the vault, in any order. */
  ghost predicate ListsFiles(leaves: seq<Leaf>, files: Files) {
    && (forall i | 0 <= i < |leaves| :: leaves[i].path in files && files[leaves[i].path] == leaves[i].hash)
    && forall p | p in files :: exists i :: 0 <= i < |leaves| && leaves[i].path == p
  }

  /** The files listed so far, later ones over earlier ones. */
  ghost function FilesOf(leaves: seq<Leaf>): Files {
    if leaves == [] then map[]
      else FilesOf(leaves[..|leaves| - 1])[leaves[|leaves| - 1].path := leaves[|leaves| - 1].hash]
  }

  lemma {:induction false} FilesOfListing(leaves: seq<Leaf>, files: Files)
    requires forall i | 0 <= i < |leaves| :: leaves[i].path in files && files[leaves[i].path] == leaves[i].hash
    ensures forall p | p in FilesOf(leaves) :: p in files && FilesOf(leaves)[p] == files[p]
    ensures forall i | 0 <= i < |leaves| :: leaves[i].path in FilesOf(leaves)
  {
    if leaves != [] {
      var rest := leaves[..|leaves| - 1];
      FilesOfListing(rest, files);
      forall i | 0 <= i < |leaves|
        ensures leaves[i].path in FilesOf(leaves)
      {
        if i < |rest| { assert rest[i].path in FilesOf(rest); }
      }
    }
  }

  lemma ListingIsVault(leaves: seq<Leaf>, files: Files)
    requires ListsFiles(leaves, files)
    ensures FilesOf(leaves) == files
  {
    FilesOfListing(leaves, files);
    forall p | p in files
      ensures p in FilesOf(leaves)
    {
      var i :| 0 <= i < |leaves| && leaves[i].path == p;
    }
  }

  lemma NodesGrow(files: Files, p: NodePath, hash: Hash)
    ensures Nodes(files[p := hash]) == Nodes(files) + Prefixes(p)
  {
    NodesAre(files);
    NodesAre(files[p := hash]);
    PrefixesAre(p);
    hide IsNode, Nodes, Prefixes;
    forall q
      ensures q in Nodes(files[p := hash]) <==> q in Nodes(files) + Prefixes(p)
    {
      NodesAfterUpdate(files, p, hash, q);
    }
  }

  lemma FilesAreNodes(files: Files)
    ensures files.Keys <= Nodes(files)
  {
    NodesAre(files);
  }

  /** Inserting a file in the tree of others gives the tree of them all. */
  lemma SkeletonGrows(files: Files, p: NodePath, hash: Hash)
    ensures Leafed(Skeleton(files), p, hash) == Skeleton(files[p := hash])
  {
    hide Nodes, Prefixes;
    NodesGrow(files, p, hash);
    FilesAreNodes(files);
    assert Skeleton(files).Keys == Nodes(files);
  }

  /** The tree with the nodes down to `p` made where they were missing. */
  function WithFolders(t: Tree, p: NodePath): Tree {
    map q | q in t.Keys + Prefixes(p) :: if q in t then t[q] else []
  }

  lemma OneFolderMore(t: Tree, p: NodePath, i: nat)
    requires i < |p| && [] in t
    ensures WithFolders(t, p[..0]) == t
    ensures var u, q := WithFolders(t, p[..i]), p[..i + 1]; WithFolders(t, q) == if q in u then u else u[q := []]
  {
    PrefixesAre(p[..0]);
    PrefixesAre(p[..i]);
    PrefixesAre(p[..i + 1]);
    hide Prefixes;
    forall q
      ensures q in Prefixes(p[..i + 1]) <==> q in Prefixes(p[..i]) || q == p[..i + 1]
    {
      assert p[..i] <= p[..i + 1];
      if q <= p[..i + 1] && q != p[..i + 1] { assert q == p[..|q|]; }
    }
  }

  predicate IsChildBut(t: Tree, node: NodePath, m: NodePath, rest: set<Name>) {
    m in t && m != [] && Parent(m) == node && m[|m| - 1] !in rest
  }

  /** Of the children of `node`, all but those in `rest` are pushed, each once. */
  ghost predicate PushesAllBut(t: Tree, node: NodePath, pushes: seq<Entry>, rest: set<Name>) {
    && rest <= Children(t, node) && Apart(pushes)
    && (forall i | 0 <= i < |pushes| :: pushes[i].Push? && IsChildBut(t, node, pushes[i].node, rest))
    && forall k | k in Children(t, node) && k !in rest :: OnStack(pushes, Push(node + [k]))
  }

  lemma NothingPushed(t: Tree, node: NodePath)
    ensures PushesAllBut(t, node, [], Children(t, node))
  {}

  lemma OneMorePushed(t: Tree, node: NodePath, pushes: seq<Entry>, rest: set<Name>, k: Name)
    requires PushesAllBut(t, node, pushes, rest) && k in rest
    ensures PushesAllBut(t, node, pushes + [Push(node + [k])], rest - {k})
  {
    var e := Push(node + [k]);
    var longer := pushes + [e];
    hide Children, OnStack;
    forall i | 0 <= i < |pushes|
      ensures pushes[i].node != e.node
    {
      assert IsChildBut(t, node, pushes[i].node, rest) && e.node[|e.node| - 1] == k;
    }
    assert IsChildBut(t, node, e.node, rest - {k}) by { ChildrenAre(t, node); }
    assert forall m | IsChildBut(t, node, m, rest) :: IsChildBut(t, node, m, rest - {k});
    forall c | c in Children(t, node) && c !in rest - {k}
      ensures OnStack(longer, Push(node + [c]))
    {
      Alone(e);
      OnLongerStack(pushes, Push(node + [c]), [e]);
    }
  }

  lemma Alone(e: Entry)
    ensures OnStack([e], e)
  {
    assert [e][0] == e;
  }

  lemma AllPushed(t: Tree, node: NodePath, pushes: seq<Entry>)
    requires PushesAllBut(t, node, pushes, {})
    ensures PushesChildren(t, node, pushes)
  {
    ChildrenAre(t, node);
    hide Children, OnStack;
    forall i | 0 <= i < |pushes|
      ensures pushes[i].node in t && pushes[i].node != [] && Parent(pushes[i].node) == node
    {
      assert IsChildBut(t, node, pushes[i].node, {});
    }
    forall m | m in t && m != [] && Parent(m) == node
      ensures OnStack(pushes, Push(m))
    {
      assert m == node + [m[|node|]];
    }
  }

  class MerkleTree {
    var nodes: Tree
    const digest: Digest

    constructor (digest: Digest)
      ensures this.digest == digest && nodes == Skeleton(map[])
    {
      this.digest := digest;
      nodes := map[[] := []];
      new;
      NodesAre(map[]);
      assert nodes == Skeleton(map[]);
    }

    // --- Building ---

    /** Walk down to `path`, making the nodes that are missing; the last gets the file's hash. */
    method SetLeaf(path: NodePath, hash: Hash)
      requires path != [] && [] in nodes
      modifies this
      ensures nodes == Leafed(old(nodes), path, hash)
    {
      OneFolderMore(nodes, path, 0);
      for i := 0 to |path|
        invariant nodes == WithFolders(old(nodes), path[..i])
      {
        OneFolderMore(old(nodes), path, i);
        var current := path[..i + 1];
        if current !in nodes {
          nodes := nodes[current := []];
        }
      }
      assert path[..|path|] == path;
      nodes := nodes[path := hash];
      PrefixesAre(path);
    }

    /** A full build gives the tree of the vault, in whatever order its files are listed. */
    method Build(leaves: seq<Leaf>, ghost files: Files)
      requires ListsFiles(leaves, files) && [] !in files
      modifies this
      ensures nodes == Built(files, digest)
    {
      nodes := map[[] := []];
      NodesAre(map[]);
      for i := 0 to |leaves|
        invariant nodes == Skeleton(FilesOf(leaves[..i]))
      {
        SkeletonIsRooted(FilesOf(leaves[..i]));
        SkeletonGrows(FilesOf(leaves[..i]), leaves[i].path, leaves[i].hash);
        assert leaves[..i + 1][..i] == leaves[..i];
        SetLeaf(leaves[i].path, leaves[i].hash);
      }
      assert leaves[..|leaves|] == leaves;
      ListingIsVault(leaves, files);
      SkeletonIsRooted(files);
      ComputeHashes();
    }

    // --- Hashing ---

    /** The children of `node`, each once, to be opened; in no particular order. */
    method PushChildren(node: NodePath) returns (pushes: seq<Entry>)
      ensures PushesChildren(nodes, node, pushes)
    {
      hide PushesAllBut, PushesChildren, Children;
      var rest := Children(nodes, node);
      pushes := [];
      NothingPushed(nodes, node);
      while rest != {}
        invariant PushesAllBut(nodes, node, pushes, rest)
        decreases rest
      {
        var k :| k in rest;
        OneMorePushed(nodes, node, pushes, rest, k);
        pushes := pushes + [Push(node + [k])];
        rest := rest - {k};
      }
      AllPushed(nodes, node, pushes);
    }

    /** Hash every node after its children, with an explicit stack. */
    method ComputeHashes()
      requires Rooted(nodes)
      modifies this
      ensures nodes == Rehashed(old(nodes), digest)
    {
      hide StackInv, PartlyHashed, Rehashed, Combined, Children, PushesChildren;
      ghost var tree := nodes;
      ghost var expanded: set<NodePath>, done: set<NodePath> := {}, {};
      var stack := [Push([])];
      StartInv(tree);
      StartHashing(tree, digest);
      while stack != []
        invariant StackInv(tree, stack, expanded, done)
        invariant PartlyHashed(tree, nodes, digest, done)
        decreases tree.Keys - expanded, |stack|
      {
        var entry := stack[|stack| - 1];
        TopOfStack(tree, stack, expanded, done);
        SameNodes(tree, nodes, digest, done, entry.node);
        if entry.Process? {
          ProcessedAfterChildren(tree, stack, expanded, done);
          ProcessedIsHashed(tree, nodes, digest, done, entry.node);
          ProcessKeeps(tree, stack, expanded, done);
          if Children(nodes, entry.node) != {} {
            nodes := nodes[entry.node := digest(Combined(nodes, entry.node))];
          }
          done := done + {entry.node};
          stack := stack[..|stack| - 1];
        } else {
          var pushes := PushChildren(entry.node);
          SamePushes(tree, nodes, entry.node, pushes);
          OpenKeeps(tree, stack, expanded, done, pushes);
          stack := stack[..|stack| - 1] + [Process(entry.node)] + pushes;
          expanded := expanded + {entry.node};
        }
      }
      AllHashed(tree, nodes, digest, expanded, done);
    }

    // --- Editing in place ---

    /** Rehash the folders above `path`, deepest first; those no longer in the tree are of no account. */
    method RecomputeAncestors(path: NodePath)
      modifies this
      ensures nodes == Refreshed(old(nodes), digest, path, |path|)
    {
      hide Combined, Children;
      var i := |path|;
      while i > 0
        invariant 0 <= i <= |path|
        invariant Refreshed(nodes, digest, path, i) == Refreshed(old(nodes), digest, path, |path|)
      {
        i := i - 1;
        var n := path[..i];
        if n in nodes {
          if Children(nodes, n) == {} {
            nodes := nodes[n := []];
          } else {
            nodes := nodes[n := digest(Combined(nodes, n))];
          }
        }
      }
    }

    method UpdateLeaf(path: NodePath, hash: Hash)
      requires path != [] && [] in nodes
      modifies this
      ensures nodes == Updated(old(nodes), digest, path, hash)
    {
      SetLeaf(path, hash);
      RecomputeAncestors(path);
    }

    method RemoveLeaf(path: NodePath)
      requires path != [] && Rooted(nodes)
      modifies this
      ensures nodes == Removed(old(nodes), digest, path)
    {
      for k := 0 to |path|
        invariant path[..k] in nodes && nodes == old(nodes)
      {
        if path[..k + 1] !in nodes {
          if path in nodes { RootedUpward(nodes, path, k + 1); }
          return;
        }
      }
      assert path[..|path|] == path;
      CutUpward(path);
      RecomputeAncestors(path);
    }

    /** Delete the node, and then each folder above that this leaves empty, up to the root. */
    method CutUpward(path: NodePath)
      requires path != []
      modifies this
      ensures nodes == Cut(old(nodes), path)
    {
      hide Children;
      var i := |path| - 1;
      assert path[..i + 1] == path;
      while i >= 0
        invariant -1 <= i < |path|
        invariant if i >= 0 then Cut(nodes, path[..i + 1]) == Cut(old(nodes), path) else nodes == Cut(old(nodes), path)
      {
        assert Parent(path[..i + 1]) == path[..i];
        nodes := CutOff(nodes, path[..i + 1]);
        if Children(nodes, path[..i]) != {} { break; }
        i := i - 1;
      }
    }

    /** The changed paths, in the order they come, folded into the tree. */
    method ApplyDirtyPaths(paths: seq<NodePath>, vault: Files)
      requires [] !in paths && Rooted(nodes)
      modifies this
      ensures nodes == ApplyAll(old(nodes), digest, vault, paths)
    {
      for i := 0 to |paths|
        invariant Rooted(nodes)
        invariant ApplyAll(nodes, digest, vault, paths[i..]) == ApplyAll(old(nodes), digest, vault, paths)
      {
        assert paths[i] in paths && paths[i..][0] == paths[i] && paths[i..][1..] == paths[i + 1..];
        ApplyOneRooted(nodes, digest, vault, paths[i]);
        if paths[i] in vault {
          UpdateLeaf(paths[i], vault[paths[i]]);
        } else {
          RemoveLeaf(paths[i]);
        }
      }
    }

    /** A tree of the vault as it was, told of every path that changed, becomes the tree of the vault as it is
        if the order is right. */
    method BringUpToDate(paths: seq<NodePath>, vault: Files, ghost before: Files)
      requires nodes == Built(before, digest)
      requires PrefixFree(before) && PrefixFree(vault) && Lists(before, vault, paths)
      modifies this
      ensures nodes == Built(vault, digest) <==> FoldsRight(before, vault, paths)
    {
      hide Built, ApplyAll, FoldsRight;
      FoldIsRebuildIff(before, vault, digest, paths);
      BuiltIsRooted(before, digest);
      ApplyDirtyPaths(paths, vault);
    }
  }

  lemma TopOfStack(tree: Tree, stack: seq<Entry>, expanded: set<NodePath>, done: set<NodePath>)
    requires StackInv(tree, stack, expanded, done) && stack != []
    ensures var e := stack[|stack| - 1]; e.node in tree && e.node !in done && (e.Process? <==> e.node in expanded)
  {
    TopIs(tree, stack, expanded, done);
  }

  lemma SamePushes(tree: Tree, nodes: Tree, n: NodePath, pushes: seq<Entry>)
    requires nodes.Keys == tree.Keys && PushesChildren(nodes, n, pushes)
    ensures PushesChildren(tree, n, pushes)
  {
    assert forall m :: m in nodes <==> m in tree.Keys;
  }

  /** The nodes that are done have the hash they ought to have, the others their old one. */
  ghost predicate PartlyHashed(tree: Tree, nodes: Tree, digest: Digest, done: set<NodePath>) {
    && nodes.Keys == tree.Keys
    && forall n | n in tree :: nodes[n] == if n in done then HashOf(tree, digest, n) else tree[n]
  }

  lemma StartHashing(tree: Tree, digest: Digest)
    ensures PartlyHashed(tree, tree, digest, {})
  {}

  lemma SameNodes(tree: Tree, nodes: Tree, digest: Digest, done: set<NodePath>, n: NodePath)
    requires PartlyHashed(tree, nodes, digest, done)
    ensures nodes.Keys == tree.Keys && Children(nodes, n) == Children(tree, n)
  {
    ChildrenOfSameNodes(tree, nodes, n);
  }

  lemma AllHashed(tree: Tree, nodes: Tree, digest: Digest, expanded: set<NodePath>, done: set<NodePath>)
    requires PartlyHashed(tree, nodes, digest, done) && StackInv(tree, [], expanded, done)
    ensures nodes == Rehashed(tree, digest)
  {
    hide StackInv;
    forall n | n in tree ensures n in done { EmptyMeansDone(tree, expanded, done, n); }
  }

  lemma HashFromDone(tree: Tree, nodes: Tree, digest: Digest, done: set<NodePath>, n: NodePath)
    requires PartlyHashed(tree, nodes, digest, done) && n in tree && Children(tree, n) != {}
    requires forall k | k in Children(tree, n) :: n + [k] in done
    ensures HashOf(tree, digest, n) == digest(Combined(nodes, n))
  {
    var keys := Sorted(Children(tree, n));
    ChildrenOfSameNodes(tree, nodes, n);
    ChildrenAre(tree, n);
    HashesAreJoined(tree, digest, n, keys);
    JoinedSame(Rehashed(tree, digest), nodes, n, keys);
  }

  lemma OneMoreHashed(tree: Tree, nodes: Tree, digest: Digest, done: set<NodePath>, n: NodePath, hash: Hash)
    requires PartlyHashed(tree, nodes, digest, done) && n in tree && hash == HashOf(tree, digest, n)
    ensures PartlyHashed(tree, nodes[n := hash], digest, done + {n})
  {
    hide HashOf, HashesOf;
  }

  /** A node whose children are done is given the hash it ought to have. */
  lemma ProcessedIsHashed(tree: Tree, nodes: Tree, digest: Digest, done: set<NodePath>, n: NodePath)
    requires PartlyHashed(tree, nodes, digest, done) && n in tree && n !in done
    requires forall k | k in Children(tree, n) :: n + [k] in done
    ensures Children(nodes, n) == {} ==> PartlyHashed(tree, nodes, digest, done + {n})
    ensures Children(nodes, n) != {} ==> PartlyHashed(tree, nodes[n := digest(Combined(nodes, n))], digest, done + {n})
  {
    SameNodes(tree, nodes, digest, done, n);
    if Children(tree, n) != {} {
      HashFromDone(tree, nodes, digest, done, n);
      OneMoreHashed(tree, nodes, digest, done, n, digest(Combined(nodes, n)));
    } else {
      OneMoreHashed(tree, nodes, digest, done, n, nodes[n]);
      assert nodes[n := nodes[n]] == nodes;
    }
    hide PartlyHashed, Children, Combined;
  }
}
