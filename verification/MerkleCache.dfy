/**
 The cached Merkle tree (src/main.ts, 649-655, 742-802, 808-834): built when needed, brought up to
 date path by path, in the order the paths changed in; here is exactly when what it serves is right.
 */
module MerkleCaches {
  import opened Basics
  import opened Names
  import opened Merkle
  import opened MerkleEdits
  import opened MerkleDirty
  import opened MerkleTrees

  const MAX_DIRTY: nat := 64

  class TreeCache {
    const digest: Digest
    var tree: MerkleTree
    /** `merkleTreeBuiltAt` is set. */
    var current: bool
    /** The paths that have changed since, each at the place it first came in. */
    var dirty: seq<NodePath>
    var generation: nat
    /** The vault the tree was last made for. */
    ghost var files: Files

    /** Either the tree is not current, or it differs from the vault at the dirty paths only. */
    ghost predicate Valid(vault: Files)
      reads this, tree
    {
      && tree.digest == digest && (!current ==> dirty == [])
      && (current ==> tree.nodes == Built(files, digest) && PrefixFree(files) && Lists(files, vault, dirty))
    }

    constructor (digest: Digest)
      ensures forall vault :: Valid(vault)
      ensures !current && fresh(tree) && this.digest == digest
    {
      this.digest := digest;
      tree := new MerkleTree(digest);
      current, dirty, generation, files := false, [], 0, map[];
    }

    /** The vault has changed from `before` to `after`, at one path or at who knows how many. */
    method Invalidate(path: Option<NodePath>, ghost before: Files, ghost after: Files)
      requires Valid(before)
      requires path.Some? ==> path.value != [] && forall p | p != path.value :: Agree(before, after, p)
      modifies `generation, `dirty, `current
      ensures Valid(after) && generation == old(generation) + 1
      ensures current <==> path.Some? && old(current) && |old(dirty)| < MAX_DIRTY
      ensures current ==> dirty == if path.value in old(dirty) then old(dirty) else old(dirty) + [path.value]
    {
      hide Built, PrefixFree, Lists;
      generation := generation + 1;
      if path.Some? && current && |dirty| < MAX_DIRTY {
        ListedToo(files, before, after, dirty, path.value);
        if path.value !in dirty { dirty := dirty + [path.value]; }
        return;
      }
      current := false;
      dirty := [];
    }

    /** A build that began at `begun`, and listed and hashed `leaves`; the vault may have changed meanwhile. */
    method FinishBuild(begun: nat, leaves: seq<Leaf>, ghost listed: Files, ghost vault: Files)
      requires !current && dirty == [] && ListsFiles(leaves, listed) && PrefixFree(listed)
      requires begun == generation ==> listed == vault
      modifies `tree, `current, `files
      ensures Valid(vault) && tree.nodes == Built(listed, digest) && fresh(tree)
      ensures current <==> begun == generation
    {
      hide Built, PrefixFree, ListsFiles, Skeleton;
      assert [] !in listed by { NoRootFile(listed); }
      tree := new MerkleTree(digest);
      tree.Build(leaves, listed);
      files := listed;
      current := begun == generation;
    }

    /**
     The tree as it is served, without a full build: it stays marked as current, and is the tree of the
     vault exactly if the changed paths came in a right order.
     */
    method GetCurrent(vault: Files)
      requires Valid(vault) && current && PrefixFree(vault)
      modifies `dirty, `files, tree
      ensures dirty == [] && files == vault
      ensures Valid(vault) <==> old(FoldsRight(files, vault, dirty))
      ensures tree.nodes == Built(vault, digest) <==> old(FoldsRight(files, vault, dirty))
    {
      hide Built, PrefixFree, FoldsRight;
      var paths := dirty;
      dirty := [];
      tree.BringUpToDate(paths, vault, files);
      files := vault;
      assert Lists(vault, vault, []);
    }
  }

  /** A changed path is listed as well, unless it is already. */
  lemma ListedToo(files: Files, before: Files, after: Files, dirty: seq<NodePath>, path: NodePath)
    requires Lists(files, before, dirty) && path != [] && forall p | p != path :: Agree(before, after, p)
    ensures Lists(files, after, if path in dirty then dirty else dirty + [path])
  {
    var longer := if path in dirty then dirty else dirty + [path];
    assert path in longer by { if path !in dirty { assert longer[|dirty|] == path; } }
    forall p | p !in longer
      ensures Agree(files, after, p)
    {
      assert Agree(files, before, p) && Agree(before, after, p);
    }
  }

  lemma NoRootFile(files: Files)
    requires PrefixFree(files)
    ensures [] !in files
  {}
}
