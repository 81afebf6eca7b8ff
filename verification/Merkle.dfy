/**
 The Merkle tree of a vault (src/main.ts, 649-893; src/core/sync/MerkleManager.ts). A node is known
 by its path from the root, so a tree is a map from paths to hashes, closed under taking the parent.
 A node with children has the digest of its children's hashes, in the order of their names; the
 names themselves are not hashed.
 */
module Merkle {
  import opened Names

  type NodePath = seq<Name>
  type Hash = Name
  type Tree = map<NodePath, Hash>

  /** The vault: its files by path, with the hashes of their contents. */
  type Files = map<NodePath, Hash>

  type Digest = Name -> Hash

  function Parent(p: NodePath): NodePath
    requires p != []
  {
    p[..|p| - 1]
  }

  ghost predicate Rooted(t: Tree) {
    [] in t && forall p | p in t && p != [] :: Parent(p) in t
  }

  function Children(t: Tree, p: NodePath): set<Name> {
    set q | q in t && q != [] && Parent(q) == p :: q[|q| - 1]
  }

  lemma ChildrenAre(t: Tree, p: NodePath)
    ensures forall k :: k in Children(t, p) <==> p + [k] in t
  {
    forall k
      ensures k in Children(t, p) <==> p + [k] in t
    {
      assert Parent(p + [k]) == p && (p + [k])[|p|] == k;
      if k in Children(t, p) {
        var q :| q in t && q != [] && Parent(q) == p && q[|q| - 1] == k;
        assert q == p + [k];
      }
    }
  }

  predicate IsLeaf(t: Tree, p: NodePath) {
    p in t && Children(t, p) == {}
  }

  /** The hashes of the children `keys` of `p`, one after the other. */
  function Joined(t: Tree, p: NodePath, keys: seq<Name>): Name {
    if keys == [] then []
    else (if p + [keys[0]] in t then t[p + [keys[0]]] else []) + Joined(t, p, keys[1..])
  }

  function Combined(t: Tree, p: NodePath): Name {
    Joined(t, p, Sorted(Children(t, p)))
  }

  lemma {:induction false} JoinedSame(t: Tree, u: Tree, p: NodePath, keys: seq<Name>)
    requires forall k | k in keys :: p + [k] in t && p + [k] in u && t[p + [k]] == u[p + [k]]
    ensures Joined(t, p, keys) == Joined(u, p, keys)
  {
    if keys != [] {
      assert keys[0] in keys;
      JoinedSame(t, u, p, keys[1..]);
    }
  }

  /** The children of `p` are the same nodes with the same hashes. */
  ghost predicate SameChildren(t: Tree, u: Tree, p: NodePath) {
    Children(t, p) == Children(u, p)
      && forall k | k in Children(t, p) :: p + [k] in t && p + [k] in u && t[p + [k]] == u[p + [k]]
  }

  lemma CombinedSame(t: Tree, u: Tree, p: NodePath)
    requires SameChildren(t, u, p)
    ensures Combined(t, p) == Combined(u, p)
  {
    JoinedSame(t, u, p, Sorted(Children(t, p)));
  }

  // --- Hashed trees ---

  ghost predicate HashedAt(t: Tree, digest: Digest, p: NodePath) {
    p in t && Children(t, p) != {} ==> t[p] == digest(Combined(t, p))
  }

  /** Every node with children has the digest of their hashes. */
  ghost predicate Hashed(t: Tree, digest: Digest) {
    forall p | p in t :: HashedAt(t, digest, p)
  }

  function Below(t: Tree, p: NodePath): set<NodePath> {
    set q | q in t && p <= q
  }

  lemma ChildIsBelow(t: Tree, p: NodePath, k: Name)
    requires p in t
    ensures Below(t, p + [k]) < Below(t, p)
  {
    forall q | q in Below(t, p + [k])
      ensures q in Below(t, p)
    {
      assert p <= p + [k] <= q;
    }
    assert p in Below(t, p) && p !in Below(t, p + [k]);
  }

  /** The hash a node ought to have: for a leaf its own, above that the digest over the children's, recursively. */
  function HashOf(t: Tree, digest: Digest, p: NodePath): Hash
    requires p in t
    decreases Below(t, p), 1
  {
    if Children(t, p) == {} then t[p] else digest(HashesOf(t, digest, p, Sorted(Children(t, p))))
  }

  function HashesOf(t: Tree, digest: Digest, p: NodePath, keys: seq<Name>): Name
    requires p in t && forall k | k in keys :: k in Children(t, p)
    decreases Below(t, p), 0, |keys|
  {
    if keys == [] then []
    else
      ChildrenAre(t, p);
      ChildIsBelow(t, p, keys[0]);
      HashOf(t, digest, p + [keys[0]]) + HashesOf(t, digest, p, keys[1..])
  }

  /** The tree with every node's hash as it ought to be. */
  function Rehashed(t: Tree, digest: Digest): Tree {
    map p | p in t :: HashOf(t, digest, p)
  }

  lemma {:induction false} HashesAreJoined(t: Tree, digest: Digest, p: NodePath, keys: seq<Name>)
    requires p in t && forall k | k in keys :: k in Children(t, p)
    ensures HashesOf(t, digest, p, keys) == Joined(Rehashed(t, digest), p, keys)
  {
    if keys != [] {
      ChildrenAre(t, p);
      assert p + [keys[0]] in t;
      HashesAreJoined(t, digest, p, keys[1..]);
    }
  }

  lemma ChildrenOfSameNodes(t: Tree, u: Tree, p: NodePath)
    requires t.Keys == u.Keys
    ensures Children(t, p) == Children(u, p)
  {
    assert forall q :: q in t <==> q in u.Keys;
  }

  /** Rehashing hashes the tree and leaves the leaves as they were. */
  lemma RehashedIsHashed(t: Tree, digest: Digest)
    ensures Hashed(Rehashed(t, digest), digest)
    ensures Rehashed(t, digest).Keys == t.Keys
    ensures forall p | IsLeaf(t, p) :: Rehashed(t, digest)[p] == t[p]
  {
    var u := Rehashed(t, digest);
    forall p | p in u
      ensures HashedAt(u, digest, p)
    {
      ChildrenOfSameNodes(t, u, p);
      HashesAreJoined(t, digest, p, Sorted(Children(t, p)));
    }
  }

  /** Two hashed trees with the same nodes and the same leaf hashes are the same at every node. */
  lemma {:induction false} HashedAgree(t: Tree, u: Tree, digest: Digest, p: NodePath)
    requires Hashed(t, digest) && Hashed(u, digest) && t.Keys == u.Keys && p in t
    requires forall q | IsLeaf(t, q) :: t[q] == u[q]
    ensures t[p] == u[p]
    decreases Below(t, p)
  {
    ChildrenOfSameNodes(t, u, p);
    if Children(t, p) != {} {
      ChildrenAre(t, p);
      forall k | k in Children(t, p)
        ensures t[p + [k]] == u[p + [k]]
      {
        ChildIsBelow(t, p, k);
        HashedAgree(t, u, digest, p + [k]);
      }
      CombinedSame(t, u, p);
      assert HashedAt(t, digest, p) && HashedAt(u, digest, p);
    }
  }

  lemma HashedIsUnique(t: Tree, u: Tree, digest: Digest)
    requires Hashed(t, digest) && Hashed(u, digest) && t.Keys == u.Keys
    requires forall q | IsLeaf(t, q) :: t[q] == u[q]
    ensures t == u
  {
    forall p | p in t
      ensures t[p] == u[p]
    {
      HashedAgree(t, u, digest, p);
    }
  }

  // --- The tree of a vault ---

  /** The nodes a vault needs: the root, and each file with all folders above it. */
  ghost predicate IsNode(files: Files, p: NodePath) {
    p == [] || exists f :: f in files && p <= f
  }

  function Prefixes(p: NodePath): set<NodePath> {
    set i | 0 <= i <= |p| :: p[..i]
  }

  lemma PrefixesAre(p: NodePath)
    ensures forall q :: q in Prefixes(p) <==> q <= p
  {
    forall q
      ensures q in Prefixes(p) <==> q <= p
    {
      if q <= p { assert q == p[..|q|]; }
    }
  }

  function Nodes(files: Files): set<NodePath> {
    {[]} + set f, q | f in files && q in Prefixes(f) :: q
  }

  lemma NodesAre(files: Files)
    ensures forall p :: p in Nodes(files) <==> IsNode(files, p)
  {
    forall p
      ensures p in Nodes(files) <==> IsNode(files, p)
    {
      if p in Nodes(files) && p != [] {
        var f :| f in files && p in Prefixes(f);
        PrefixesAre(f);
        assert p <= f;
      }
      if p != [] && IsNode(files, p) {
        var f :| f in files && p <= f;
        PrefixesAre(f);
        assert p in Prefixes(f);
      }
    }
  }

  /** The tree before it is hashed: files have their hashes, folders none. */
  function Skeleton(files: Files): Tree {
    map p | p in Nodes(files) :: if p in files then files[p] else []
  }

  function Built(files: Files, digest: Digest): Tree {
    Rehashed(Skeleton(files), digest)
  }

  lemma SkeletonIsRooted(files: Files)
    ensures Rooted(Skeleton(files))
  {
    NodesAre(files);
    forall p | IsNode(files, p) && p != []
      ensures IsNode(files, Parent(p))
    {
      var f :| f in files && p <= f;
      assert Parent(p) <= p;
    }
  }

  /** `t` is the tree of the vault: its nodes, hashed, with the files' own hashes at the leaves. */
  ghost predicate Represents(t: Tree, files: Files, digest: Digest) {
    && Hashed(t, digest) && (forall p :: p in t <==> IsNode(files, p))
    && forall p | IsLeaf(t, p) :: t[p] == if p in files then files[p] else []
  }

  lemma BuiltRepresents(files: Files, digest: Digest)
    ensures Represents(Built(files, digest), files, digest) && Built(files, digest).Keys == Nodes(files)
  {
    var s, b := Skeleton(files), Built(files, digest);
    NodesAre(files);
    RehashedIsHashed(s, digest);
    hide Rehashed, Hashed, IsNode;
    forall p | IsLeaf(b, p)
      ensures b[p] == if p in files then files[p] else []
    {
      ChildrenOfSameNodes(s, b, p);
      assert IsLeaf(s, p);
    }
  }

  /** One tree, and no other, represents a vault. */
  lemma BuiltIffRepresents(t: Tree, files: Files, digest: Digest)
    ensures t == Built(files, digest) <==> Represents(t, files, digest)
  {
    BuiltRepresents(files, digest);
    hide Built, Hashed, IsNode;
    var b := Built(files, digest);
    if Represents(t, files, digest) {
      assert t.Keys == b.Keys;
      forall p | IsLeaf(t, p)
        ensures t[p] == b[p]
      {
        ChildrenOfSameNodes(t, b, p);
      }
      HashedIsUnique(t, b, digest);
    }
  }
}
