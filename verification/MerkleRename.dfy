/**
 What a Merkle tree does not tell (src/main.ts, 649-740): a node's hash covers the hashes of its
 children in the order of their names, and not the names.
 */
module MerkleRename {
  import opened Names
  import opened Merkle
  import opened MerkleEdits
  import opened MerkleDirty

  /** The file at `f` under the name `g`. */
  function Renamed(files: Files, f: NodePath, g: NodePath): Files
    requires f in files
  {
    (files - {f})[g := files[f]]
  }

  /** `b` stands among the other names where `a` stands. */
  ghost predicate SamePlace(names: set<Name>, a: Name, b: Name) {
    forall c | c in names && c != a :: Less(c, a) <==> Less(c, b)
  }

  lemma LowestIs(m: Name, s: set<Name>)
    requires IsLowest(m, s)
    ensures Lowest(s) == m
  {
    LowestUnique(m, Lowest(s), s);
  }

  lemma LowestKeepsPlace(s: set<Name>, a: Name, b: Name)
    requires a in s && b !in s && SamePlace(s, a, b)
    ensures Lowest(s - {a} + {b}) == if Lowest(s) == a then b else Lowest(s)
  {
    var m := Lowest(s);
    var n := if m == a then b else m;
    forall c | c in s - {a} + {b}
      ensures c == n || Less(n, c)
    {
      LessTrichotomy(a, c);
      LessTrichotomy(b, c);
    }
    LowestIs(n, s - {a} + {b});
  }

  /** The children's hashes read the same with `b` for `a`. */
  lemma {:induction false} JoinedRenamed(t: Tree, u: Tree, p: NodePath, s: set<Name>, a: Name, b: Name)
    requires a in s && b !in s && SamePlace(s, a, b)
    requires forall c | c in s && c != a :: p + [c] in t && p + [c] in u && t[p + [c]] == u[p + [c]]
    requires p + [a] in t && p + [b] in u && t[p + [a]] == u[p + [b]]
    ensures Joined(t, p, Sorted(s)) == Joined(u, p, Sorted(s - {a} + {b}))
    decreases |s|
  {
    var r := s - {a} + {b};
    var m, n := Lowest(s), Lowest(r);
    LowestKeepsPlace(s, a, b);
    hide Lowest;
    var more, less := Sorted(s - {m}), Sorted(r - {n});
    if m == a {
      assert s - {m} == r - {n};
      JoinedSame(t, u, p, more);
    } else {
      assert r - {n} == (s - {m}) - {a} + {b};
      JoinedRenamed(t, u, p, s - {m}, a, b);
    }
    hide Less;
    assert Sorted(s) == [m] + more && Sorted(r) == [n] + less;
    assert Sorted(s)[1..] == more && Sorted(r)[1..] == less;
  }

  lemma NodesOfRenamed(files: Files, f: NodePath, g: NodePath, q: NodePath)
    requires PrefixFree(files) && f in files && g != [] && !IsNode(files, g) && Parent(f) == Parent(g)
    ensures IsNode(Renamed(files, f, g), q) <==> q == g || (IsNode(files, q) && q != f)
  {
    var renamed := Renamed(files, f, g);
    if IsNode(renamed, q) && q != [] {
      var h :| h in renamed && q <= h;
      if h == g && q != g {
        assert q <= Parent(f) <= f;
      }
    }
    if q == g { assert g in renamed; }
    if IsNode(files, q) && q != f && q != [] {
      var h :| h in files && q <= h;
      if h == f {
        assert q <= Parent(g) <= g;
        assert g in renamed;
      } else {
        assert h in renamed;
      }
    }
  }

  /** `t` and `u` are the trees before and after `p + [a]` became `p + [b]`. */
  ghost predicate Before(t: Tree, u: Tree, p: NodePath, a: Name, b: Name) {
    && (forall q :: q in u <==> q == p + [b] || (q in t && q != p + [a]))
    && p + [a] in t && p + [b] !in t && t[p + [a]] == u[p + [b]]
  }

  lemma ChildrenOfRenamed(t: Tree, u: Tree, p: NodePath, a: Name, b: Name, q: NodePath)
    requires Before(t, u, p, a, b)
    ensures a in Children(t, p) && b !in Children(t, p)
    ensures Children(u, q) == if q == p then Children(t, q) - {a} + {b} else Children(t, q)
  {
    ChildrenAre(t, p);
    ChildrenAre(t, q);
    ChildrenAre(u, q);
    forall k
      ensures k in Children(u, q) <==> k in if q == p then Children(t, q) - {a} + {b} else Children(t, q)
    {
      SameChild(q, k, p, a);
      SameChild(q, k, p, b);
    }
  }

  lemma SameChild(q: NodePath, k: Name, p: NodePath, a: Name)
    ensures q + [k] == p + [a] <==> q == p && k == a
  {
    if q + [k] == p + [a] {
      assert Parent(q + [k]) == q && Parent(p + [a]) == p;
      assert (q + [k])[|q|] == k && (p + [a])[|p|] == a;
    }
  }

  lemma CombinedRenamed(t: Tree, u: Tree, p: NodePath, a: Name, b: Name, q: NodePath)
    requires Before(t, u, p, a, b) && SamePlace(Children(t, p), a, b)
    requires forall k | k in Children(t, q) && q + [k] != p + [a] ::
      q + [k] in t && q + [k] in u && t[q + [k]] == u[q + [k]]
    ensures Combined(t, q) == Combined(u, q)
  {
    hide SamePlace, Children, Joined;
    ChildrenOfRenamed(t, u, p, a, b, q);
    forall k | k in Children(t, q) && (q != p || k != a)
      ensures q + [k] in t && q + [k] in u && t[q + [k]] == u[q + [k]]
    {
      SameChild(q, k, p, a);
    }
    if q == p {
      JoinedRenamed(t, u, p, Children(t, p), a, b);
    } else {
      JoinedSame(t, u, q, Sorted(Children(t, q)));
    }
  }

  /** Every node but the renamed one keeps its hash. */
  lemma {:induction false} RenameKeepsHashes(t: Tree, u: Tree, digest: Digest, p: NodePath, a: Name, b: Name,
          q: NodePath)
    requires Before(t, u, p, a, b) && SamePlace(Children(t, p), a, b) && Hashed(t, digest) && Hashed(u, digest)
    requires forall n | IsLeaf(t, n) && n != p + [a] :: n in u && t[n] == u[n]
    requires q in t && q != p + [a]
    ensures q in u && t[q] == u[q]
    decreases Below(t, q)
  {
    ChildrenOfRenamed(t, u, p, a, b, q);
    ChildrenAre(t, q);
    hide SamePlace, Children, Combined, Before;
    if Children(t, q) != {} {
      forall k | k in Children(t, q) && q + [k] != p + [a]
        ensures q + [k] in t && q + [k] in u && t[q + [k]] == u[q + [k]]
      {
        ChildIsBelow(t, q, k);
        RenameKeepsHashes(t, u, digest, p, a, b, q + [k]);
      }
      CombinedRenamed(t, u, p, a, b, q);
      NodeStays(t, u, p, a, b, q);
      assert HashedAt(t, digest, q) && HashedAt(u, digest, q);
      assert Children(u, q) != {} by { if q == p { assert b in Children(u, q); } }
    }
  }

  lemma NodeStays(t: Tree, u: Tree, p: NodePath, a: Name, b: Name, q: NodePath)
    requires Before(t, u, p, a, b) && q in t && q != p + [a]
    ensures q in u && q != p + [b]
  {}

  lemma BeforeRename(files: Files, digest: Digest, p: NodePath, a: Name, b: Name)
    requires PrefixFree(files) && p + [a] in files && !IsNode(files, p + [b])
    ensures Before(Built(files, digest), Built(Renamed(files, p + [a], p + [b]), digest), p, a, b)
  {
    var f, g := p + [a], p + [b];
    var renamed := Renamed(files, f, g);
    var t, u := Built(files, digest), Built(renamed, digest);
    BuiltRepresents(files, digest);
    BuiltRepresents(renamed, digest);
    FileIsLeaf(files, digest, f);
    NewNameIsLeaf(files, digest, f, g);
    assert Parent(f) == p == Parent(g);
    forall q ensures IsNode(renamed, q) <==> q == g || (IsNode(files, q) && q != f) { NodesOfRenamed(files, f, g, q); }
    hide Built, PrefixFree, Hashed, IsNode, Children;
    assert t[f] == files[f] && u[g] == renamed[g];
  }

  lemma LeafStaysLeaf(t: Tree, u: Tree, p: NodePath, a: Name, b: Name, n: NodePath)
    requires Before(t, u, p, a, b) && IsLeaf(t, n) && n != p + [a]
    ensures IsLeaf(u, n) && n != p + [b]
  {
    ChildrenOfRenamed(t, u, p, a, b, n);
    hide Children;
  }

  lemma LeafHashKept(files: Files, digest: Digest, f: NodePath, g: NodePath, n: NodePath)
    requires f in files && n != f && n != g
    requires IsLeaf(Built(files, digest), n) && IsLeaf(Built(Renamed(files, f, g), digest), n)
    ensures Built(Renamed(files, f, g), digest)[n] == Built(files, digest)[n]
  {
    hide Built;
    LeafHash(files, digest, n);
    LeafHash(Renamed(files, f, g), digest, n);
  }

  lemma LeafHash(files: Files, digest: Digest, n: NodePath)
    requires IsLeaf(Built(files, digest), n)
    ensures Built(files, digest)[n] == if n in files then files[n] else []
  {
    BuiltRepresents(files, digest);
    hide Built, Hashed, IsNode;
  }

  lemma NewNameIsLeaf(files: Files, digest: Digest, f: NodePath, g: NodePath)
    requires f in files && !IsNode(files, g)
    ensures IsLeaf(Built(Renamed(files, f, g), digest), g)
  {
    var renamed := Renamed(files, f, g);
    NothingInNewName(files, f, g);
    NoFolderNoChildren(renamed, digest, g);
    IsInTree(renamed, digest, g);
    hide Built, Children, IsNode, IsFolder;
  }

  lemma NothingInNewName(files: Files, f: NodePath, g: NodePath)
    requires f in files && !IsNode(files, g)
    ensures !IsFolder(Renamed(files, f, g), g)
  {}

  lemma IsInTree(files: Files, digest: Digest, f: NodePath)
    requires f in files
    ensures f in Built(files, digest)
  {
    BuiltRepresents(files, digest);
    hide Built, Hashed, IsLeaf;
    assert IsNode(files, f);
  }

  /**
   A file renamed within its folder to a name that stands where the old one stood changes no hash of
   the tree but moves its own: the root's hash is as it was, and the rename goes unseen.
   */
  lemma RenameKeepsRoot(files: Files, digest: Digest, p: NodePath, a: Name, b: Name)
    requires PrefixFree(files) && p + [a] in files && !IsNode(files, p + [b])
    requires forall c | IsNode(files, p + [c]) && c != a :: Less(c, a) <==> Less(c, b)
    ensures var t, u := Built(files, digest), Built(Renamed(files, p + [a], p + [b]), digest);
      && t != u && [] in t && [] in u && t[[]] == u[[]]
      && forall q | q in t && q != p + [a] :: q in u && u[q] == t[q]
  {
    var t, u := Built(files, digest), Built(Renamed(files, p + [a], p + [b]), digest);
    BeforeRename(files, digest, p, a, b);
    BuiltRepresents(files, digest);
    BuiltRepresents(Renamed(files, p + [a], p + [b]), digest);
    forall n | IsLeaf(t, n) && n != p + [a] ensures n in u && t[n] == u[n] {
      LeafStaysLeaf(t, u, p, a, b, n);
      LeafHashKept(files, digest, p + [a], p + [b], n);
    }
    ChildrenAre(t, p);
    assert SamePlace(Children(t, p), a, b);
    assert [] in t && p + [a] != [];
    hide Built, PrefixFree, Hashed, Less, Children, SamePlace, IsNode, Renamed;
    forall q | q in t && q != p + [a]
      ensures q in u && u[q] == t[q]
    {
      RenameKeepsHashes(t, u, digest, p, a, b, q);
    }
  }
}
