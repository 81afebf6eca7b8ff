/**
 Dropping one peer's items from the heap (src/core/QueueManager.ts, 133-142) takes them out of the
 array as it stands. Whether what is left is in heap order depends on where they stood.
 */
module QueueDrops {
  import opened Names
  import opened Heaps
  import opened Queues

  /** `i` is `j` or above it in the tree of the array. */
  predicate Over(i: nat, j: nat) {
    i == j || (j > 0 && Over(i, ParentOf(j)))
  }

  lemma {:induction false} OverDoesNotFollow(h: seq<Item>, i: nat, j: nat)
    requires HeapOrdered(h) && j < |h| && Over(i, j)
    ensures i <= j && !Precedes(h[j], h[i])
  {
    if i != j {
      OverDoesNotFollow(h, i, ParentOf(j));
      assert Above(h, j);
      PrecedesTransitive(h[j], h[ParentOf(j)], h[i]);
    }
  }

  /** Where the items stand that are kept. */
  function KeptAt(drops: seq<bool>): seq<nat> {
    if drops == [] then []
    else KeptAt(drops[..|drops| - 1]) + (if drops[|drops| - 1] then [] else [|drops| - 1])
  }

  /** Which items of the array are for the peer. */
  function Drops(h: seq<Item>, peer: Name): (r: seq<bool>)
    ensures |r| == |h| && forall i | 0 <= i < |h| :: r[i] <==> h[i].peer == To(peer)
  {
    seq(|h|, i requires 0 <= i < |h| => h[i].peer == To(peer))
  }

  lemma {:induction false} KeptAtIs(drops: seq<bool>)
    ensures forall n | 0 <= n < |KeptAt(drops)| :: KeptAt(drops)[n] < |drops| && !drops[KeptAt(drops)[n]]
    ensures forall m, n | 0 <= m < n < |KeptAt(drops)| :: KeptAt(drops)[m] < KeptAt(drops)[n]
  {
    if drops != [] {
      KeptAtIs(drops[..|drops| - 1]);
    }
  }

  lemma {:induction false} KeptStands(h: seq<Item>, peer: Name)
    ensures var ks := KeptAt(Drops(h, peer));
      |Kept(h, peer)| == |ks| && forall n | 0 <= n < |ks| :: ks[n] < |h| && Kept(h, peer)[n] == h[ks[n]]
  {
    if h != [] {
      var rest := h[..|h| - 1];
      KeptStands(rest, peer);
      assert Drops(h, peer)[..|h| - 1] == Drops(rest, peer);
    }
  }

  /** Among the items kept, each one's new parent was above it before. */
  ghost predicate KeepsShape(drops: seq<bool>) {
    forall n | 0 < n < |KeptAt(drops)| :: Over(KeptAt(drops)[ParentOf(n)], KeptAt(drops)[n])
  }

  lemma ShapeKeepsOrder(h: seq<Item>, peer: Name)
    requires HeapOrdered(h) && KeepsShape(Drops(h, peer))
    ensures HeapOrdered(Kept(h, peer))
  {
    KeptStands(h, peer);
    var ks, kept := KeptAt(Drops(h, peer)), Kept(h, peer);
    forall n | 0 < n < |kept|
      ensures Above(kept, n)
    {
      OverDoesNotFollow(h, ks[ParentOf(n)], ks[n]);
    }
  }

  /** The array in which just what is over place `k` is urgent. */
  function UrgentOver(drops: seq<bool>, peer: Name, k: nat): (r: seq<Item>)
    ensures |r| == |drops|
  {
    seq(|drops|, i requires 0 <= i < |drops| =>
      Item(i, [], if drops[i] then To(peer) else Broadcast, if Over(i, k) then 1 else 0, 0))
  }

  lemma UrgentOverIsOrdered(drops: seq<bool>, peer: Name, k: nat)
    requires k < |drops|
    ensures HeapOrdered(UrgentOver(drops, peer, k)) && Drops(UrgentOver(drops, peer, k), peer) == drops
  {
    var h := UrgentOver(drops, peer, k);
    forall i | 0 < i < |h|
      ensures Above(h, i)
    {
      if Over(i, k) { OverParent(i, k); }
    }
    assert Drops(h, peer) == drops;
  }

  lemma {:induction false} OverParent(i: nat, k: nat)
    requires Over(i, k) && i > 0
    ensures Over(ParentOf(i), k)
  {
    if i != k {
      OverParent(i, ParentOf(k));
    } else {
      assert Over(ParentOf(i), ParentOf(i));
    }
  }

  lemma ShapeLostOrderLost(drops: seq<bool>, peer: Name)
    requires !KeepsShape(drops)
    ensures exists h :: HeapOrdered(h) && Drops(h, peer) == drops && !HeapOrdered(Kept(h, peer))
  {
    var ks := KeptAt(drops);
    var n :| 0 < n < |ks| && !Over(ks[ParentOf(n)], ks[n]);
    KeptAtIs(drops);
    var h := UrgentOver(drops, peer, ks[n]);
    UrgentOverIsOrdered(drops, peer, ks[n]);
    KeptStands(h, peer);
    assert !Above(Kept(h, peer), n);
  }

  /** Dropping a peer's items keeps every heap with those items at these places in order exactly if each kept
      item's new parent was above it before. */
  lemma DroppingKeepsOrderIff(drops: seq<bool>, peer: Name)
    ensures (forall h | HeapOrdered(h) && Drops(h, peer) == drops :: HeapOrdered(Kept(h, peer))) <==> KeepsShape(drops)
  {
    if KeepsShape(drops) {
      forall h | HeapOrdered(h) && Drops(h, peer) == drops ensures HeapOrdered(Kept(h, peer)) {
        ShapeKeepsOrder(h, peer);
      }
    } else {
      ShapeLostOrderLost(drops, peer);
    }
  }

  lemma {:induction false} OnlyTheEnd(drops: seq<bool>, m: nat)
    requires m <= |drops| && forall i | 0 <= i < |drops| :: drops[i] <==> i >= m
    ensures |KeptAt(drops)| == m && forall n | 0 <= n < m :: KeptAt(drops)[n] == n
  {
    if drops != [] {
      OnlyTheEnd(drops[..|drops| - 1], if m == |drops| then m - 1 else m);
    }
  }

  /** So it does if the peer's items are the last of the array. */
  lemma DroppingTheEndKeepsOrder(h: seq<Item>, peer: Name, m: nat)
    requires HeapOrdered(h) && m <= |h| && forall i | 0 <= i < |h| :: h[i].peer == To(peer) <==> i >= m
    ensures HeapOrdered(Kept(h, peer)) && Kept(h, peer) == h[..m]
  {
    OnlyTheEnd(Drops(h, peer), m);
    KeptStands(h, peer);
    forall n | 0 < n < m
      ensures Over(ParentOf(n), n)
    {
      assert Over(ParentOf(n), ParentOf(n));
    }
    ShapeKeepsOrder(h, peer);
  }

  /** Dropping a peer's items takes them out of the array as it stands, which may then be out of heap order. */
  lemma DroppingBreaksOrder(peer: Name, other: Name)
    requires peer != other
    ensures exists h: seq<Item> :: HeapOrdered(h) && !HeapOrdered(Kept(h, peer))
  {
    var a, b := Item(0, [], To(peer), 10, 0), Item(1, [], To(peer), 9, 0);
    var c, d := Item(2, [], To(other), 5, 0), Item(3, [], To(other), 8, 0);
    var h := [a, b, c, d];
    assert h[..3] == [a, b, c] && h[..3][..2] == [a, b] && h[..3][..2][..1] == [a] && h[..3][..2][..1][..0] == [];
    assert Kept([a], peer) == [] + [];
    assert Kept([a, b], peer) == Kept([a], peer) + [];
    assert Kept([a, b, c], peer) == [] + [c];
    assert Kept(h, peer) == [c] + [d];
    assert [c] + [d] == [c, d];
    assert !Above([c, d], 1);
    assert HeapOrdered(h);
  }
}
