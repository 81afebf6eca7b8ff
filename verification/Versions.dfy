/**
 The rule that makes one of two versions win (src/utils/versions.ts).

 A vector maps devices to numbers of edits, zero where a device has no entry. If one vector includes
 the other its version wins; failing that the times decide, and then the tie-breaks of `NewerVersion`.
 */
module Versions {
  import opened Basics
  import opened Names

  type Vector = map<Name, nat>

  datatype VectorOrder = Equal | After | Before | Concurrent

  datatype Side = A | B

  /** A hash or device that is undefined, null or "" is the empty string: the code only asks whether it is truthy. */
  datatype Version = Version(mtime: real, vv: Vector, hash: Name, device: Name)

  function Count(v: Vector, d: Name): nat {
    if d in v then v[d] else 0
  }

  // --- Orders of vectors ---

  /** `a` includes every edit of `b`. */
  ghost predicate Includes(a: Vector, b: Vector) {
    forall d :: Count(b, d) <= Count(a, d)
  }

  ghost predicate SameCounts(a: Vector, b: Vector) {
    forall d :: Count(a, d) == Count(b, d)
  }

  /** `a` counts an edit that `b` has not seen. */
  predicate Ahead(a: Vector, b: Vector) {
    exists d | d in a.Keys :: a[d] > Count(b, d)
  }

  function OrderOf(a: Vector, b: Vector): VectorOrder {
    if Ahead(a, b) && Ahead(b, a) then Concurrent
    else if Ahead(a, b) then After
    else if Ahead(b, a) then Before
    else Equal
  }

  lemma AheadMeansNotIncluded(a: Vector, b: Vector)
    ensures Ahead(a, b) <==> !Includes(b, a)
  {
    if !Includes(b, a) {
      var d :| Count(a, d) > Count(b, d);
      assert d in a.Keys;
    }
    if Ahead(a, b) {
      var d :| d in a.Keys && a[d] > Count(b, d);
      assert Count(a, d) > Count(b, d);
    }
  }

  /** What the four verdicts say about the counts of every device. */
  lemma OrderMeaning(a: Vector, b: Vector)
    ensures OrderOf(a, b).Equal? <==> SameCounts(a, b)
    ensures OrderOf(a, b).After? <==> Includes(a, b) && !Includes(b, a)
    ensures OrderOf(a, b).Before? <==> Includes(b, a) && !Includes(a, b)
    ensures OrderOf(a, b).Concurrent? <==> !Includes(a, b) && !Includes(b, a)
    ensures SameCounts(a, b) <==> Includes(a, b) && Includes(b, a)
  {
    AheadMeansNotIncluded(a, b);
    AheadMeansNotIncluded(b, a);
  }

  method CompareVectors(a: Vector, b: Vector) returns (order: VectorOrder)
    ensures order == OrderOf(a, b)
  {
    var aAhead, bAhead := false, false;
    var left := a.Keys + b.Keys;
    while left != {}
      invariant left <= a.Keys + b.Keys
      invariant aAhead <==> exists d | d in a.Keys + b.Keys - left :: Count(a, d) > Count(b, d)
      invariant bAhead <==> exists d | d in a.Keys + b.Keys - left :: Count(b, d) > Count(a, d)
      decreases left
    {
      var device :| device in left;
      var x, y := Count(a, device), Count(b, device);
      if x > y {
        aAhead := true;
      } else if y > x {
        bAhead := true;
      }
      left := left - {device};
    }
    assert aAhead == Ahead(a, b) && bAhead == Ahead(b, a);
    if aAhead && bAhead { return Concurrent; }
    if aAhead { return After; }
    if bAhead { return Before; }
    return Equal;
  }

  // --- Merging vectors ---

  function Merge(a: Vector, b: Vector): (m: Vector)
    ensures m.Keys == a.Keys + b.Keys
  {
    map d | d in a.Keys + b.Keys :: Max(Count(a, d), Count(b, d))
  }

  method MergeVectors(a: Vector, b: Vector) returns (merged: Vector)
    ensures merged == Merge(a, b)
  {
    merged := map[];
    ghost var all := a.Keys + b.Keys;
    var left := a.Keys + b.Keys;
    while left != {}
      invariant merged.Keys !! left
      invariant merged.Keys + left == all
      invariant forall d | d in merged.Keys :: merged[d] == Max(Count(a, d), Count(b, d))
      decreases left
    {
      var device :| device in left;
      ghost var done := merged.Keys;
      merged := merged[device := Max(Count(a, device), Count(b, device))];
      assert merged.Keys == done + {device};
      left := left - {device};
    }
  }

  /** The merged vector includes both, and every vector that includes both includes it. */
  lemma MergeIsLeastUpperBound(a: Vector, b: Vector, c: Vector)
    ensures Includes(Merge(a, b), a) && Includes(Merge(a, b), b)
    ensures Includes(c, Merge(a, b)) <==> Includes(c, a) && Includes(c, b)
  {
    if Includes(c, Merge(a, b)) {
      forall d
        ensures Count(a, d) <= Count(c, d) && Count(b, d) <= Count(c, d)
      {
        assert Count(Merge(a, b), d) <= Count(c, d);
      }
    }
  }

  // --- Picking a winner ---

  /** The devices of which `a` counts more edits than `b`, in ascending order. */
  function UnseenEdits(a: Vector, b: Vector): seq<Name> {
    Sorted(set d | d in a.Keys && a[d] > Count(b, d))
  }

  function NewerVersion(a: Version, b: Version): Side {
    if a.mtime != b.mtime then
      if a.mtime > b.mtime then A else B
    else
      var aOnly, bOnly := UnseenEdits(a.vv, b.vv), UnseenEdits(b.vv, a.vv);
      if aOnly != [] && bOnly != [] then
        if Less(aOnly[0], bOnly[0]) then A else B
      else if |aOnly| != |bOnly| then
        if aOnly != [] then A else B
      else if a.hash != [] && b.hash != [] && a.hash != b.hash then
        if Less(a.hash, b.hash) then A else B
      else if a.device != [] && b.device != [] && a.device != b.device then
        if Less(a.device, b.device) then A else B
      else A
  }

  function PickVersion(a: Version, b: Version): Side {
    match OrderOf(a.vv, b.vv)
    case After => A
    case Before => B
    case _ => NewerVersion(a, b)
  }

  /** `mine` counts an edit of `device` that `theirs` lacks, so taking `theirs` would lose it. */
  predicate HasOwnUnseenEdit(mine: Vector, theirs: Vector, device: Name) {
    Count(mine, device) > Count(theirs, device)
  }
}
