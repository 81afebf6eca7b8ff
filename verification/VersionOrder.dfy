/**
 What the version rule promises: `NewerVersion` is a lexicographic strict total order, and
 `PickVersion` coincides with it exactly while no vector contradicts the clock.
 */
module VersionOrder {
  import opened Names
  import opened Versions

  /** `d` is the lowest device whose counts differ. */
  ghost predicate FirstDifference(a: Vector, b: Vector, d: Name) {
    && Count(a, d) != Count(b, d)
    && forall e :: Less(e, d) ==> Count(a, e) == Count(b, e)
  }

  /** The lexicographic order of vectors: more edits of the lowest device where they differ. */
  ghost predicate VectorLexBefore(a: Vector, b: Vector) {
    exists d :: FirstDifference(a, b, d) && Count(a, d) > Count(b, d)
  }

  function UnseenSet(a: Vector, b: Vector): set<Name> {
    set d | d in a.Keys && a[d] > Count(b, d)
  }

  lemma UnseenEditsShape(a: Vector, b: Vector)
    ensures UnseenEdits(a, b) == [] <==> Includes(b, a)
    ensures UnseenEdits(a, b) != [] ==> IsLowest(UnseenEdits(a, b)[0], UnseenSet(a, b))
  {
    var unseen := UnseenSet(a, b);
    assert UnseenEdits(a, b) == Sorted(unseen);
    if Includes(b, a) {
      forall d
        ensures d !in unseen
      {
        assert Count(a, d) <= Count(b, d);
      }
    } else {
      var d :| Count(a, d) > Count(b, d);
      assert d in unseen;
    }
  }

  /** The code's "lowest device with an unseen edit" is the lexicographic order of the vectors. */
  lemma UnseenEditsAreLexicographic(a: Vector, b: Vector)
    ensures var aOnly, bOnly := UnseenEdits(a, b), UnseenEdits(b, a);
      VectorLexBefore(a, b) <==> aOnly != [] && (bOnly == [] || Less(aOnly[0], bOnly[0]))
  {
    UnseenEditsShape(a, b);
    UnseenEditsShape(b, a);
    var aOnly, bOnly := UnseenEdits(a, b), UnseenEdits(b, a);
    if aOnly != [] && (bOnly == [] || Less(aOnly[0], bOnly[0])) {
      var d := aOnly[0];
      forall e | Less(e, d)
        ensures Count(a, e) == Count(b, e)
      {
        LessTrichotomy(e, d);
        assert Count(a, e) > Count(b, e) ==> e in UnseenSet(a, b);
        if Count(b, e) > Count(a, e) {
          assert e in UnseenSet(b, a);
          LessTransitive(e, d, bOnly[0]);
          LessTrichotomy(e, bOnly[0]);
        }
      }
      assert FirstDifference(a, b, d);
    }
    if VectorLexBefore(a, b) {
      var d :| FirstDifference(a, b, d) && Count(a, d) > Count(b, d);
      assert d in UnseenSet(a, b);
      var m := aOnly[0];
      LessTrichotomy(m, d);
      assert m == d;
      if bOnly != [] {
        LessTrichotomy(d, bOnly[0]);
      }
    }
  }

  lemma VectorLexTrichotomy(a: Vector, b: Vector)
    ensures VectorLexBefore(a, b) || VectorLexBefore(b, a) || SameCounts(a, b)
    ensures !(VectorLexBefore(a, b) && VectorLexBefore(b, a))
    ensures SameCounts(a, b) ==> !VectorLexBefore(a, b)
  {
    UnseenEditsAreLexicographic(a, b);
    UnseenEditsAreLexicographic(b, a);
    UnseenEditsShape(a, b);
    UnseenEditsShape(b, a);
    OrderMeaning(a, b);
    var aOnly, bOnly := UnseenEdits(a, b), UnseenEdits(b, a);
    if aOnly != [] && bOnly != [] {
      LessTrichotomy(aOnly[0], bOnly[0]);
    }
  }

  lemma VectorLexTransitive(a: Vector, b: Vector, c: Vector)
    requires VectorLexBefore(a, b) && VectorLexBefore(b, c)
    ensures VectorLexBefore(a, c)
  {
    var d :| FirstDifference(a, b, d) && Count(a, d) > Count(b, d);
    var e :| FirstDifference(b, c, e) && Count(b, e) > Count(c, e);
    LessTrichotomy(d, e);
    var low := if Less(e, d) then e else d;
    forall x | Less(x, low)
      ensures Count(a, x) == Count(c, x)
    {
      if Less(d, e) { LessTransitive(x, d, e); }
      if Less(e, d) { LessTransitive(x, e, d); }
    }
    assert FirstDifference(a, c, low);
  }

  // --- NewerVersion ---

  ghost predicate SameVectors(a: Version, b: Version) { SameCounts(a.vv, b.vv) }

  /** Later time; then the vectors' lexicographic order; then the smaller hash; then the smaller device. */
  ghost predicate LexBeats(a: Version, b: Version) {
    || a.mtime > b.mtime
    || (a.mtime == b.mtime && VectorLexBefore(a.vv, b.vv))
    || (a.mtime == b.mtime && SameVectors(a, b) && Less(a.hash, b.hash))
    || (a.mtime == b.mtime && SameVectors(a, b) && a.hash == b.hash && Less(a.device, b.device))
  }

  /** Versions that carry a hash and come from different, named devices. */
  ghost predicate Identified(a: Version, b: Version) {
    a.hash != [] && b.hash != [] && a.device != [] && b.device != [] && a.device != b.device
  }

  lemma NewerIsLexicographic(a: Version, b: Version)
    requires Identified(a, b)
    ensures NewerVersion(a, b).A? <==> LexBeats(a, b)
  {
    UnseenEditsAreLexicographic(a.vv, b.vv);
    VectorLexTrichotomy(a.vv, b.vv);
    UnseenEditsShape(a.vv, b.vv);
    UnseenEditsShape(b.vv, a.vv);
    OrderMeaning(a.vv, b.vv);
    LessTrichotomy(a.hash, b.hash);
    LessTrichotomy(a.device, b.device);
    var aOnly, bOnly := UnseenEdits(a.vv, b.vv), UnseenEdits(b.vv, a.vv);
    if aOnly != [] && bOnly != [] { LessTrichotomy(aOnly[0], bOnly[0]); }
  }

  lemma SameCountsTransfers(a: Vector, b: Vector, c: Vector)
    requires SameCounts(a, b)
    ensures VectorLexBefore(a, c) <==> VectorLexBefore(b, c)
    ensures VectorLexBefore(c, a) <==> VectorLexBefore(c, b)
    ensures SameCounts(a, c) <==> SameCounts(b, c)
  {
    forall d
      ensures FirstDifference(a, c, d) <==> FirstDifference(b, c, d)
      ensures FirstDifference(c, a, d) <==> FirstDifference(c, b, d)
    {}
    if SameCounts(a, c) {
      forall d ensures Count(b, d) == Count(c, d) { assert Count(a, d) == Count(b, d); }
    }
    if SameCounts(b, c) {
      forall d ensures Count(a, d) == Count(c, d) { assert Count(a, d) == Count(b, d); }
    }
  }

  /** Exactly one of two identified versions is the newer, and being newer is transitive. */
  lemma NewerIsStrictTotalOrder(a: Version, b: Version, c: Version)
    requires Identified(a, b) && Identified(b, c) && Identified(a, c)
    ensures NewerVersion(a, b).A? <==> NewerVersion(b, a).B?
    ensures NewerVersion(a, b).A? && NewerVersion(b, c).A? ==> NewerVersion(a, c).A?
  {
    NewerIsLexicographic(a, b);
    NewerIsLexicographic(b, a);
    NewerIsLexicographic(b, c);
    NewerIsLexicographic(a, c);
    VectorLexTrichotomy(a.vv, b.vv);
    VectorLexTrichotomy(b.vv, a.vv);
    LessTrichotomy(a.hash, b.hash);
    LessTrichotomy(a.device, b.device);
    if LexBeats(a, b) && LexBeats(b, c) && a.mtime == b.mtime == c.mtime {
      if VectorLexBefore(a.vv, b.vv) && VectorLexBefore(b.vv, c.vv) {
        VectorLexTransitive(a.vv, b.vv, c.vv);
      } else if SameVectors(a, b) {
        SameCountsTransfers(a.vv, b.vv, c.vv);
        if SameVectors(b, c) {
          if Less(a.hash, b.hash) && Less(b.hash, c.hash) { LessTransitive(a.hash, b.hash, c.hash); }
          if Less(a.device, b.device) && Less(b.device, c.device) { LessTransitive(a.device, b.device, c.device); }
        }
      } else {
        SameCountsTransfers(b.vv, c.vv, a.vv);
      }
    }
  }

  /** Nothing in the two versions tells them apart: same time, same counts, no two different hashes or devices. */
  ghost predicate Indistinguishable(a: Version, b: Version) {
    && a.mtime == b.mtime
    && SameVectors(a, b)
    && (a.hash == [] || b.hash == [] || a.hash == b.hash)
    && (a.device == [] || b.device == [] || a.device == b.device)
  }

  /** The two orders of asking name the same winner, except for versions that nothing tells apart: each order
      then names its first. */
  lemma SwapSwapsUnlessIndistinguishable(a: Version, b: Version)
    ensures (NewerVersion(a, b).A? <==> NewerVersion(b, a).B?) <==> !Indistinguishable(a, b)
  {
    UnseenEditsShape(a.vv, b.vv);
    UnseenEditsShape(b.vv, a.vv);
    UnseenEditsAreLexicographic(a.vv, b.vv);
    UnseenEditsAreLexicographic(b.vv, a.vv);
    VectorLexTrichotomy(a.vv, b.vv);
    OrderMeaning(a.vv, b.vv);
    LessTrichotomy(a.hash, b.hash);
    LessTrichotomy(a.device, b.device);
    var aOnly, bOnly := UnseenEdits(a.vv, b.vv), UnseenEdits(b.vv, a.vv);
    if aOnly != [] && bOnly != [] { LessTrichotomy(aOnly[0], bOnly[0]); }
  }

  // --- PickVersion ---

  ghost predicate CausallyAfter(a: Version, b: Version) { Includes(a.vv, b.vv) && !Includes(b.vv, a.vv) }

  /** The vectors say `a` was made with `b` in hand, the clocks say it is older. */
  ghost predicate ClockInverted(a: Version, b: Version) { CausallyAfter(a, b) && a.mtime < b.mtime }

  /** The vectors and the newer rule agree on a pair exactly when no vector contradicts the clock. */
  lemma PickIsNewerUnlessInverted(a: Version, b: Version)
    ensures PickVersion(a, b) == NewerVersion(a, b) <==> !ClockInverted(a, b) && !ClockInverted(b, a)
  {
    OrderMeaning(a.vv, b.vv);
    UnseenEditsShape(a.vv, b.vv);
    UnseenEditsShape(b.vv, a.vv);
  }

  lemma PickSwaps(a: Version, b: Version)
    ensures (PickVersion(a, b).A? <==> PickVersion(b, a).B?) <==> !Indistinguishable(a, b)
  {
    OrderMeaning(a.vv, b.vv);
    OrderMeaning(b.vv, a.vv);
    SwapSwapsUnlessIndistinguishable(a, b);
  }

  /** Versions of two devices that are both named always have one winner, whichever end asks. */
  lemma NamedDevicesPickAlike(a: Version, b: Version)
    requires a.device != [] && b.device != [] && a.device != b.device
    ensures NewerVersion(a, b).A? <==> NewerVersion(b, a).B?
    ensures PickVersion(a, b).A? <==> PickVersion(b, a).B?
  {
    SwapSwapsUnlessIndistinguishable(a, b);
    PickSwaps(a, b);
  }

  /**
   A copy that came from no known peer, with the time and counts of a deletion here: the deletion wins if it is
   asked about first, as `deletionOutranks` does, and the copy if that is.
   */
  lemma UnnamedDevicesCanDiffer(mtime: real, vv: Vector, me: Name, hash: Name)
    ensures var deletion, copy := Version(mtime, vv, [], me), Version(mtime, vv, hash, []);
      NewerVersion(deletion, copy).A? && NewerVersion(copy, deletion).A? && PickVersion(deletion, copy).A?
        && PickVersion(copy, deletion).A?
  {
    var deletion, copy := Version(mtime, vv, [], me), Version(mtime, vv, hash, []);
    SwapSwapsUnlessIndistinguishable(deletion, copy);
    PickSwaps(deletion, copy);
    OrderMeaning(vv, vv);
    assert Indistinguishable(deletion, copy);
  }

  /** `p` beats `q` beats `r` beats `p`. */
  ghost predicate PickCycle(p: Version, q: Version, r: Version) {
    PickVersion(p, q).A? && PickVersion(q, r).A? && PickVersion(r, p).A?
  }

  /** By the newer rule p, q, r is the order; only the vectors of the outer two contradict it. */
  ghost predicate OuterPairInverted(p: Version, q: Version, r: Version) {
    && NewerVersion(p, q).A? && NewerVersion(q, r).A?
    && ClockInverted(r, p) && !ClockInverted(q, p) && !ClockInverted(r, q)
  }

  /** Three versions are picked in a cycle exactly when, sorted newest first, only the outer pair is clock-inverted. */
  lemma PickCycleIffOuterPairInverted(p: Version, q: Version, r: Version)
    requires Identified(p, q) && Identified(q, r) && Identified(p, r)
    ensures PickCycle(p, q, r) <==>
      OuterPairInverted(p, q, r) || OuterPairInverted(q, r, p) || OuterPairInverted(r, p, q)
  {
    if OuterPairInverted(p, q, r) { OuterInversionCycles(p, q, r); }
    if OuterPairInverted(q, r, p) { OuterInversionCycles(q, r, p); }
    if OuterPairInverted(r, p, q) { OuterInversionCycles(r, p, q); }
    if PickCycle(p, q, r) {
      SwapSwapsUnlessIndistinguishable(p, q);
      SwapSwapsUnlessIndistinguishable(q, r);
      SwapSwapsUnlessIndistinguishable(p, r);
      NewerIsStrictTotalOrder(p, q, r);
      NewerIsStrictTotalOrder(r, q, p);
      if NewerVersion(p, q).A? && NewerVersion(p, r).A? {
        CycleFromNewest(p, q, r);
      } else if NewerVersion(q, r).A? && NewerVersion(q, p).A? {
        CycleFromNewest(q, r, p);
      } else {
        CycleFromNewest(r, p, q);
      }
    }
  }

  lemma OuterInversionCycles(p: Version, q: Version, r: Version)
    requires Identified(p, q) && Identified(q, r) && Identified(p, r)
    requires OuterPairInverted(p, q, r)
    ensures PickCycle(p, q, r)
  {
    PickIsNewerUnlessInverted(p, q);
    PickIsNewerUnlessInverted(q, r);
    OrderMeaning(r.vv, p.vv);
  }

  lemma CycleFromNewest(p: Version, q: Version, r: Version)
    requires Identified(p, q) && Identified(q, r) && Identified(p, r)
    requires PickCycle(p, q, r)
    requires NewerVersion(p, q).A? && NewerVersion(p, r).A?
    ensures OuterPairInverted(p, q, r)
  {
    PickIsNewerUnlessInverted(p, q);
    PickIsNewerUnlessInverted(q, r);
    PickIsNewerUnlessInverted(r, p);
    SwapSwapsUnlessIndistinguishable(p, r);
    OrderMeaning(q.vv, p.vv);
    OrderMeaning(p.vv, q.vv);
    IncludesTransitive(q.vv, r.vv, p.vv);
  }

  lemma IncludesTransitive(a: Vector, b: Vector, c: Vector)
    ensures Includes(a, b) && Includes(b, c) ==> Includes(a, c)
    ensures Includes(a, b) && Includes(b, c) && Includes(c, a) ==> Includes(c, b) && Includes(b, a)
  {
    if Includes(a, b) && Includes(b, c) {
      forall d ensures Count(c, d) <= Count(a, d) { assert Count(c, d) <= Count(b, d) <= Count(a, d); }
      if Includes(c, a) {
        forall d ensures Count(b, d) <= Count(c, d) && Count(a, d) <= Count(b, d) {
          assert Count(b, d) <= Count(a, d) <= Count(c, d) && Count(c, d) <= Count(b, d);
        }
      }
    }
  }

  /** Picking among versions of which no pair is clock-inverted is transitive. */
  lemma PickIsTransitiveWithoutInversion(a: Version, b: Version, c: Version)
    requires Identified(a, b) && Identified(b, c) && Identified(a, c)
    requires forall x <- [a, b, c], y <- [a, b, c] :: !ClockInverted(x, y)
    requires PickVersion(a, b).A? && PickVersion(b, c).A?
    ensures PickVersion(a, c).A?
  {
    PickIsNewerUnlessInverted(a, b);
    PickIsNewerUnlessInverted(b, c);
    PickIsNewerUnlessInverted(a, c);
    NewerIsStrictTotalOrder(a, b, c);
  }

  /** The rule does cycle: q is newest, r is oldest but made on top of p with a slow clock. */
  lemma PickCycleWitness()
    ensures exists p, q, r ::
      Identified(p, q) && Identified(q, r) && Identified(p, r) && PickCycle(p, q, r)
  {
    var x, y, z: Name := [1], [2], [3];
    var p := Version(30.0, map[x := 1], [1], x);
    var q := Version(20.0, map[y := 1], [2], y);
    var r := Version(10.0, map[x := 2], [3], z);
    assert Count(p.vv, x) == 1 && Count(q.vv, x) == 0 && Count(r.vv, x) == 2;
    assert Count(p.vv, y) == 0 && Count(q.vv, y) == 1 && Count(r.vv, y) == 0;
    OrderMeaning(p.vv, q.vv);
    OrderMeaning(q.vv, r.vv);
    OrderMeaning(r.vv, p.vv);
    assert Includes(r.vv, p.vv);
    hide UnseenEdits, Includes, Count;
    assert PickCycle(p, q, r);
  }
}
