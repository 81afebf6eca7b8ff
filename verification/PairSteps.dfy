/**
 Each conjunct of `PairInv` across one step, and the theorems about whole runs of two devices.
 Throughout, `d` is the device that takes the step, `p` its peer.
 */
module PairSteps {
  import opened Basics
  import opened Names
  import opened Versions
  import opened Replicas
  import opened Gossip
  import opened PairRuns
  import opened PairTheorems

  ghost predicate Two(s: Pair, d: Name, p: Name) {
    d != p && {d, p} <= s.sys.replicas.Keys && {d, p} <= s.links.Keys
  }

  // --- A delivery: the link it came from ---

  ghost predicate Received(s: Pair, s': Pair, d: Name, p: Name, u: Update) {
    && Two(s, d, p) && s'.sys.replicas.Keys == s.sys.replicas.Keys && s'.links.Keys == s.links.Keys
    && ReceivedFacts(s, s', d, p, u)
    && IsLatest(s.sys.log, File(u.content, u.mtime), u.vv)
    && HoldsLatest(s.sys.log, s.sys.replicas[d]) && HoldsLatest(s.sys.log, s'.sys.replicas[d])
    && DistinctTimes(s.sys.log)
  }

  lemma InLink(s: Pair, s': Pair, d: Name, p: Name, u: Update)
    requires Received(s, s', d, p, u) && LinkOk(s, d, p)
    ensures LinkOk(s', d, p)
  {
    var l, l' := s.links[d], s'.links[d];
    forall i | 0 <= i < |l'|
      ensures l'[i] == l[i + 1] && Count(l[0].vv, p) <= Count(l[i + 1].vv, p)
    {}
  }

  ghost predicate OwnCounts(log: Log, p: Name) {
    forall c | c in log && log[c].device == p :: Count(log[c].vv, p) == log[c].count
  }

  lemma FirstShifts(l: seq<Update>, i: nat, c: Content, e: Edit)
    requires l != [] && IsFirstOf(l, i, c, e) && i > 0
    ensures IsFirstOf(l[1..], i - 1, c, e)
  {
    forall j | 0 <= j < i - 1 ensures Count(l[1..][j].vv, e.device) < e.count {
      assert l[1..][j] == l[j + 1];
    }
  }

  lemma InAnnounced(s: Pair, s': Pair, d: Name, p: Name, u: Update)
    requires Received(s, s', d, p, u) && LinkOk(s, d, p) && Announced(s, d, p) && OwnCounts(s.sys.log, p)
    ensures Announced(s', d, p)
  {
    var l, log := s.links[d], s.sys.log;
    assert s'.links[d] == l[1..] && l[0] == u;
    forall c | c in log && log[c].device == p && log[c].count > Count(s'.sys.replicas[d].vv, p)
      ensures exists i :: IsFirstOf(s'.links[d], i, c, log[c])
    {
      var i: nat :| IsFirstOf(l, i, c, log[c]);
      assert Count(log[c].vv, p) == log[c].count;
      FirstShifts(l, i, c, log[c]);
    }
  }

  /** A delivery that leaves `c` in hand leaves no overtaker behind. */
  lemma RespectsStays(s: Pair, s': Pair, d: Name, p: Name, u: Update, c: Content, content: Content, vv: Vector)
    requires Received(s, s', d, p, u) && Announced(s, d, p)
    requires c in s.sys.log && s.sys.log[c].mtime == TimeOf(s'.sys.replicas[d])
    requires Respects(s, d, p, c, content, vv)
    ensures Respects(s', d, p, c, content, vv)
  {
    var e, r, r' := s.sys.log[c], s.sys.replicas[d], s'.sys.replicas[d];
    if Count(vv, d) >= e.count && !(content in s.sys.log && c in s.sys.log[content].line) {
      var f :| f in s.sys.log && Overtakes(s.sys.log[f], d, p, r.vv, e, vv);
      if s.sys.log[f].count <= Count(u.vv, p) {
        OvertakerArrives(s, d, p, f);
      }
      assert Overtakes(s.sys.log[f], d, p, r'.vv, e, vv);
    }
  }

  /** A delivery only ever brings a foreign edit into the receiver's hands. */
  ghost predicate OnlyForeign(s: Pair, s': Pair, d: Name)
    requires d in s.sys.replicas && d in s'.sys.replicas
  {
    HoldsOwn(s', d) ==> s.sys.replicas[d].file == s'.sys.replicas[d].file
  }

  lemma InDefended(s: Pair, s': Pair, d: Name, p: Name, u: Update)
    requires Received(s, s', d, p, u) && Announced(s, d, p) && Defended(s, d, p) && OnlyForeign(s, s', d)
    ensures Defended(s', d, p)
  {
    if HoldsOwn(s', d) && Held(s', d) !in s'.sys.replicas[d].copies {
      var c := Held(s, d);
      forall v | v in s'.links[d]
        ensures Respects(s', d, p, c, v.content, v.vv)
      {
        assert v in s.links[d];
        RespectsStays(s, s', d, p, u, c, v.content, v.vv);
      }
      if s.sys.replicas[p].file.Some? {
        RespectsStays(s, s', d, p, u, c, Held(s, p), s.sys.replicas[p].vv);
      }
    }
  }

  // --- A delivery: the link for the reply ---

  ghost predicate Replied(s: Pair, s': Pair, d: Name, p: Name)
    requires Two(s, d, p) && Two(s', d, p)
  {
    var r := s.sys.replicas[d];
    || s'.links[p] == s.links[p]
    || (r.file.Some? && s'.links[p] == s.links[p] + [Update(Held(s, d), TimeOf(r), r.vv, d)])
  }

  lemma OutLink(s: Pair, s': Pair, d: Name, p: Name, u: Update)
    requires Received(s, s', d, p, u) && LinkOk(s, p, d)
    requires Count(s.sys.replicas[p].vv, d) <= Count(s.sys.replicas[d].vv, d)
    ensures LinkOk(s', p, d)
  {
    assert Replied(s, s', d, p);
    var l, l' := s.links[p], s'.links[p];
    forall i | 0 <= i < |l'|
      ensures i < |l| ==> l'[i] == l[i]
    {}
  }

  lemma OutAnnounced(s: Pair, s': Pair, d: Name, p: Name, u: Update)
    requires Received(s, s', d, p, u) && Announced(s, p, d)
    ensures Announced(s', p, d)
  {
    assert Replied(s, s', d, p);
    forall c | c in s.sys.log && s.sys.log[c].device == d && s.sys.log[c].count > Count(s.sys.replicas[p].vv, d)
      ensures exists i :: IsFirstOf(s'.links[p], i, c, s.sys.log[c])
    {
      var i :| IsFirstOf(s.links[p], i, c, s.sys.log[c]);
      assert IsFirstOf(s'.links[p], i, c, s.sys.log[c]);
    }
  }

  /** What is known of the edit `c` in p's own hands when its peer takes a step. */
  ghost predicate InHand(s: Pair, d: Name, p: Name, c: Content)
    requires Two(s, d, p)
  {
    var log, q := s.sys.log, s.sys.replicas[p];
    && q.file.Some? && Held(s, p) == c && c in log && log[c].device == p && c in log[c].line
    && log[c].mtime == TimeOf(q)
    && (forall x | x in log && log[x].device in {p, []} :: log[x].mtime <= TimeOf(q))
    && (forall x | x in log && Counted(log[x], q.vv) :: log[x].mtime <= TimeOf(q))
    && (forall x | x in log :: log[x].device in {d, p, []})
    && (forall x | x in log && log[x].device == d :: Includes(s.sys.replicas[d].vv, log[x].vv))
  }

  /** After `d` handled a message, its version respects the edit in p's hands. */
  lemma ReceiverRespects(s: Pair, s': Pair, d: Name, p: Name, u: Update, c: Content)
    requires Received(s, s', d, p, u) && InHand(s, d, p, c)
    requires u.mtime <= TimeOf(s.sys.replicas[p]) && Count(s.sys.replicas[d].vv, p) <= Count(u.vv, p)
    requires s.sys.replicas[d].file.Some? ==> Respects(s, p, d, c, Held(s, d), s.sys.replicas[d].vv)
    ensures Respects(s', p, d, c, Held(s', d), s'.sys.replicas[d].vv)
  {
    var log, r, r', q, e := s.sys.log, s.sys.replicas[d], s'.sys.replicas[d], s.sys.replicas[p], s.sys.log[c];
    var h := Held(s', d);
    if Count(r'.vv, p) >= e.count {
      // What arrived counts the edit in p's hands, so it is that edit.
      assert Counted(e, u.vv);
      assert u.content == c;
      if r'.file == r.file && Count(r.vv, p) < e.count && h != c {
        // The receiver kept a later version of its own, made without the edit.
        assert log[h].mtime == TimeOf(r') && TimeOf(r') >= e.mtime;
        assert log[h].mtime > e.mtime;
        assert log[h].device == d;
        assert !Counted(log[h], q.vv);
        assert Count(log[h].vv, p) <= Count(r.vv, p);
        assert Overtakes(log[h], p, d, q.vv, e, r'.vv);
      } else if r'.file == r.file && Count(r.vv, p) >= e.count && c !in log[h].line {
        var f :| f in log && Overtakes(log[f], p, d, q.vv, e, r.vv);
        assert Overtakes(log[f], p, d, q.vv, e, r'.vv);
      }
    }
  }

  lemma OutDefended(s: Pair, s': Pair, d: Name, p: Name, u: Update)
    requires Received(s, s', d, p, u) && Defended(s, p, d)
    requires HoldsOwn(s, p) ==> InHand(s, d, p, Held(s, p))
    requires s.sys.replicas[p].file.Some? ==> u.mtime <= TimeOf(s.sys.replicas[p])
    requires Count(s.sys.replicas[d].vv, p) <= Count(u.vv, p)
    ensures Defended(s', p, d)
  {
    assert Replied(s, s', d, p);
    if HoldsOwn(s', p) && Held(s', p) !in s'.sys.replicas[p].copies {
      var c := Held(s, p);
      ReceiverRespects(s, s', d, p, u, c);
      forall v | v in s'.links[p]
        ensures Respects(s', p, d, c, v.content, v.vv)
      {
        assert v in s.links[p] || v == Update(Held(s, d), TimeOf(s.sys.replicas[d]), s.sys.replicas[d].vv, d);
        assert Respects(s, p, d, c, v.content, v.vv);
      }
    }
  }

  // --- A delivery: what lives on ---

  lemma LivesOnStays(duo: Duo, s: Pair, s': Pair, x: Content, content: Content)
    requires Shaped(duo, s) && Shaped(duo, s') && LivesOn(duo, s, x, content)
    requires Grown(duo, s, s')
    ensures LivesOn(duo, s', x, content)
  {}

  /** Copies and the log only grow. */
  ghost predicate Grown(duo: Duo, s: Pair, s': Pair)
    requires Shaped(duo, s) && Shaped(duo, s')
  {
    Copies(duo, s) <= Copies(duo, s')
      && forall c | c in s.sys.log :: c in s'.sys.log && s'.sys.log[c].line == s.sys.log[c].line
  }

  /** What a descendant carries on, its own descendant carries on. */
  lemma LivesOnThrough(duo: Duo, s: Pair, x: Content, y: Content, z: Content)
    requires Shaped(duo, s) && LogOk(duo, s)
    requires y in s.sys.log && x in s.sys.log[y].line && LivesOn(duo, s, y, z)
    ensures LivesOn(duo, s, x, z)
  {
    if z in s.sys.log && y in s.sys.log[z].line {
      assert x in s.sys.log[z].line;
    } else {
      var w :| w in Copies(duo, s) && w in s.sys.log && y in s.sys.log[w].line;
      assert x in s.sys.log[w].line;
    }
  }

  lemma InKept(duo: Duo, s: Pair, s': Pair, d: Name, p: Name, u: Update)
    requires Shaped(duo, s) && Shaped(duo, s') && duo.Has(d) && duo.Has(p)
    requires Received(s, s', d, p, u) && Grown(duo, s, s') && Kept(duo, s, d, p)
    ensures Kept(duo, s', d, p)
  {
    forall v | v in s'.links[d]
      ensures Preserves(duo, s', p, v.content, v.vv)
    {
      assert v in s.links[d];
    }
  }

  /** Whatever device d has in hand, what replaces it carries it on, or a copy does. */
  lemma ReplacedLivesOn(duo: Duo, s: Pair, s': Pair, d: Name, p: Name, u: Update)
    requires Shaped(duo, s) && Shaped(duo, s') && duo.Has(d) && duo.Has(p) && LogOk(duo, s)
    requires Received(s, s', d, p, u) && Grown(duo, s, s') && Kept(duo, s, d, p)
    requires s.sys.replicas[d].file.Some? && s.sys.log[Held(s, d)].count > 0
    requires HoldsOwn(s, d) ==> Survives(s, s', d)
    requires Count(s.sys.replicas[d].vv, p) <= Count(u.vv, p)
    ensures LivesOn(duo, s', Held(s, d), Held(s', d))
  {
    var y := Held(s, d);
    if s'.sys.replicas[d].file == s.sys.replicas[d].file {
      assert y in s.sys.log[y].line;
    } else if HoldsOwn(s, d) {
      assert y in s.sys.log[y].line;
      if y in s'.sys.replicas[d].copies { assert y in Copies(duo, s'); }
    } else {
      assert s.sys.log[y].device == p;
      assert u in s.links[d];
      assert Preserves(duo, s, p, u.content, u.vv);
      assert LivesOn(duo, s, y, u.content);
    }
  }

  /** The receiver's new version carries on the receiver's edit `x`. */
  lemma ReceiverCarriesOn(duo: Duo, s: Pair, s': Pair, d: Name, p: Name, u: Update, x: Content)
    requires Shaped(duo, s) && Shaped(duo, s') && duo.Has(d) && duo.Has(p) && LogOk(duo, s) && LogOk(duo, s')
    requires Received(s, s', d, p, u) && Grown(duo, s, s') && Kept(duo, s, d, p)
    requires HoldsOwn(s, d) ==> Survives(s, s', d)
    requires Count(s.sys.replicas[d].vv, p) <= Count(u.vv, p)
    requires s.sys.replicas[d].file.Some? && Held(s, d) in s.sys.log && LivesOn(duo, s, x, Held(s, d))
    requires x in s.sys.log && s.sys.log[x].count > 0
    ensures LivesOn(duo, s', x, Held(s', d))
  {
    LivesOnStays(duo, s, s', x, Held(s, d));
    var y := Held(s, d);
    if x in s.sys.log[y].line {
      assert s.sys.log[y].count == 0 ==> x == y;
      ReplacedLivesOn(duo, s, s', d, p, u);
      LivesOnThrough(duo, s', x, y, Held(s', d));
    }
  }

  lemma OutKept(duo: Duo, s: Pair, s': Pair, d: Name, p: Name, u: Update)
    requires Shaped(duo, s) && Shaped(duo, s') && duo.Has(d) && duo.Has(p) && LogOk(duo, s) && LogOk(duo, s')
    requires Received(s, s', d, p, u) && Grown(duo, s, s') && Kept(duo, s, d, p) && Kept(duo, s, p, d)
    requires HoldsOwn(s, d) ==> Survives(s, s', d)
    requires Count(s.sys.replicas[d].vv, p) <= Count(u.vv, p)
    ensures Preserves(duo, s', d, Held(s', d), s'.sys.replicas[d].vv)
  {
    var r, r' := s.sys.replicas[d], s'.sys.replicas[d];
    forall x | x in s'.sys.log && s'.sys.log[x].device == d && s'.sys.log[x].count <= Count(r'.vv, d)
      ensures LivesOn(duo, s', x, Held(s', d))
    {
      assert Counted(s.sys.log[x], r.vv);
      assert Preserves(duo, s, d, Held(s, d), r.vv);
      assert s.sys.log[x].count > 0;
      ReceiverCarriesOn(duo, s, s', d, p, u, x);
    }
  }

  lemma OutLinkKept(duo: Duo, s: Pair, s': Pair, d: Name, p: Name, u: Update)
    requires Shaped(duo, s) && Shaped(duo, s') && duo.Has(d) && duo.Has(p)
    requires Received(s, s', d, p, u) && Grown(duo, s, s') && Kept(duo, s, p, d)
    ensures forall v | v in s'.links[p] :: Preserves(duo, s', d, v.content, v.vv)
  {
    assert Replied(s, s', d, p);
    var r := s.sys.replicas[d];
    forall v | v in s'.links[p]
      ensures Preserves(duo, s', d, v.content, v.vv)
    {
      assert v in s.links[p] || (r.file.Some? && v == Update(Held(s, d), TimeOf(r), r.vv, d));
      assert Preserves(duo, s, d, v.content, v.vv);
    }
  }

  // --- A delivery keeps the invariant ---

  lemma ReceiveIsReceived(duo: Duo, s: Pair, d: Name)
    requires PairInv(duo, s) && Can(duo, s, Receives(d))
    ensures var s' := Act(duo, s, Receives(d));
      Received(s, s', d, duo.Peer(d), s.links[d][0]) && Grown(duo, s, s') && OnlyForeign(s, s', d)
  {
    var s' := Act(duo, s, Receives(d));
    WhatAReceiveDoes(duo, s, d);
    HeadFacts(duo, s, d);
    SysKeepsInv(duo, s, Receives(d));
    assert HoldsLatest(s'.sys.log, s'.sys.replicas[d]);
    if s.links[d][0].content in s.sys.log && s.sys.log[s.links[d][0].content].device == d {
      ReplacedByForeign(duo, s, d);
    }
  }

  lemma HandFacts(duo: Duo, s: Pair, p: Name)
    requires PairInv(duo, s) && duo.Has(p) && HoldsOwn(s, p)
    ensures InHand(s, duo.Peer(p), p, Held(s, p))
  {
    var q := s.sys.replicas[p];
    OwnFacts(duo, s, p);
    assert HoldsLatest(s.sys.log, q);
    forall x | x in s.sys.log && s.sys.log[x].device in {p, []}
      ensures s.sys.log[x].mtime <= TimeOf(q)
    {
      NothingOwnIsNewer(duo, s, p, x);
    }
    LogFacts(duo, s, duo.Peer(p));
  }

  lemma LogFacts(duo: Duo, s: Pair, d: Name)
    requires PairInv(duo, s) && duo.Has(d)
    ensures forall x | x in s.sys.log :: s.sys.log[x].device in {duo.a, duo.b, []}
    ensures forall x | x in s.sys.log && s.sys.log[x].device == d :: Includes(s.sys.replicas[d].vv, s.sys.log[x].vv)
    ensures OwnCounts(s.sys.log, d)
  {
    forall x | x in s.sys.log
      ensures s.sys.log[x].device in {duo.a, duo.b, []}
      ensures s.sys.log[x].device == d ==> s.sys.log[x].count > 0
    {
      var e := s.sys.log[x];
      assert e.count > 0 ==> duo.Has(e.device);
    }
  }

  lemma LogStays(duo: Duo, s: Pair, s': Pair)
    requires Shaped(duo, s) && Shaped(duo, s') && LogOk(duo, s) && s'.sys.log == s.sys.log
    requires forall x | duo.Has(x) :: Includes(s'.sys.replicas[x].vv, s.sys.replicas[x].vv)
    ensures LogOk(duo, s')
  {
    forall c | c in s.sys.log && s.sys.log[c].count > 0
      ensures Includes(s'.sys.replicas[s.sys.log[c].device].vv, s.sys.log[c].vv)
    {
      var e := s.sys.log[c];
      var r, r' := s.sys.replicas[e.device], s'.sys.replicas[e.device];
      forall x ensures Count(e.vv, x) <= Count(r'.vv, x) {
        assert Count(e.vv, x) <= Count(r.vv, x) <= Count(r'.vv, x);
      }
    }
  }

  lemma ReceiveKeepsLog(duo: Duo, s: Pair, d: Name)
    requires PairInv(duo, s) && Can(duo, s, Receives(d))
    ensures LogOk(duo, Act(duo, s, Receives(d)))
  {
    var s' := Act(duo, s, Receives(d));
    WhatAReceiveDoes(duo, s, d);
    VectorsGrow(duo, s, s', d, s.links[d][0]);
    LogStays(duo, s, s');
  }

  lemma VectorsGrow(duo: Duo, s: Pair, s': Pair, d: Name, u: Update)
    requires Shaped(duo, s) && Shaped(duo, s') && duo.Has(d)
    requires ReceivedFacts(s, s', d, duo.Peer(d), u)
    ensures forall x | duo.Has(x) :: Includes(s'.sys.replicas[x].vv, s.sys.replicas[x].vv)
  {
    forall x | duo.Has(x)
      ensures Includes(s'.sys.replicas[x].vv, s.sys.replicas[x].vv)
    {
      assert x == d || x == duo.Peer(d);
    }
  }

  lemma ReceiveKeepsInLane(duo: Duo, s: Pair, d: Name)
    requires PairInv(duo, s) && Can(duo, s, Receives(d))
    ensures LaneInv(duo, Act(duo, s, Receives(d)), d)
  {
    var s', p, u := Act(duo, s, Receives(d)), duo.Peer(d), s.links[d][0];
    ReceiveIsReceived(duo, s, d);
    LaneOf(duo, s, d);
    LogFacts(duo, s, p);
    InLink(s, s', d, p, u);
    InAnnounced(s, s', d, p, u);
    InDefended(s, s', d, p, u);
    InKept(duo, s, s', d, p, u);
  }

  lemma ReceiveKeepsOutLane(duo: Duo, s: Pair, d: Name)
    requires PairInv(duo, s) && Can(duo, s, Receives(d))
    ensures LaneInv(duo, Act(duo, s, Receives(d)), duo.Peer(d))
  {
    var s', p, u := Act(duo, s, Receives(d)), duo.Peer(d), s.links[d][0];
    ReceiveIsReceived(duo, s, d);
    HeadFacts(duo, s, d);
    LaneOf(duo, s, p);
    LaneOf(duo, s, d);
    PeerKnowsLess(duo, s, d);
    if HoldsOwn(s, p) { HandFacts(duo, s, p); }
    if HoldsOwn(s, d) { OwnEditIsNeverReplacedSilently(duo, s, d); }
    ReceiveKeepsLog(duo, s, d);
    OutLink(s, s', d, p, u);
    OutAnnounced(s, s', d, p, u);
    OutDefended(s, s', d, p, u);
    OutKept(duo, s, s', d, p, u);
    OutLinkKept(duo, s, s', d, p, u);
  }

  lemma PeerKnowsLess(duo: Duo, s: Pair, d: Name)
    requires PairInv(duo, s) && duo.Has(d)
    ensures Count(s.sys.replicas[duo.Peer(d)].vv, d) <= Count(s.sys.replicas[d].vv, d)
  {
    assert Possible(s.sys, s.sys.replicas[duo.Peer(d)].vv);
    assert Count(s.sys.replicas[duo.Peer(d)].vv, d) <= Made(s.sys, d);
  }
}
