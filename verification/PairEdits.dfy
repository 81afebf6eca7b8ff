/** The conjuncts of `PairInv` across an edit, the invariant of every run, and its consequences. */
module PairEdits {
  import opened Basics
  import opened Names
  import opened Versions
  import opened Replicas
  import opened Gossip
  import opened PairRuns
  import opened PairTheorems
  import opened PairSteps

  ghost predicate EditedFacts(s: Pair, s': Pair, d: Name, p: Name, content: Content, e: Edit) {
    && Two(s, d, p) && s'.sys.replicas.Keys == s.sys.replicas.Keys && s'.links.Keys == s.links.Keys
    && var r, r' := s.sys.replicas[d], s'.sys.replicas[d];
       var u := Update(content, e.mtime, e.vv, d);
    && content !in s.sys.log && s'.sys.log == s.sys.log[content := e]
    && e.device == d && e.count == Count(r.vv, d) + 1 == Count(e.vv, d)
    && content in e.line
    && (r.file.Some? ==> Held(s, d) in s.sys.log && e.line == s.sys.log[Held(s, d)].line + {content})
    && (r.file.None? ==> e.line == {content})
    && s'.sys.replicas[p] == s.sys.replicas[p]
    && r'.file == Some(File(content, e.mtime)) && r'.vv == e.vv && r'.copies == r.copies
    && (forall x :: x != d ==> Count(r'.vv, x) == Count(r.vv, x))
    && (r.file.Some? ==> TimeOf(r) < e.mtime)
    && s'.links[d] == s.links[d] && s'.links[p] == s.links[p] + [u]
    && Message(p, u) in s'.sys.net && s.sys.net <= s'.sys.net
    && HoldsLatest(s.sys.log, r)
  }

  lemma WhatAnEditDoes(duo: Duo, s: Pair, d: Name, content: Content, mtime: real)
    requires PairInv(duo, s) && Can(duo, s, Edits(d, content, mtime))
    ensures EditedFacts(s, Act(duo, s, Edits(d, content, mtime)), d, duo.Peer(d), content,
      NewEdit(s.sys, d, content, mtime))
  {
    assert HoldsLatest(s.sys.log, s.sys.replicas[d]);
    EditShape(duo, s, d, content, mtime);
  }

  lemma EditShape(duo: Duo, s: Pair, d: Name, content: Content, mtime: real)
    requires Shaped(duo, s) && Can(duo, s, Edits(d, content, mtime)) && HoldsLatest(s.sys.log, s.sys.replicas[d])
    ensures EditedFacts(s, Act(duo, s, Edits(d, content, mtime)), d, duo.Peer(d), content,
      NewEdit(s.sys, d, content, mtime))
  {
    var s' := Act(duo, s, Edits(d, content, mtime));
    var edited := Apply(duo.Cfg(), s.sys, EditFile(d, content, mtime));
    assert edited.replicas[d] == Edited(duo.HostFor(d), s.sys.replicas[d], content, mtime);
    assert s'.sys.replicas == edited.replicas;
    assert s'.sys.replicas[duo.Peer(d)] == s.sys.replicas[duo.Peer(d)];
  }

  // --- The link to the editor ---

  lemma EditInLink(s: Pair, s': Pair, d: Name, p: Name, content: Content, e: Edit)
    requires EditedFacts(s, s', d, p, content, e) && LinkOk(s, d, p) && Announced(s, d, p)
    ensures LinkOk(s', d, p) && Announced(s', d, p)
  {
    assert Count(s'.sys.replicas[d].vv, p) == Count(s.sys.replicas[d].vv, p);
  }

  lemma EditInDefended(s: Pair, s': Pair, d: Name, p: Name, content: Content, e: Edit)
    requires EditedFacts(s, s', d, p, content, e)
    requires forall u | u in s.links[d] :: Count(u.vv, d) <= Count(s.sys.replicas[d].vv, d)
    requires Count(s.sys.replicas[p].vv, d) <= Count(s.sys.replicas[d].vv, d)
    ensures Defended(s', d, p)
  {}

  lemma EditInKept(duo: Duo, s: Pair, s': Pair, d: Name, p: Name, content: Content, e: Edit)
    requires Shaped(duo, s) && Shaped(duo, s') && duo.Has(d) && p == duo.Peer(d)
    requires EditedFacts(s, s', d, p, content, e) && Kept(duo, s, d, p)
    ensures Kept(duo, s', d, p) && Grown(duo, s, s')
  {
    EditGrows(duo, s, s', d, p, content, e);
    hide Grown, Preserves, HoldsLatest;
    if s.sys.replicas[p].file.Some? { PreservedByEdit(duo, s, s', d, p, content, e, Held(s, p), s.sys.replicas[p].vv); }
    forall u | u in s'.links[d] ensures Preserves(duo, s', p, u.content, u.vv) {
      PreservedByEdit(duo, s, s', d, p, content, e, u.content, u.vv);
    }
  }

  lemma EditGrows(duo: Duo, s: Pair, s': Pair, d: Name, p: Name, content: Content, e: Edit)
    requires Shaped(duo, s) && Shaped(duo, s') && duo.Has(d) && p == duo.Peer(d) && EditedFacts(s, s', d, p, content, e)
    ensures Grown(duo, s, s')
  {
    hide HoldsLatest;
  }

  lemma PreservedByEdit(duo: Duo, s: Pair, s': Pair, d: Name, p: Name, content: Content, e: Edit, v: Content,
          vv: Vector)
    requires Shaped(duo, s) && Shaped(duo, s') && duo.Has(d) && p == duo.Peer(d) && EditedFacts(s, s', d, p, content, e)
    requires Grown(duo, s, s') && Preserves(duo, s, p, v, vv)
    ensures Preserves(duo, s', p, v, vv)
  {
    hide HoldsLatest;
    forall x | x in s'.sys.log && s'.sys.log[x].device == p && s'.sys.log[x].count <= Count(vv, p)
      ensures LivesOn(duo, s', x, v)
    {
      assert x in s.sys.log && LivesOn(duo, s, x, v);
    }
  }

  // --- The link from the editor ---

  lemma EditOutLink(s: Pair, s': Pair, d: Name, p: Name, content: Content, e: Edit)
    requires EditedFacts(s, s', d, p, content, e) && LinkOk(s, p, d)
    requires Count(s.sys.replicas[p].vv, d) <= Count(s.sys.replicas[d].vv, d)
    ensures LinkOk(s', p, d)
  {
    var l, l' := s.links[p], s'.links[p];
    forall i | 0 <= i < |l'|
      ensures i < |l| ==> l'[i] == l[i]
    {}
  }

  lemma EditOutAnnounced(s: Pair, s': Pair, d: Name, p: Name, content: Content, e: Edit)
    requires EditedFacts(s, s', d, p, content, e) && Announced(s, p, d) && LinkOk(s, p, d)
    ensures Announced(s', p, d)
  {
    var l, l', log' := s.links[p], s'.links[p], s'.sys.log;
    forall c | c in log' && log'[c].device == d && log'[c].count > Count(s'.sys.replicas[p].vv, d)
      ensures exists i :: IsFirstOf(l', i, c, log'[c])
    {
      if c == content {
        assert IsFirstOf(l', |l|, c, e);
      } else {
        var i: nat :| IsFirstOf(l, i, c, s.sys.log[c]);
        assert IsFirstOf(l', i, c, log'[c]);
      }
    }
  }

  lemma RespectsGrows(s: Pair, s': Pair, d: Name, p: Name, e: Edit, content: Content, c: Content, v: Content,
          vv: Vector)
    requires EditedFacts(s, s', d, p, content, e) && c in s.sys.log
    requires Respects(s, p, d, c, v, vv)
    ensures Respects(s', p, d, c, v, vv)
  {
    var log, log', known := s.sys.log, s'.sys.log, s.sys.replicas[p].vv;
    if Overtaken(log, p, d, known, log[c], vv) {
      var f :| f in log && Overtakes(log[f], p, d, known, log[c], vv);
      assert Overtakes(log'[f], p, d, known, log'[c], vv);
    }
  }

  /** The editor's new version respects the edit in p's hands as its old one did. */
  lemma EditorRespects(s: Pair, s': Pair, d: Name, p: Name, content: Content, e: Edit, c: Content)
    requires EditedFacts(s, s', d, p, content, e) && c in s.sys.log && s.sys.log[c].device == p
    requires s.sys.replicas[d].file.Some? ==> Respects(s, p, d, c, Held(s, d), s.sys.replicas[d].vv)
    ensures Respects(s', p, d, c, content, e.vv)
  {
    var log, r, q := s.sys.log, s.sys.replicas[d], s.sys.replicas[p];
    if Count(e.vv, p) >= log[c].count {
      assert Counted(log[c], r.vv);
      if c !in e.line {
        var f :| f in log && Overtakes(log[f], p, d, q.vv, log[c], r.vv);
        assert Overtakes(s'.sys.log[f], p, d, q.vv, s'.sys.log[c], e.vv);
      }
    }
  }

  lemma EditOutDefended(s: Pair, s': Pair, d: Name, p: Name, content: Content, e: Edit)
    requires EditedFacts(s, s', d, p, content, e) && Defended(s, p, d)
    requires s.sys.replicas[p].file.Some? ==> Held(s, p) in s.sys.log
    ensures Defended(s', p, d)
  {
    if HoldsOwn(s', p) && Held(s', p) !in s'.sys.replicas[p].copies {
      var c := Held(s, p);
      EditorRespects(s, s', d, p, content, e, c);
      forall v | v in s'.links[p]
        ensures Respects(s', p, d, c, v.content, v.vv)
      {
        if v in s.links[p] { RespectsGrows(s, s', d, p, e, content, c, v.content, v.vv); }
      }
    }
  }

  /** The new edit is counted by its own version alone, and carries on whatever the old one did. */
  lemma EditOutKept(duo: Duo, s: Pair, s': Pair, d: Name, p: Name, content: Content, e: Edit)
    requires Shaped(duo, s) && Shaped(duo, s') && duo.Has(d) && p == duo.Peer(d)
    requires EditedFacts(s, s', d, p, content, e) && Kept(duo, s, p, d) && Grown(duo, s, s')
    requires forall c | c in s.sys.log && s.sys.log[c].device == d ::
      s.sys.log[c].count <= Count(s.sys.replicas[d].vv, d)
    ensures Preserves(duo, s', d, content, e.vv)
  {
    var r := s.sys.replicas[d];
    forall x | x in s'.sys.log && s'.sys.log[x].device == d && s'.sys.log[x].count <= Count(e.vv, d)
      ensures LivesOn(duo, s', x, content)
    {
      if x != content {
        assert Counted(s.sys.log[x], r.vv);
        assert Preserves(duo, s, d, Held(s, d), r.vv);
        LivesOnStays(duo, s, s', x, Held(s, d));
      }
    }
  }

  lemma EditOutLinkKept(duo: Duo, s: Pair, s': Pair, d: Name, p: Name, content: Content, e: Edit)
    requires Shaped(duo, s) && Shaped(duo, s') && duo.Has(d) && p == duo.Peer(d)
    requires EditedFacts(s, s', d, p, content, e) && Kept(duo, s, p, d) && Grown(duo, s, s')
    requires forall u | u in s.links[p] :: Count(u.vv, d) <= Count(s.sys.replicas[d].vv, d)
    requires Preserves(duo, s', d, content, e.vv)
    ensures Kept(duo, s', p, d)
  {
    forall v | v in s'.links[p]
      ensures Preserves(duo, s', d, v.content, v.vv)
    {
      if v in s.links[p] {
        assert Preserves(duo, s, d, v.content, v.vv);
      }
    }
  }

  // --- An edit keeps the invariant ---

  lemma EditKeepsEntry(duo: Duo, s: Pair, s': Pair, d: Name, p: Name, content: Content, e: Edit, c: Content)
    requires Shaped(duo, s) && Shaped(duo, s') && duo.Has(d) && p == duo.Peer(d)
    requires LogOk(duo, s) && EditedFacts(s, s', d, p, content, e) && c in s.sys.log
    ensures EntryOk(duo, s', c)
  {
    assert EntryOk(duo, s, c);
    EditKeepsAuthor(duo, s, s', d, p, content, e, c);
    hide LogOk, HoldsLatest, Held, Includes, Count;
    var was := s.sys.log[c];
    assert forall x | x in was.line :: x in s.sys.log && x != content;
  }

  /** Who made an edit still counts what it counted. */
  lemma EditKeepsAuthor(duo: Duo, s: Pair, s': Pair, d: Name, p: Name, content: Content, e: Edit, c: Content)
    requires Shaped(duo, s) && Shaped(duo, s') && duo.Has(d) && p == duo.Peer(d)
    requires c in s.sys.log && EntryOk(duo, s, c) && EditedFacts(s, s', d, p, content, e)
    ensures s.sys.log[c].count > 0 ==> Includes(s'.sys.replicas[s.sys.log[c].device].vv, s.sys.log[c].vv)
  {
    hide HoldsLatest, Held;
    var r, r', was := s.sys.replicas[d], s'.sys.replicas[d], s.sys.log[c];
    if was.count > 0 && was.device == d {
      forall x ensures Count(was.vv, x) <= Count(r'.vv, x) {
        assert Count(was.vv, x) <= Count(r.vv, x) <= Count(r'.vv, x);
      }
    }
  }

  lemma NewEntryOk(duo: Duo, s: Pair, s': Pair, d: Name, p: Name, content: Content, e: Edit)
    requires Shaped(duo, s) && Shaped(duo, s') && duo.Has(d) && p == duo.Peer(d)
    requires LogOk(duo, s) && EditedFacts(s, s', d, p, content, e)
    ensures EntryOk(duo, s', content)
  {
    var log, log' := s.sys.log, s'.sys.log;
    forall x | x in e.line
      ensures x in log' && log'[x].line <= e.line
    {
      if x != content {
        assert x in log[Held(s, d)].line;
      }
    }
  }

  lemma EditKeepsLog(duo: Duo, s: Pair, s': Pair, d: Name, p: Name, content: Content, e: Edit)
    requires Shaped(duo, s) && Shaped(duo, s') && duo.Has(d) && p == duo.Peer(d)
    requires LogOk(duo, s) && EditedFacts(s, s', d, p, content, e)
    ensures LogOk(duo, s')
  {
    forall c | c in s'.sys.log
      ensures EntryOk(duo, s', c)
    {
      if c == content {
        NewEntryOk(duo, s, s', d, p, content, e);
      } else {
        EditKeepsEntry(duo, s, s', d, p, content, e, c);
      }
    }
  }

  lemma LinkCounts(duo: Duo, s: Pair, d: Name)
    requires PairInv(duo, s) && duo.Has(d)
    ensures forall u | u in s.links[d] :: Count(u.vv, d) <= Count(s.sys.replicas[d].vv, d)
    ensures forall u | u in s.links[duo.Peer(d)] :: Count(u.vv, d) <= Count(s.sys.replicas[d].vv, d)
    ensures forall c | c in s.sys.log && s.sys.log[c].device == d ::
      s.sys.log[c].count <= Count(s.sys.replicas[d].vv, d)
  {
    LaneOf(duo, s, d);
    LaneOf(duo, s, duo.Peer(d));
    forall c | c in s.sys.log && s.sys.log[c].device == d
      ensures s.sys.log[c].count <= Count(s.sys.replicas[d].vv, d)
    {
      assert s.sys.log[c].count <= Made(s.sys, d);
    }
    forall u | u in s.links[d]
      ensures Count(u.vv, d) <= Count(s.sys.replicas[d].vv, d)
    {
      assert Message(d, u) in s.sys.net;
      assert Possible(s.sys, u.vv);
      assert Count(u.vv, d) <= Made(s.sys, d);
    }
  }

  lemma EditKeepsInLane(duo: Duo, s: Pair, d: Name, content: Content, mtime: real)
    requires PairInv(duo, s) && Can(duo, s, Edits(d, content, mtime))
    ensures LaneInv(duo, Act(duo, s, Edits(d, content, mtime)), d)
  {
    var s', p, e := Act(duo, s, Edits(d, content, mtime)), duo.Peer(d), NewEdit(s.sys, d, content, mtime);
    WhatAnEditDoes(duo, s, d, content, mtime);
    LaneOf(duo, s, d);
    LinkCounts(duo, s, d);
    PeerKnowsLess(duo, s, d);
    EditInLink(s, s', d, p, content, e);
    EditInDefended(s, s', d, p, content, e);
    EditInKept(duo, s, s', d, p, content, e);
  }

  lemma EditKeepsOutLane(duo: Duo, s: Pair, d: Name, content: Content, mtime: real)
    requires PairInv(duo, s) && Can(duo, s, Edits(d, content, mtime))
    ensures LaneInv(duo, Act(duo, s, Edits(d, content, mtime)), duo.Peer(d))
  {
    var p := duo.Peer(d);
    WhatAnEditDoes(duo, s, d, content, mtime);
    LaneOf(duo, s, p);
    LaneOf(duo, s, d);
    LinkCounts(duo, s, d);
    PeerKnowsLess(duo, s, d);
    assert HoldsLatest(s.sys.log, s.sys.replicas[p]);
    OutLaneCore(duo, s, Act(duo, s, Edits(d, content, mtime)), d, p, content, NewEdit(s.sys, d, content, mtime));
  }

  lemma OutLaneCore(duo: Duo, s: Pair, s': Pair, d: Name, p: Name, content: Content, e: Edit)
    requires Shaped(duo, s) && Shaped(duo, s') && duo.Has(d) && p == duo.Peer(d)
    requires EditedFacts(s, s', d, p, content, e) && LaneInv(duo, s, p) && Kept(duo, s, d, p)
    requires Count(s.sys.replicas[p].vv, d) <= Count(s.sys.replicas[d].vv, d)
    requires s.sys.replicas[p].file.Some? ==> Held(s, p) in s.sys.log
    requires forall u | u in s.links[p] :: Count(u.vv, d) <= Count(s.sys.replicas[d].vv, d)
    requires forall c | c in s.sys.log && s.sys.log[c].device == d ::
      s.sys.log[c].count <= Count(s.sys.replicas[d].vv, d)
    ensures LaneInv(duo, s', p)
  {
    assert duo.Peer(p) == d;
    EditOutLink(s, s', d, p, content, e);
    EditOutAnnounced(s, s', d, p, content, e);
    EditOutDefended(s, s', d, p, content, e);
    EditInKept(duo, s, s', d, p, content, e);
    EditOutKept(duo, s, s', d, p, content, e);
    EditOutLinkKept(duo, s, s', d, p, content, e);
  }

  // --- Runs ---

  lemma ActKeepsInv(duo: Duo, s: Pair, act: Action)
    requires PairInv(duo, s) && Can(duo, s, act)
    ensures PairInv(duo, Act(duo, s, act))
  {
    SysKeepsInv(duo, s, act);
    match act
    case Edits(d, content, mtime) =>
      WhatAnEditDoes(duo, s, d, content, mtime);
      EditKeepsLog(duo, s, Act(duo, s, act), d, duo.Peer(d), content, NewEdit(s.sys, d, content, mtime));
      EditKeepsInLane(duo, s, d, content, mtime);
      EditKeepsOutLane(duo, s, d, content, mtime);
    case Receives(d) =>
      ReceiveKeepsLog(duo, s, d);
      ReceiveKeepsInLane(duo, s, d);
      ReceiveKeepsOutLane(duo, s, d);
  }

  lemma {:induction false} PairRunKeepsInv(duo: Duo, states: seq<Pair>, acts: seq<Action>, i: nat)
    requires IsPairRun(duo, states, acts) && i < |states|
    ensures PairInv(duo, states[i])
  {
    if i == 0 {
      InitialInv(duo, states[0]);
    } else {
      PairRunKeepsInv(duo, states, acts, i - 1);
      ActKeepsInv(duo, states[i - 1], acts[i - 1]);
    }
  }

  /** In every run, what a delivery does to a device's own edit: it lives on in the version that replaced it,
      or in a copy saved first. */
  lemma NoOwnEditReplacedSilently(duo: Duo, states: seq<Pair>, acts: seq<Action>, i: nat)
    requires IsPairRun(duo, states, acts) && i < |acts|
    requires acts[i].Receives? && HoldsOwn(states[i], acts[i].device)
    ensures Survives(states[i], states[i + 1], acts[i].device)
  {
    PairRunKeepsInv(duo, states, acts, i);
    OwnEditIsNeverReplacedSilently(duo, states[i], acts[i].device);
  }

  /** In every reachable state every edit ever made is an ancestor of its author's version or of a conflict copy. */
  lemma NoEditIsLost(duo: Duo, states: seq<Pair>, acts: seq<Action>, i: nat, x: Content)
    requires IsPairRun(duo, states, acts) && i < |states|
    requires x in states[i].sys.log && states[i].sys.log[x].count > 0
    ensures var s, author := states[i], states[i].sys.log[x].device;
      duo.Has(author) && s.sys.replicas[author].file.Some? && LivesOn(duo, s, x, Held(s, author))
  {
    PairRunKeepsInv(duo, states, acts, i);
    var s := states[i];
    var author := s.sys.log[x].device;
    LinkCounts(duo, s, author);
    LaneOf(duo, s, duo.Peer(author));
    assert HoldsLatest(s.sys.log, s.sys.replicas[author]);
    assert Counted(s.sys.log[x], s.sys.replicas[author].vv);
    assert Preserves(duo, s, author, Held(s, author), s.sys.replicas[author].vv);
  }

  /** A message at the head of a link can always be delivered: runs do not get stuck. */
  lemma HeadCanBeReceived(duo: Duo, states: seq<Pair>, acts: seq<Action>, i: nat, d: Name)
    requires IsPairRun(duo, states, acts) && i < |states| && duo.Has(d) && states[i].links[d] != []
    ensures Can(duo, states[i], Receives(d))
  {
    PairRunKeepsInv(duo, states, acts, i);
    HeadFacts(duo, states[i], d);
  }

  /** Once both links are empty, both devices hold the same version. */
  lemma DrainedLinksAgree(duo: Duo, states: seq<Pair>, acts: seq<Action>, i: nat)
    requires IsPairRun(duo, states, acts) && i < |states|
    requires states[i].links[duo.a] == [] && states[i].links[duo.b] == []
    ensures states[i].sys.replicas[duo.a].file == states[i].sys.replicas[duo.b].file
  {
    PairRunKeepsInv(duo, states, acts, i);
    var s := states[i];
    NothingUnheard(duo, s, duo.a);
    NothingUnheard(duo, s, duo.b);
    assert HoldsLatest(s.sys.log, s.sys.replicas[duo.a]) && HoldsLatest(s.sys.log, s.sys.replicas[duo.b]);
    var f, g := s.sys.replicas[duo.a].file, s.sys.replicas[duo.b].file;
    if f.Some? {
      assert Counted(s.sys.log[f.value.content], s.sys.replicas[duo.b].vv);
    }
    if g.Some? {
      assert Counted(s.sys.log[g.value.content], s.sys.replicas[duo.a].vv);
    }
  }

  lemma NothingUnheard(duo: Duo, s: Pair, d: Name)
    requires PairInv(duo, s) && duo.Has(d) && s.links[d] == []
    ensures forall c | c in s.sys.log :: Counted(s.sys.log[c], s.sys.replicas[d].vv)
  {
    LaneOf(duo, s, d);
    LogFacts(duo, s, d);
    LinkCounts(duo, s, d);
    forall c | c in s.sys.log
      ensures Counted(s.sys.log[c], s.sys.replicas[d].vv)
    {
      assert !exists i :: IsFirstOf(s.links[d], i, c, s.sys.log[c]);
    }
  }
}
