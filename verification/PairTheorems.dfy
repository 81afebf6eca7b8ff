/**
 Every step of two devices keeps `PairInv`; hence no own edit is replaced silently, and in every
 reachable state every edit lives on in its author's version or in a conflict copy.
 */
module PairTheorems {
  import opened Basics
  import opened Names
  import opened Versions
  import opened Replicas
  import opened Gossip
  import opened PairRuns

  // --- A delivery, in terms of what the devices held before ---

  lemma SysKeepsInv(duo: Duo, s: Pair, act: Action)
    requires PairInv(duo, s) && Can(duo, s, act)
    ensures Inv(Act(duo, s, act).sys)
  {
    match act
    case Edits(d, content, mtime) =>
      StepKeepsInv(duo.Cfg(), s.sys, EditFile(d, content, mtime));
      StepKeepsInv(duo.Cfg(), Apply(duo.Cfg(), s.sys, EditFile(d, content, mtime)), Send(d, duo.Peer(d)));
    case Receives(d) =>
      StepKeepsInv(duo.Cfg(), s.sys, Deliver(Message(d, s.links[d][0])));
  }

  ghost predicate ReceivedFacts(s: Pair, s': Pair, d: Name, p: Name, u: Update)
    requires {d, p} <= s.sys.replicas.Keys && s'.sys.replicas.Keys == s.sys.replicas.Keys && d != p
    requires {d, p} <= s.links.Keys && s'.links.Keys == s.links.Keys
  {
    var r, r' := s.sys.replicas[d], s'.sys.replicas[d];
    && s.links[d] == [u] + s'.links[d] && u.from == p
    && s'.sys.log == s.sys.log && s.sys.net <= s'.sys.net
    && s'.sys.replicas[p] == s.sys.replicas[p]
    && r'.file.Some? && (r'.file != r.file ==> r'.file == Some(File(u.content, u.mtime)))
    && (r.file.Some? ==> TimeOf(r) <= TimeOf(r')) && u.mtime <= TimeOf(r')
    && Count(r'.vv, p) == Count(u.vv, p) && Count(r'.vv, d) == Count(r.vv, d)
    && Includes(r'.vv, r.vv) && r.copies <= r'.copies
    && (|| s'.links[p] == s.links[p]
        || (r.file.Some? && Message(p, Update(Held(s, d), TimeOf(r), r.vv, d)) in s'.sys.net
            && s'.links[p] == s.links[p] + [Update(Held(s, d), TimeOf(r), r.vv, d)]))
  }

  /** What handling an update does to one device, whoever sent it. */
  ghost predicate HandledFacts(host: Host, r: Replica, u: Update, o: Outcome) {
    var r' := o.replica;
    && r'.file.Some? && (r'.file != r.file ==> r'.file == Some(File(u.content, u.mtime)))
    && (r.file.Some? ==> TimeOf(r) <= TimeOf(r')) && u.mtime <= TimeOf(r')
    && (forall x :: Count(r'.vv, x) == Max(Count(r.vv, x), Count(u.vv, x)))
    && r.copies <= r'.copies
    && (o.out == [] || (r.file.Some? && o.out == [SendFile(u.from, OurVersion(host, r.file.value, r.vv))]))
  }

  lemma WhatHandlingDoes(host: Host, log: Log, r: Replica, u: Update)
    requires DistinctTimes(log) && HoldsLatest(log, r) && IsLatest(log, File(u.content, u.mtime), u.vv)
    ensures HandledFacts(host, r, u, Receive(host, r, false, u))
  {
    ReceiveHoldsLatest(host, log, r, u);
    var r' := Receive(host, r, false, u).replica;
    forall x
      ensures Count(r'.vv, x) == Max(Count(r.vv, x), Count(u.vv, x))
    {
      assert Count(r'.vv, x) == Count(Merge(r.vv, u.vv), x);
    }
  }

  /** The head of a link, and what is known of it. */
  lemma HeadFacts(duo: Duo, s: Pair, d: Name)
    requires PairInv(duo, s) && duo.Has(d) && s.links[d] != []
    ensures var p, u := duo.Peer(d), s.links[d][0];
      && Message(d, u) in s.sys.net && u.from == p && IsLatest(s.sys.log, File(u.content, u.mtime), u.vv)
      && s.sys.replicas[p].file.Some? && u.mtime <= TimeOf(s.sys.replicas[p])
      && Count(s.sys.replicas[d].vv, p) <= Count(u.vv, p) && Count(u.vv, d) <= Count(s.sys.replicas[d].vv, d)
      && HoldsLatest(s.sys.log, s.sys.replicas[d])
  {
    var p, u := duo.Peer(d), s.links[d][0];
    assert LinkOk(s, d, p);
    assert Message(d, u) in s.sys.net;
    assert Possible(s.sys, u.vv);
    assert Count(u.vv, d) <= Made(s.sys, d);
  }

  lemma WhatAReceiveDoes(duo: Duo, s: Pair, d: Name)
    requires PairInv(duo, s) && Can(duo, s, Receives(d))
    ensures ReceivedFacts(s, Act(duo, s, Receives(d)), d, duo.Peer(d), s.links[d][0])
    ensures Act(duo, s, Receives(d)).sys.replicas[d]
      == Receive(duo.HostFor(d), s.sys.replicas[d], false, s.links[d][0]).replica
  {
    HeadFacts(duo, s, d);
    ReceiveShape(duo, s, d);
  }

  lemma ReceiveShape(duo: Duo, s: Pair, d: Name)
    requires Shaped(duo, s) && Can(duo, s, Receives(d)) && DistinctTimes(s.sys.log)
    requires var p, u := duo.Peer(d), s.links[d][0];
      && u.from == p && IsLatest(s.sys.log, File(u.content, u.mtime), u.vv)
      && Count(s.sys.replicas[d].vv, p) <= Count(u.vv, p) && Count(u.vv, d) <= Count(s.sys.replicas[d].vv, d)
      && HoldsLatest(s.sys.log, s.sys.replicas[d])
    ensures ReceivedFacts(s, Act(duo, s, Receives(d)), d, duo.Peer(d), s.links[d][0])
    ensures Act(duo, s, Receives(d)).sys.replicas[d]
      == Receive(duo.HostFor(d), s.sys.replicas[d], false, s.links[d][0]).replica
  {
    var p, u, r := duo.Peer(d), s.links[d][0], s.sys.replicas[d];
    var o := Receive(duo.HostFor(d), r, false, u);
    WhatHandlingDoes(duo.HostFor(d), s.sys.log, r, u);
    assert s.links[d] == [u] + s.links[d][1..];
    var s' := Act(duo, s, Receives(d));
    assert s'.sys.replicas == s.sys.replicas[d := o.replica];
    if o.out == [] {
      assert s'.links[p] == s.links[p];
    } else {
      assert o.out[0] in o.out;
      assert Message(p, o.out[0].update) in Replies(o.out);
    }
  }

  // --- The device's own edit in hand ---

  /** An edit of `d` is never newer than the own edit in d's hands, and only that edit is as new. */
  lemma NothingOwnIsNewer(duo: Duo, s: Pair, d: Name, c: Content)
    requires PairInv(duo, s) && duo.Has(d) && c in s.sys.log && s.sys.log[c].device in {d, []}
    ensures s.sys.replicas[d].file.Some? && s.sys.log[c].mtime <= TimeOf(s.sys.replicas[d])
  {
    assert s.sys.log[c].count <= Made(s.sys, s.sys.log[c].device);
    assert HoldsLatest(s.sys.log, s.sys.replicas[d]);
    assert Counted(s.sys.log[c], s.sys.replicas[d].vv);
  }

  /** A delivery never brings back an edit the receiver made itself. */
  lemma ReplacedByForeign(duo: Duo, s: Pair, d: Name)
    requires PairInv(duo, s) && Can(duo, s, Receives(d))
    requires s.links[d][0].content in s.sys.log && s.sys.log[s.links[d][0].content].device == d
    ensures s.sys.replicas[d].file.Some?
      && Receive(duo.HostFor(d), s.sys.replicas[d], false, s.links[d][0]).replica.file == s.sys.replicas[d].file
  {
    var u, r := s.links[d][0], s.sys.replicas[d];
    HeadFacts(duo, s, d);
    NothingOwnIsNewer(duo, s, d, u.content);
    OwnContentIsNoNews(duo.HostFor(d), s.sys.log, r, u);
  }

  lemma OwnContentIsNoNews(host: Host, log: Log, r: Replica, u: Update)
    requires DistinctTimes(log) && HoldsLatest(log, r) && IsLatest(log, File(u.content, u.mtime), u.vv)
    requires r.file.Some? && u.mtime <= TimeOf(r)
    ensures Receive(host, r, false, u).replica.file == r.file
  {
    ReceiveHoldsLatest(host, log, r, u);
  }

  /** If what `d` receives counts an edit that was to overtake, it is that edit's own message. */
  lemma OvertakerArrives(s: Pair, d: Name, p: Name, f: Content)
    requires d in s.sys.replicas && d in s.links && s.links[d] != [] && Announced(s, d, p)
    requires f in s.sys.log && s.sys.log[f].device == p
    requires Count(s.sys.replicas[d].vv, p) < s.sys.log[f].count <= Count(s.links[d][0].vv, p)
    ensures var u := s.links[d][0]; u.content == f && u.vv == s.sys.log[f].vv && u.mtime == s.sys.log[f].mtime
  {
    var i :| IsFirstOf(s.links[d], i, f, s.sys.log[f]);
    assert i == 0;
  }

  /** An own edit survives, becomes a copy, or gives way to a version that counts it. */
  lemma OwnEditOutcomes(host: Host, log: Log, r: Replica, u: Update)
    requires host.keepCopies && r.file.Some? && r.file.value.content in log
    requires Count(u.vv, host.deviceId) < Count(r.vv, host.deviceId)
    ensures var o := Receive(host, r, false, u).replica; o.file == r.file || r.file.value.content in o.copies
  {
    OrderMeaning(u.vv, r.vv);
  }

  /** The version that replaces an own edit counts it, so it respects it. */
  lemma ReplacementRespects(s: Pair, d: Name, p: Name, u: Update)
    requires {d, p} <= s.sys.replicas.Keys && d in s.links && s.links[d] != [] && u == s.links[d][0]
    requires Announced(s, d, p) && Defended(s, d, p)
    requires HoldsOwn(s, d) && Held(s, d) !in s.sys.replicas[d].copies
    requires u.content in s.sys.log && Count(u.vv, d) >= s.sys.log[Held(s, d)].count
    ensures Held(s, d) in s.sys.log[u.content].line
  {
    var e, r := Held(s, d), s.sys.replicas[d];
    assert Respects(s, d, p, e, u.content, u.vv);
    if Overtaken(s.sys.log, d, p, r.vv, s.sys.log[e], u.vv) {
      var f :| f in s.sys.log && Overtakes(s.sys.log[f], d, p, r.vv, s.sys.log[e], u.vv);
      OvertakerArrives(s, d, p, f);
    }
  }

  lemma OwnFacts(duo: Duo, s: Pair, d: Name)
    requires PairInv(duo, s) && duo.Has(d) && HoldsOwn(s, d)
    ensures Held(s, d) in s.sys.log[Held(s, d)].line && s.sys.log[Held(s, d)].mtime == TimeOf(s.sys.replicas[d])
  {
    assert HoldsLatest(s.sys.log, s.sys.replicas[d]);
  }

  lemma LaneOf(duo: Duo, s: Pair, d: Name)
    requires PairInv(duo, s) && duo.Has(d)
    ensures LaneInv(duo, s, d)
  {}

  ghost predicate Survives(s: Pair, s': Pair, d: Name)
    requires d in s.sys.replicas && d in s'.sys.replicas && s.sys.replicas[d].file.Some?
  {
    && s'.sys.replicas[d].file.Some? && Held(s', d) in s'.sys.log
    && (|| Held(s, d) in s'.sys.log[Held(s', d)].line
        || Held(s, d) in s'.sys.replicas[d].copies)
  }

  lemma ReplacedOwnSurvives(host: Host, s: Pair, s': Pair, d: Name, p: Name, u: Update)
    requires {d, p} <= s.sys.replicas.Keys && s'.sys.replicas.Keys == s.sys.replicas.Keys && d != p
    requires {d, p} <= s.links.Keys && s'.links.Keys == s.links.Keys
    requires ReceivedFacts(s, s', d, p, u) && HoldsOwn(s, d) && u.content in s.sys.log
    requires Held(s, d) in s.sys.log[Held(s, d)].line
    requires OwnIsLast(s, d) && Announced(s, d, p) && Defended(s, d, p)
    requires host.deviceId == d && host.keepCopies
    requires s'.sys.replicas[d] == Receive(host, s.sys.replicas[d], false, u).replica
    ensures Survives(s, s', d)
  {
    var r, e := s.sys.replicas[d], Held(s, d);
    if Count(u.vv, d) < s.sys.log[e].count {
      OwnEditOutcomes(host, s.sys.log, r, u);
    } else if e !in r.copies {
      ReplacementRespects(s, d, p, u);
    }
  }

  /** Main step: an own edit that a delivery replaces lives on in what replaced it, or is kept as a copy. */
  lemma OwnEditIsNeverReplacedSilently(duo: Duo, s: Pair, d: Name)
    requires PairInv(duo, s) && Can(duo, s, Receives(d)) && HoldsOwn(s, d)
    ensures Survives(s, Act(duo, s, Receives(d)), d)
  {
    HeadFacts(duo, s, d);
    WhatAReceiveDoes(duo, s, d);
    LaneOf(duo, s, d);
    OwnFacts(duo, s, d);
    ReplacedOwnSurvives(duo.HostFor(d), s, Act(duo, s, Receives(d)), d, duo.Peer(d), s.links[d][0]);
  }
}
