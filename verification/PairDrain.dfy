/**
 Two devices that make no more edits: every reply is later than what it answers, so deliveries alone
 empty both links, and the devices then hold one version.
 */
module PairDrains {
  import opened Basics
  import opened Names
  import opened Versions
  import opened Replicas
  import opened Gossip
  import opened PairRuns
  import opened PairTheorems
  import opened PairSteps
  import opened PairEdits

  /** The edits later than `mtime`. */
  function LaterThan(log: Log, mtime: real): set<Content> {
    set c | c in log && log[c].mtime > mtime
  }

  /** What is still to be said on a link: for each message, itself and every later edit there is. */
  function Owed(log: Log, l: seq<Update>): nat {
    if l == [] then 0 else |LaterThan(log, l[0].mtime)| + 1 + Owed(log, l[1..])
  }

  ghost function Left(duo: Duo, s: Pair): nat
    requires Shaped(duo, s)
  {
    Owed(s.sys.log, s.links[duo.a]) + Owed(s.sys.log, s.links[duo.b])
  }

  lemma FewerAreLater(log: Log, c: Content, mtime: real)
    requires c in log && mtime < log[c].mtime
    ensures |LaterThan(log, log[c].mtime)| < |LaterThan(log, mtime)|
  {
    var fewer, more := LaterThan(log, log[c].mtime), LaterThan(log, mtime);
    assert c in more && c !in fewer;
    assert fewer <= more - {c};
    FewerIsLess(fewer, more - {c});
  }

  lemma {:induction false} FewerIsLess(s: set<Content>, t: set<Content>)
    requires s <= t
    ensures |s| <= |t|
    decreases s
  {
    if x :| x in s { FewerIsLess(s - {x}, t - {x}); }
  }

  lemma {:induction false} OwedMore(log: Log, l: seq<Update>, u: Update)
    ensures Owed(log, l + [u]) == Owed(log, l) + |LaterThan(log, u.mtime)| + 1
  {
    if l == [] {
      assert [] + [u] == [u] && [u][1..] == [];
    } else {
      assert (l + [u])[1..] == l[1..] + [u];
      OwedMore(log, l[1..], u);
    }
  }

  /** A device answers only what is earlier than what it has. */
  lemma ReplyIsLater(host: Host, log: Log, r: Replica, u: Update)
    requires DistinctTimes(log) && HoldsLatest(log, r) && IsLatest(log, File(u.content, u.mtime), u.vv)
    ensures Receive(host, r, false, u).out != [] ==> r.file.Some? && u.mtime < TimeOf(r)
  {
    if r.file.Some? && Receive(host, r, false, u).out != [] {
      OrderMeaning(u.vv, r.vv);
      var f, g := r.file.value, File(u.content, u.mtime);
      if Includes(r.vv, u.vv) { IncludedIsOlder(log, f, r.vv, g, u.vv); }
    }
  }

  /** A delivery takes a message from the link, and leaves at most a later one on the other. */
  lemma ReceiveLeavesLess(duo: Duo, s: Pair, d: Name)
    requires PairInv(duo, s) && Can(duo, s, Receives(d))
    ensures Left(duo, Act(duo, s, Receives(d))) < Left(duo, s)
  {
    hide Owed;
    var p, u, s' := duo.Peer(d), s.links[d][0], Act(duo, s, Receives(d));
    HeadFacts(duo, s, d);
    ReplyIsLater(duo.HostFor(d), s.sys.log, s.sys.replicas[d], u);
    WhatAReceiveDoes(duo, s, d);
    OwedHead(s.sys.log, s.links[d]);
    var r := s.sys.replicas[d];
    if s'.links[p] != s.links[p] {
      AnsweredLater(duo, s, d);
      FewerAreLater(s.sys.log, Held(s, d), u.mtime);
      OwedMore(s.sys.log, s.links[p], Update(Held(s, d), TimeOf(r), r.vv, d));
    }
  }

  lemma OwedHead(log: Log, l: seq<Update>)
    requires l != []
    ensures Owed(log, l) == |LaterThan(log, l[0].mtime)| + 1 + Owed(log, l[1..])
  {}

  lemma AnsweredLater(duo: Duo, s: Pair, d: Name)
    requires PairInv(duo, s) && Can(duo, s, Receives(d))
    requires Act(duo, s, Receives(d)).links[duo.Peer(d)] != s.links[duo.Peer(d)]
    ensures s.sys.replicas[d].file.Some? && s.links[d][0].mtime < TimeOf(s.sys.replicas[d])
    ensures Held(s, d) in s.sys.log && s.sys.log[Held(s, d)].mtime == TimeOf(s.sys.replicas[d])
  {
    hide Receive, Act, LogOk, LaneInv, Inv, Initial, Enabled;
    SilenceAddsNothing(duo, s, d);
    HeadFacts(duo, s, d);
    ReplyIsLater(duo.HostFor(d), s.sys.log, s.sys.replicas[d], s.links[d][0]);
  }

  lemma SilenceAddsNothing(duo: Duo, s: Pair, d: Name)
    requires PairInv(duo, s) && Can(duo, s, Receives(d))
    ensures DistinctTimes(s.sys.log) && s.links[d] != []
    ensures Receive(duo.HostFor(d), s.sys.replicas[d], false, s.links[d][0]).out == [] ==>
      Act(duo, s, Receives(d)).links[duo.Peer(d)] == s.links[duo.Peer(d)]
  {
    hide Receive, LaneInv, LogOk, Replies;
    assert s.links[duo.Peer(d)] + [] == s.links[duo.Peer(d)];
  }

  // --- Runs without further edits ---

  ghost predicate Delivering(acts: seq<Action>, i: nat, j: nat) {
    forall k | i <= k < j && k < |acts| :: acts[k].Receives?
  }

  /** From any reachable state, only so many deliveries can follow each other. */
  lemma {:induction false} DeliveriesEnd(duo: Duo, states: seq<Pair>, acts: seq<Action>, i: nat, j: nat)
    requires IsPairRun(duo, states, acts) && i <= j < |states| && Delivering(acts, i, j)
    ensures Left(duo, states[j]) + (j - i) <= Left(duo, states[i])
    decreases j
  {
    hide PairInv, Left, Can, Act, InitialPair;
    if i < j {
      DeliveriesEnd(duo, states, acts, i, j - 1);
      PairRunKeepsInv(duo, states, acts, j - 1);
      assert acts[j - 1].Receives? && Can(duo, states[j - 1], acts[j - 1]);
      ReceiveLeavesLess(duo, states[j - 1], acts[j - 1].device);
    }
  }

  ghost predicate Drained(duo: Duo, s: Pair)
    requires Shaped(duo, s)
  {
    s.links[duo.a] == [] && s.links[duo.b] == []
  }

  /** The run goes on by deliveries alone until nothing is on its way, and the devices then hold one version. */
  ghost predicate DrainedBy(duo: Duo, states: seq<Pair>, acts: seq<Action>, states': seq<Pair>, acts': seq<Action>) {
    && IsPairRun(duo, states', acts') && states <= states' && acts <= acts' && Delivering(acts', |acts|, |acts'|)
    && Drained(duo, states'[|acts'|])
    && states'[|acts'|].sys.replicas[duo.a].file == states'[|acts'|].sys.replicas[duo.b].file
  }

  /** Every run can be drained by deliveries, in any order: as long as a link is not empty its head can be
      delivered, and only so many can follow. */
  lemma {:induction false} CanBeDrained(duo: Duo, states: seq<Pair>, acts: seq<Action>)
    requires IsPairRun(duo, states, acts)
    ensures exists states', acts' :: DrainedBy(duo, states, acts, states', acts')
    decreases Left(duo, states[|acts|])
  {
    hide Can, Act, Left, PairInv, InitialPair, DrainedBy;
    var s := states[|acts|];
    if Drained(duo, s) {
      NothingToDrain(duo, states, acts);
    } else {
      var d := if s.links[duo.a] != [] then duo.a else duo.b;
      HeadCanBeReceived(duo, states, acts, |acts|, d);
      PairRunKeepsInv(duo, states, acts, |acts|);
      ReceiveLeavesLess(duo, s, d);
      OneMoreAct(duo, states, acts, Receives(d));
      hide IsPairRun;
      CanBeDrained(duo, states + [Act(duo, s, Receives(d))], acts + [Receives(d)]);
      var states', acts' :| DrainedBy(duo, states + [Act(duo, s, Receives(d))], acts + [Receives(d)], states', acts');
      DrainedSooner(duo, states, acts, Act(duo, s, Receives(d)), d, states', acts');
    }
  }

  lemma NothingToDrain(duo: Duo, states: seq<Pair>, acts: seq<Action>)
    requires IsPairRun(duo, states, acts) && Drained(duo, states[|acts|])
    ensures DrainedBy(duo, states, acts, states, acts)
  {
    DrainedLinksAgree(duo, states, acts, |acts|);
    hide IsPairRun;
  }

  lemma DrainedSooner(duo: Duo, states: seq<Pair>, acts: seq<Action>, s: Pair, d: Name, states': seq<Pair>,
          acts': seq<Action>)
    requires DrainedBy(duo, states + [s], acts + [Receives(d)], states', acts')
    ensures DrainedBy(duo, states, acts, states', acts')
  {
    hide IsPairRun;
    ShapedAtEnd(duo, states', acts');
    assert acts'[|acts|] == (acts + [Receives(d)])[|acts|];
  }

  lemma ShapedAtEnd(duo: Duo, states: seq<Pair>, acts: seq<Action>)
    requires IsPairRun(duo, states, acts)
    ensures |states| == |acts| + 1 && Shaped(duo, states[|acts|])
  {}

  lemma OneMoreAct(duo: Duo, states: seq<Pair>, acts: seq<Action>, act: Action)
    requires IsPairRun(duo, states, acts) && Can(duo, states[|acts|], act)
    ensures IsPairRun(duo, states + [Act(duo, states[|acts|], act)], acts + [act])
  {
    hide Can, Act, InitialPair;
    var more, longer := states + [Act(duo, states[|acts|], act)], acts + [act];
    forall i | 0 <= i < |longer|
      ensures Can(duo, more[i], longer[i]) && more[i + 1] == Act(duo, more[i], longer[i])
    {
      if i < |acts| { assert more[i] == states[i] && more[i + 1] == states[i + 1] && longer[i] == acts[i]; }
    }
  }
}
