/**
 What every run of `Gossip` guarantees: a device's version is a function of its vector, its time
 never goes back, and one gather-and-scatter round leaves every device with the latest edit.
 */
module Convergence {
  import opened Basics
  import opened Names
  import opened Versions
  import opened Replicas
  import opened Gossip

  // --- Safety ---

  lemma SameCountsSameLatest(log: Log, f: File, a: Vector, g: File, b: Vector)
    requires DistinctTimes(log) && IsLatest(log, f, a) && IsLatest(log, g, b) && SameCounts(a, b)
    ensures f == g
  {
    OrderMeaning(a, b);
    IncludedIsOlder(log, f, a, g, b);
    IncludedIsOlder(log, g, b, f, a);
  }

  lemma SameCountsCountSame(log: Log, a: Vector, b: Vector)
    requires SameCounts(a, b)
    ensures forall c | c in log :: Counted(log[c], a) <==> Counted(log[c], b)
  {
    forall c | c in log
      ensures Counted(log[c], a) <==> Counted(log[c], b)
    {
      assert Count(a, log[c].device) == Count(b, log[c].device);
    }
  }

  /** In every reachable state, devices whose vectors count the same edits hold the same version. */
  lemma EqualVectorsEqualContent(cfg: Setting, states: seq<System>, steps: seq<Step>, i: nat, d: Name, e: Name)
    requires IsRun(cfg, states, steps) && i < |states|
    requires d in states[i].replicas && e in states[i].replicas
    requires SameCounts(states[i].replicas[d].vv, states[i].replicas[e].vv)
    ensures states[i].replicas[d].file == states[i].replicas[e].file
  {
    RunKeepsInv(cfg, states, steps, i);
    var s := states[i];
    var r, q := s.replicas[d], s.replicas[e];
    SameCountsCountSame(s.log, r.vv, q.vv);
    if r.file.Some? && q.file.Some? {
      SameCountsSameLatest(s.log, r.file.value, r.vv, q.file.value, q.vv);
    }
  }

  /** A message in transit that counts what a device counts carries what the device holds. */
  lemma EqualVectorsEqualMessage(cfg: Setting, states: seq<System>, steps: seq<Step>, i: nat, d: Name, m: Message)
    requires IsRun(cfg, states, steps) && i < |states|
    requires d in states[i].replicas && m in states[i].net
    requires SameCounts(states[i].replicas[d].vv, m.update.vv)
    ensures states[i].replicas[d].file == Some(File(m.update.content, m.update.mtime))
  {
    RunKeepsInv(cfg, states, steps, i);
    var s := states[i];
    var r := s.replicas[d];
    var g := File(m.update.content, m.update.mtime);
    SameCountsCountSame(s.log, r.vv, m.update.vv);
    SameCountsSameLatest(s.log, r.file.value, r.vv, g, m.update.vv);
  }

  ghost predicate NotOlder(r: Replica, r': Replica) {
    r.file.Some? ==> r'.file.Some? && TimeOf(r) <= TimeOf(r')
  }

  lemma StepNotOlder(cfg: Setting, s: System, step: Step, d: Name)
    requires Inv(s) && Enabled(s, step) && d in s.replicas
    ensures d in Apply(cfg, s, step).replicas && NotOlder(s.replicas[d], Apply(cfg, s, step).replicas[d])
  {
    if step.Deliver? {
      var m := step.message;
      hide Receive, HoldsLatest, IsLatest;
      ReceiveHoldsLatest(HostOf(cfg, m.to), s.log, s.replicas[m.to], m.update);
    }
  }

  /** Once a device has the file it keeps it, and the time of its content never goes back. */
  lemma {:induction false} TimesNeverGoBack(cfg: Setting, states: seq<System>, steps: seq<Step>, i: nat, j: nat,
          d: Name)
    requires IsRun(cfg, states, steps) && i <= j < |states|
    requires d in states[i].replicas
    ensures d in states[j].replicas && NotOlder(states[i].replicas[d], states[j].replicas[d])
    decreases j
  {
    hide Inv, Enabled, Apply, Initial, NotOlder;
    if i < j {
      TimesNeverGoBack(cfg, states, steps, i, j - 1, d);
      RunKeepsInv(cfg, states, steps, j - 1);
      StepNotOlder(cfg, states[j - 1], steps[j - 1], d);
      NotOlderChains(states[i].replicas[d], states[j - 1].replicas[d], states[j].replicas[d]);
    } else {
      NotOlderThanItself(states[i].replicas[d]);
    }
  }

  lemma NotOlderThanItself(r: Replica)
    ensures NotOlder(r, r)
  {}

  lemma NotOlderChains(a: Replica, b: Replica, c: Replica)
    requires NotOlder(a, b) && NotOlder(b, c)
    ensures NotOlder(a, c)
  {}

  // --- Convergence ---

  /** `from` sends its version to `to`, which handles it; a device without the file has nothing to send. */
  function Push(cfg: Setting, s: System, from: Name, to: Name): System
    requires from in s.replicas && to in s.replicas
  {
    if s.replicas[from].file.None? then s
    else
      var m := Message(to, OurVersion(HostOf(cfg, from), s.replicas[from].file.value, s.replicas[from].vv));
      Apply(cfg, Apply(cfg, s, Send(from, to)), Deliver(m))
  }

  function Gather(cfg: Setting, s: System, hub: Name, ds: seq<Name>): (s': System)
    requires hub in s.replicas && forall d <- ds :: d in s.replicas
    ensures s'.replicas.Keys == s.replicas.Keys
    decreases ds
  {
    if ds == [] then s else Gather(cfg, Push(cfg, s, ds[0], hub), hub, ds[1..])
  }

  function Scatter(cfg: Setting, s: System, hub: Name, ds: seq<Name>): (s': System)
    requires hub in s.replicas && forall d <- ds :: d in s.replicas
    ensures s'.replicas.Keys == s.replicas.Keys
    decreases ds
  {
    if ds == [] then s else Scatter(cfg, Push(cfg, s, hub, ds[0]), hub, ds[1..])
  }

  ghost predicate CountsFrom(s: System, d: Name, vv: Vector)
    requires d in s.replicas
  {
    forall c | c in s.log && Counted(s.log[c], vv) :: Counted(s.log[c], s.replicas[d].vv)
  }

  lemma PushKeepsInv(cfg: Setting, s: System, from: Name, to: Name)
    requires Inv(s) && from in s.replicas && to in s.replicas
    ensures Inv(Push(cfg, s, from, to)) && Push(cfg, s, from, to).log == s.log
  {
    hide Inv, OurVersion, HostOf, Receive;
    if s.replicas[from].file.Some? {
      var u := OurVersion(HostOf(cfg, from), s.replicas[from].file.value, s.replicas[from].vv);
      StepKeepsInv(cfg, s, Send(from, to));
      StepKeepsInv(cfg, Apply(cfg, s, Send(from, to)), Deliver(Message(to, u)));
    }
  }

  lemma ReceiveCounts(host: Host, log: Log, r: Replica, u: Update)
    requires DistinctTimes(log) && HoldsLatest(log, r) && IsLatest(log, File(u.content, u.mtime), u.vv)
    ensures var vv' := Receive(host, r, false, u).replica.vv;
      forall c | c in log && (Counted(log[c], r.vv) || Counted(log[c], u.vv)) :: Counted(log[c], vv')
  {
    ReceiveHoldsLatest(host, log, r, u);
    var vv' := Receive(host, r, false, u).replica.vv;
    forall c | c in log && (Counted(log[c], r.vv) || Counted(log[c], u.vv))
      ensures Counted(log[c], vv')
    {
      assert Count(vv', log[c].device) == Count(Merge(r.vv, u.vv), log[c].device);
    }
  }

  lemma PushShape(cfg: Setting, s: System, from: Name, to: Name)
    requires from in s.replicas && to in s.replicas && s.replicas[from].file.Some?
    ensures var u := OurVersion(HostOf(cfg, from), s.replicas[from].file.value, s.replicas[from].vv);
      var s' := Push(cfg, s, from, to);
      s'.log == s.log && s'.replicas == s.replicas[to := Receive(HostOf(cfg, to), s.replicas[to], false, u).replica]
  {}

  /** A push changes only the receiver, which then counts what either counted. */
  lemma PushCounts(cfg: Setting, s: System, from: Name, to: Name)
    requires Inv(s) && from in s.replicas && to in s.replicas && from != to
    ensures var s' := Push(cfg, s, from, to);
      && s'.log == s.log && s'.replicas.Keys == s.replicas.Keys
      && (forall d | d in s.replicas && d != to :: s'.replicas[d] == s.replicas[d])
      && CountsFrom(s', to, s.replicas[from].vv) && CountsFrom(s', to, s.replicas[to].vv)
  {
    hide Inv, Push, Receive, HostOf, OurVersion, HoldsLatest, Counted;
    var r, q := s.replicas[from], s.replicas[to];
    HeldIsLatest(cfg, s, from);
    HeldIsLatest(cfg, s, to);
    if r.file.Some? {
      var u := OurVersion(HostOf(cfg, from), r.file.value, r.vv);
      ReceiveCounts(HostOf(cfg, to), s.log, q, u);
      PushShape(cfg, s, from, to);
      OurVersionIs(HostOf(cfg, from), r.file.value, r.vv);
    } else {
      NothingPushed(cfg, s, from, to);
    }
  }

  lemma NothingPushed(cfg: Setting, s: System, from: Name, to: Name)
    requires from in s.replicas && to in s.replicas && s.replicas[from].file.None?
    ensures Push(cfg, s, from, to) == s
  {}

  lemma OurVersionIs(host: Host, f: File, vv: Vector)
    ensures var u := OurVersion(host, f, vv); u.content == f.content && u.mtime == f.mtime && u.vv == vv
  {}

  lemma HeldIsLatest(cfg: Setting, s: System, d: Name)
    requires Inv(s) && d in s.replicas
    ensures DistinctTimes(s.log) && HoldsLatest(s.log, s.replicas[d])
    ensures s.replicas[d].file.None? ==> forall c | c in s.log :: !Counted(s.log[c], s.replicas[d].vv)
    ensures s.replicas[d].file.Some? ==>
      var u := OurVersion(HostOf(cfg, d), s.replicas[d].file.value, s.replicas[d].vv);
      IsLatest(s.log, File(u.content, u.mtime), u.vv)
  {
    hide Possible, Counted;
  }

  lemma {:induction false} GatherCounts(cfg: Setting, s: System, hub: Name, ds: seq<Name>)
    requires Inv(s) && hub in s.replicas && forall d <- ds :: d in s.replicas && d != hub
    ensures var s' := Gather(cfg, s, hub, ds);
      && Inv(s') && s'.log == s.log
      && CountsFrom(s', hub, s.replicas[hub].vv)
      && forall d <- ds :: CountsFrom(s', hub, s.replicas[d].vv)
    decreases ds
  {
    if ds != [] {
      var s1 := Push(cfg, s, ds[0], hub);
      PushKeepsInv(cfg, s, ds[0], hub);
      PushCounts(cfg, s, ds[0], hub);
      GatherCounts(cfg, s1, hub, ds[1..]);
      forall d <- ds
        ensures CountsFrom(Gather(cfg, s, hub, ds), hub, s.replicas[d].vv)
      {
        if d != ds[0] { assert d in ds[1..]; }
      }
    }
  }

  ghost predicate CountsAll(s: System, d: Name)
    requires d in s.replicas
  {
    forall c | c in s.log :: Counted(s.log[c], s.replicas[d].vv)
  }

  lemma {:induction false} ScatterCounts(cfg: Setting, s: System, hub: Name, ds: seq<Name>)
    requires Inv(s) && hub in s.replicas && CountsAll(s, hub) && forall d <- ds :: d in s.replicas && d != hub
    ensures var s' := Scatter(cfg, s, hub, ds);
      && Inv(s') && s'.log == s.log && CountsAll(s', hub)
      && (forall d | d in s.replicas && CountsAll(s, d) :: CountsAll(s', d))
      && forall d <- ds :: CountsAll(s', d)
    decreases ds
  {
    if ds != [] {
      hide Inv, Push, CountsAll;
      var s1 := Push(cfg, s, hub, ds[0]);
      PushKeepsInv(cfg, s, hub, ds[0]);
      PushCountsAll(cfg, s, hub, ds[0]);
      ScatterCounts(cfg, s1, hub, ds[1..]);
      forall d <- ds
        ensures CountsAll(Scatter(cfg, s, hub, ds), d)
      {
        if d != ds[0] { assert d in ds[1..]; }
      }
    }
  }

  /** A device that counts every edit passes that on. */
  lemma PushCountsAll(cfg: Setting, s: System, hub: Name, to: Name)
    requires Inv(s) && hub in s.replicas && to in s.replicas && hub != to && CountsAll(s, hub)
    ensures var s' := Push(cfg, s, hub, to);
      && s'.replicas.Keys == s.replicas.Keys && CountsAll(s', to)
      && forall d | d in s.replicas && CountsAll(s, d) :: CountsAll(s', d)
  {
    PushCounts(cfg, s, hub, to);
    hide Inv, Push, Counted;
  }

  ghost predicate IsNewestEdit(log: Log, f: File) {
    && f.content in log && log[f.content].mtime == f.mtime
    && forall c | c in log :: log[c].mtime <= f.mtime
  }

  lemma AllCountedHoldsNewest(s: System, d: Name)
    requires Inv(s) && s.log != map[] && d in s.replicas && CountsAll(s, d)
    ensures s.replicas[d].file.Some? && IsNewestEdit(s.log, s.replicas[d].file.value)
  {
    var c :| c in s.log;
    assert HoldsLatest(s.log, s.replicas[d]) && Counted(s.log[c], s.replicas[d].vv);
  }

  lemma AllEditsCounted(s: System, s1: System, hub: Name)
    requires Inv(s) && s1.log == s.log && hub in s1.replicas
    requires forall d | d in s.replicas :: CountsFrom(s1, hub, s.replicas[d].vv)
    ensures CountsAll(s1, hub)
  {
    forall c | c in s.log
      ensures Counted(s.log[c], s1.replicas[hub].vv)
    {
      var d := s.log[c].device;
      assert s.log[c].count <= Made(s, d);
      if d in s.replicas {
        assert CountsFrom(s1, hub, s.replicas[d].vv) && Counted(s.log[c], s.replicas[d].vv);
      }
    }
  }

  /** From any state a run can reach: once one device has heard from every other and answered, all hold the
      newest edit of the run. */
  lemma GatherAndScatterConverges(cfg: Setting, states: seq<System>, steps: seq<Step>, i: nat, hub: Name,
          others: seq<Name>)
    requires IsRun(cfg, states, steps) && i < |states|
    requires states[i].log != map[] && hub in states[i].replicas
    requires forall d <- others :: d in states[i].replicas && d != hub
    requires forall d | d in states[i].replicas :: d == hub || d in others
    ensures var s' := Scatter(cfg, Gather(cfg, states[i], hub, others), hub, others);
      exists f :: IsNewestEdit(states[i].log, f) && forall d | d in s'.replicas :: s'.replicas[d].file == Some(f)
  {
    hide Inv, Initial, Enabled, Apply, Gather, Scatter, CountsAll, CountsFrom, IsNewestEdit;
    var s := states[i];
    RunKeepsInv(cfg, states, steps, i);
    var s1 := Gather(cfg, s, hub, others);
    GatherCounts(cfg, s, hub, others);
    AllEditsCounted(s, s1, hub);
    ScatterCounts(cfg, s1, hub, others);
    AllHoldNewest(Scatter(cfg, s1, hub, others), hub);
  }

  lemma AllHoldNewest(s: System, hub: Name)
    requires Inv(s) && s.log != map[] && hub in s.replicas && forall d | d in s.replicas :: CountsAll(s, d)
    ensures exists f :: IsNewestEdit(s.log, f) && forall d | d in s.replicas :: s.replicas[d].file == Some(f)
  {
    hide Inv, CountsAll;
    AllCountedHoldsNewest(s, hub);
    var f := s.replicas[hub].file.value;
    forall d | d in s.replicas
      ensures s.replicas[d].file == Some(f)
    {
      AllCountedHoldsNewest(s, d);
      OneNewest(s, f, d);
    }
  }

  lemma OneNewest(s: System, f: File, d: Name)
    requires Inv(s) && d in s.replicas && s.replicas[d].file.Some?
    requires IsNewestEdit(s.log, f) && IsNewestEdit(s.log, s.replicas[d].file.value)
    ensures s.replicas[d].file == Some(f)
  {
    assert DistinctTimes(s.log);
  }
}
