/**
 Any number of devices exchanging versions of one path. Messages may be reordered, duplicated
 and lost: a message stays in the network and may be delivered any number of times, or never.

 The log records, by content, every edit of the run. `vv` is the vector the edit was made under,
 itself included; `line` is its line of descent: its own content and that of every version it was
 made on top of.
 */
module Gossip {
  import opened Basics
  import opened Names
  import opened Versions
  import opened Replicas

  datatype Edit = Edit(device: Name, count: nat, mtime: real, vv: Vector, line: set<Content>)

  type Log = map<Content, Edit>

  datatype Message = Message(to: Name, update: Update)

  datatype System = System(replicas: map<Name, Replica>, net: set<Message>, log: Log)

  /** What every device uses: the strategy and the content hash are otherwise arbitrary. */
  datatype Setting = Setting(keepCopies: bool, hash: Content -> Name)

  datatype Step =
    | EditFile(device: Name, content: Content, mtime: real)
    | Send(device: Name, to: Name)
    | Deliver(message: Message)

  function HostOf(cfg: Setting, d: Name): Host {
    Host(d, cfg.keepCopies, cfg.hash)
  }

  // --- Runs ---

  /** Edits have new contents and new times, and are later than the version they replace. */
  predicate Enabled(s: System, step: Step) {
    match step
    case EditFile(d, content, mtime) =>
      && d in s.replicas && content !in s.log
      && (forall c | c in s.log :: s.log[c].mtime != mtime)
      && (s.replicas[d].file.Some? ==> s.replicas[d].file.value.mtime < mtime)
    case Send(d, to) => d in s.replicas && s.replicas[d].file.Some?
    case Deliver(m) => m in s.net && m.to in s.replicas
  }

  function NewEdit(s: System, d: Name, content: Content, mtime: real): Edit
    requires d in s.replicas
  {
    var r := s.replicas[d];
    var base := if r.file.Some? && r.file.value.content in s.log then s.log[r.file.value.content].line else {};
    var vv := r.vv[d := Count(r.vv, d) + 1];
    Edit(d, vv[d], mtime, vv, base + {content})
  }

  function Replies(out: seq<Outgoing>): set<Message> {
    set o | o in out && o.SendFile? :: Message(o.to, o.update)
  }

  function Apply(cfg: Setting, s: System, step: Step): System
    requires Enabled(s, step)
  {
    match step
    case EditFile(d, content, mtime) =>
      s.(replicas := s.replicas[d := Edited(HostOf(cfg, d), s.replicas[d], content, mtime)],
         log := s.log[content := NewEdit(s, d, content, mtime)])
    case Send(d, to) =>
      s.(net := s.net + {Message(to, OurVersion(HostOf(cfg, d), s.replicas[d].file.value, s.replicas[d].vv))})
    case Deliver(m) =>
      var o := Receive(HostOf(cfg, m.to), s.replicas[m.to], false, m.update);
      s.(replicas := s.replicas[m.to := o.replica], net := s.net + Replies(o.out))
  }

  /** The path is new to every device, or every device starts with the same uncounted version of it. */
  predicate Initial(s: System) {
    && s.net == {}
    && (|| (s.log == map[] && forall d | d in s.replicas :: s.replicas[d] == Replica(None, map[], None, {}))
        || (exists c | c in s.log ::
              && s.log == map[c := Edit([], 0, s.log[c].mtime, map[], {c})]
              && forall d | d in s.replicas ::
                s.replicas[d] == Replica(Some(File(c, s.log[c].mtime)), map[], None, {})))
  }

  ghost predicate IsRun(cfg: Setting, states: seq<System>, steps: seq<Step>) {
    && |states| == |steps| + 1
    && Initial(states[0])
    && forall i | 0 <= i < |steps| :: Enabled(states[i], steps[i]) && states[i + 1] == Apply(cfg, states[i], steps[i])
  }

  // --- The invariant ---

  ghost predicate Counted(e: Edit, vv: Vector) {
    e.count <= Count(vv, e.device)
  }

  /** (content, mtime) is the latest edit among those `vv` counts. */
  ghost predicate IsLatest(log: Log, f: File, vv: Vector) {
    && f.content in log && log[f.content].mtime == f.mtime && Counted(log[f.content], vv)
    && forall c | c in log && Counted(log[c], vv) :: log[c].mtime <= f.mtime
  }

  ghost predicate HoldsLatest(log: Log, r: Replica) {
    && r.deletedAt.None?
    && if r.file.Some? then IsLatest(log, r.file.value, r.vv) else forall c | c in log :: !Counted(log[c], r.vv)
  }

  ghost predicate DistinctTimes(log: Log) {
    forall c, e | c in log && e in log && log[c].mtime == log[e].mtime :: c == e
  }

  /** How many edits device `d` has made. */
  ghost function Made(s: System, d: Name): nat {
    if d in s.replicas then Count(s.replicas[d].vv, d) else 0
  }

  ghost predicate Possible(s: System, vv: Vector) {
    forall d :: Count(vv, d) <= Made(s, d)
  }

  ghost predicate Inv(s: System) {
    && DistinctTimes(s.log)
    && (forall c | c in s.log :: s.log[c].count <= Made(s, s.log[c].device))
    && (forall d | d in s.replicas :: HoldsLatest(s.log, s.replicas[d]) && Possible(s, s.replicas[d].vv))
    && (forall m | m in s.net ::
        IsLatest(s.log, File(m.update.content, m.update.mtime), m.update.vv) && Possible(s, m.update.vv))
  }

  // --- One delivery ---

  ghost function TimeOf(r: Replica): real
    requires r.file.Some?
  {
    r.file.value.mtime
  }

  lemma CountedByMerge(e: Edit, a: Vector, b: Vector)
    ensures Counted(e, Merge(a, b)) <==> Counted(e, a) || Counted(e, b)
  {}

  /** Of two latest versions, the later is the latest of what both count. */
  lemma LaterIsLatestOfMerge(log: Log, f: File, a: Vector, g: File, b: Vector)
    requires IsLatest(log, f, a) && IsLatest(log, g, b) && f.mtime >= g.mtime
    ensures IsLatest(log, f, Merge(a, b)) && IsLatest(log, f, Merge(b, a))
  {
    forall c | c in log
      ensures Counted(log[c], Merge(a, b)) <==> Counted(log[c], a) || Counted(log[c], b)
      ensures Counted(log[c], Merge(b, a)) <==> Counted(log[c], a) || Counted(log[c], b)
    {
      CountedByMerge(log[c], a, b);
    }
  }

  lemma IncludedIsOlder(log: Log, f: File, a: Vector, g: File, b: Vector)
    requires IsLatest(log, f, a) && IsLatest(log, g, b) && Includes(a, b)
    ensures g.mtime <= f.mtime
  {
    assert Count(b, log[g.content].device) <= Count(a, log[g.content].device);
  }

  /** Handling an update leaves the latest edit among all those either side counted. */
  lemma ReceiveHoldsLatest(host: Host, log: Log, r: Replica, u: Update)
    requires DistinctTimes(log) && HoldsLatest(log, r) && IsLatest(log, File(u.content, u.mtime), u.vv)
    ensures var o := Receive(host, r, false, u);
      && HoldsLatest(log, o.replica) && o.replica.file.Some?
      && SameCounts(o.replica.vv, Merge(r.vv, u.vv))
      && (r.file.Some? ==> TimeOf(r) <= TimeOf(o.replica)) && u.mtime <= TimeOf(o.replica)
      && (o.replica.file != r.file ==> o.replica.file == Some(File(u.content, u.mtime)))
      && (o.out == [] || (r.file.Some? && o.out == [SendFile(u.from, OurVersion(host, r.file.value, r.vv))]))
  {
    hide IsLatest, UnseenEdits;
    var g := File(u.content, u.mtime);
    if r.file.None? {
      FirstVersionIsLatest(log, g, r.vv, u.vv);
    } else {
      OrderMeaning(u.vv, r.vv);
      var f := r.file.value;
      LatestIsKnown(log, f, r.vv);
      LatestIsKnown(log, g, u.vv);
      if f.mtime <= g.mtime { LaterIsLatestOfMerge(log, g, u.vv, f, r.vv); }
      if g.mtime <= f.mtime { LaterIsLatestOfMerge(log, f, r.vv, g, u.vv); }
      if Includes(u.vv, r.vv) { IncludedIsOlder(log, g, u.vv, f, r.vv); }
      if Includes(r.vv, u.vv) { IncludedIsOlder(log, f, r.vv, g, u.vv); }
    }
  }

  lemma LatestIsKnown(log: Log, f: File, vv: Vector)
    requires IsLatest(log, f, vv)
    ensures f.content in log && log[f.content].mtime == f.mtime
  {}

  lemma FirstVersionIsLatest(log: Log, g: File, a: Vector, b: Vector)
    requires IsLatest(log, g, b) && forall c | c in log :: !Counted(log[c], a)
    ensures IsLatest(log, g, Merge(a, b))
  {
    forall c | c in log
      ensures Counted(log[c], Merge(a, b)) <==> Counted(log[c], b)
    {
      CountedByMerge(log[c], a, b);
    }
  }

  // --- Every step keeps the invariant ---

  lemma UncountedEditKeepsLatest(s: System, d: Name, content: Content, mtime: real, f: File, vv: Vector)
    requires d in s.replicas && content !in s.log && Possible(s, vv) && IsLatest(s.log, f, vv)
    ensures IsLatest(s.log[content := NewEdit(s, d, content, mtime)], f, vv)
  {
    assert Count(vv, d) <= Made(s, d);
  }

  lemma PossibleCarriesOver(s: System, s': System, vv: Vector)
    requires Possible(s, vv) && forall e :: Made(s, e) <= Made(s', e)
    ensures Possible(s', vv)
  {
    forall e ensures Count(vv, e) <= Made(s', e) { assert Count(vv, e) <= Made(s, e); }
  }

  /** What an edit leaves in the log for a version made before it. */
  lemma UncountedEditKeepsHeld(s: System, d: Name, content: Content, mtime: real, q: Replica)
    requires d in s.replicas && content !in s.log && Possible(s, q.vv) && HoldsLatest(s.log, q)
    ensures HoldsLatest(s.log[content := NewEdit(s, d, content, mtime)], q)
  {
    assert Count(q.vv, d) <= Made(s, d);
    if q.file.Some? {
      UncountedEditKeepsLatest(s, d, content, mtime, q.file.value, q.vv);
    }
  }

  /** The device that edited holds its edit, the latest of those its vector now counts. */
  lemma EditorHoldsLatest(cfg: Setting, s: System, d: Name, content: Content, mtime: real)
    requires Inv(s) && Enabled(s, EditFile(d, content, mtime))
    ensures HoldsLatest(s.log[content := NewEdit(s, d, content, mtime)],
      Edited(HostOf(cfg, d), s.replicas[d], content, mtime))
  {
    var r := s.replicas[d];
    var r' := Edited(HostOf(cfg, d), r, content, mtime);
    forall c | c in s.log
      ensures Counted(s.log[c], r'.vv) <==> Counted(s.log[c], r.vv)
    {
      assert s.log[c].count <= Made(s, s.log[c].device);
    }
  }

  lemma EditKeepsLog(cfg: Setting, s: System, d: Name, content: Content, mtime: real)
    requires Inv(s) && Enabled(s, EditFile(d, content, mtime))
    ensures var s' := Apply(cfg, s, EditFile(d, content, mtime));
      && s'.log == s.log[content := NewEdit(s, d, content, mtime)] && s'.net == s.net
      && s'.replicas.Keys == s.replicas.Keys
      && s'.replicas[d] == Edited(HostOf(cfg, d), s.replicas[d], content, mtime)
      && (forall x | x in s.replicas && x != d :: s'.replicas[x] == s.replicas[x])
      && DistinctTimes(s'.log) && (forall c | c in s'.log :: s'.log[c].count <= Made(s', s'.log[c].device))
      && (forall e :: Made(s, e) <= Made(s', e)) && Possible(s', s'.replicas[d].vv)
  {
    hide IsLatest, HoldsLatest;
    var s' := Apply(cfg, s, EditFile(d, content, mtime));
    forall e ensures Made(s, e) <= Made(s', e) {}
    forall e ensures Count(s'.replicas[d].vv, e) <= Made(s', e) { assert Count(s.replicas[d].vv, e) <= Made(s, e); }
  }

  lemma EditKeepsInv(cfg: Setting, s: System, d: Name, content: Content, mtime: real)
    requires Inv(s) && Enabled(s, EditFile(d, content, mtime))
    ensures Inv(Apply(cfg, s, EditFile(d, content, mtime)))
  {
    EditKeepsLog(cfg, s, d, content, mtime);
    hide IsLatest, HoldsLatest, Possible, DistinctTimes, Edited, NewEdit, Made, Apply;
    var s' := Apply(cfg, s, EditFile(d, content, mtime));
    forall m | m in s.net
      ensures IsLatest(s'.log, File(m.update.content, m.update.mtime), m.update.vv) && Possible(s', m.update.vv)
    {
      UncountedEditKeepsLatest(s, d, content, mtime, File(m.update.content, m.update.mtime), m.update.vv);
      PossibleCarriesOver(s, s', m.update.vv);
    }
    forall x | x in s'.replicas
      ensures HoldsLatest(s'.log, s'.replicas[x]) && Possible(s', s'.replicas[x].vv)
    {
      if x != d {
        PossibleCarriesOver(s, s', s.replicas[x].vv);
        UncountedEditKeepsHeld(s, d, content, mtime, s.replicas[x]);
      } else {
        EditorHoldsLatest(cfg, s, d, content, mtime);
      }
    }
  }

  /** A delivery is no edit, and the receiver's vector stays possible. */
  lemma DeliverKeepsMade(cfg: Setting, s: System, m: Message)
    requires Inv(s) && Enabled(s, Deliver(m))
    ensures var s' := Apply(cfg, s, Deliver(m));
      (forall e :: Made(s', e) == Made(s, e)) && Possible(s, s'.replicas[m.to].vv)
  {
    hide IsLatest, HoldsLatest, DistinctTimes, Receive, Merge;
    var s' := Apply(cfg, s, Deliver(m));
    var vv, vv' := s.replicas[m.to].vv, s'.replicas[m.to].vv;
    ReceiveHoldsLatest(HostOf(cfg, m.to), s.log, s.replicas[m.to], m.update);
    assert s'.replicas == s.replicas[m.to := s'.replicas[m.to]];
    MergeStaysPossible(s, vv, m.update.vv);
    hide Apply;
    forall e ensures Count(vv', e) <= Made(s, e) {
      assert Count(vv', e) == Count(Merge(vv, m.update.vv), e);
    }
    forall e ensures Made(s', e) == Made(s, e) {
      if e == m.to {
        assert Count(vv', e) == Count(Merge(vv, m.update.vv), e);
      }
    }
  }

  lemma MergeStaysPossible(s: System, a: Vector, b: Vector)
    requires Possible(s, a) && Possible(s, b)
    ensures Possible(s, Merge(a, b))
    ensures forall e :: Count(Merge(a, b), e) == if Count(a, e) >= Count(b, e) then Count(a, e) else Count(b, e)
  {
    forall e ensures Count(Merge(a, b), e) <= Made(s, e) {
      assert Count(a, e) <= Made(s, e) && Count(b, e) <= Made(s, e);
    }
  }

  /** What a delivery changes: the receiver's replica, and the network by the reply. */
  lemma DeliverChanges(cfg: Setting, s: System, m: Message)
    requires Inv(s) && Enabled(s, Deliver(m))
    ensures var s', r := Apply(cfg, s, Deliver(m)), s.replicas[m.to];
      && s'.log == s.log && s'.replicas.Keys == s.replicas.Keys && HoldsLatest(s'.log, s'.replicas[m.to])
      && (forall x | x in s.replicas && x != m.to :: s'.replicas[x] == s.replicas[x])
      && (forall n | n in s'.net && n !in s.net ::
            r.file.Some? && n == Message(m.update.from, OurVersion(HostOf(cfg, m.to), r.file.value, r.vv)))
  {
    hide IsLatest, HoldsLatest, Possible, DistinctTimes, Receive, Made, SameCounts, Merge;
    ReceiveHoldsLatest(HostOf(cfg, m.to), s.log, s.replicas[m.to], m.update);
  }

  lemma DeliverKeepsPossible(cfg: Setting, s: System, m: Message, vv: Vector)
    requires Inv(s) && Enabled(s, Deliver(m)) && Possible(s, vv)
    ensures Possible(Apply(cfg, s, Deliver(m)), vv)
  {
    DeliverKeepsMade(cfg, s, m);
    hide Inv, Apply;
    PossibleCarriesOver(s, Apply(cfg, s, Deliver(m)), vv);
  }

  lemma DeliverKeepsNet(cfg: Setting, s: System, m: Message, n: Message)
    requires Inv(s) && Enabled(s, Deliver(m)) && n in Apply(cfg, s, Deliver(m)).net
    ensures var s' := Apply(cfg, s, Deliver(m));
      IsLatest(s'.log, File(n.update.content, n.update.mtime), n.update.vv) && Possible(s', n.update.vv)
  {
    DeliverChanges(cfg, s, m);
    assert HoldsLatest(s.log, s.replicas[m.to]) && Possible(s, s.replicas[m.to].vv);
    DeliverKeepsPossible(cfg, s, m, if n in s.net then n.update.vv else s.replicas[m.to].vv);
    hide IsLatest, Possible, DistinctTimes, Receive, Made, Apply;
  }

  lemma DeliverKeepsReplica(cfg: Setting, s: System, m: Message, x: Name)
    requires Inv(s) && Enabled(s, Deliver(m)) && x in s.replicas
    ensures var s' := Apply(cfg, s, Deliver(m)); HoldsLatest(s'.log, s'.replicas[x]) && Possible(s', s'.replicas[x].vv)
  {
    DeliverChanges(cfg, s, m);
    DeliverKeepsMade(cfg, s, m);
    var s' := Apply(cfg, s, Deliver(m));
    assert HoldsLatest(s.log, s.replicas[x]) && Possible(s, s.replicas[x].vv);
    DeliverKeepsPossible(cfg, s, m, s'.replicas[x].vv);
    hide HoldsLatest, Possible, DistinctTimes, Receive, Made, Apply;
  }

  lemma DeliverKeepsInv(cfg: Setting, s: System, m: Message)
    requires Inv(s) && Enabled(s, Deliver(m))
    ensures Inv(Apply(cfg, s, Deliver(m)))
  {
    DeliverChanges(cfg, s, m);
    DeliverKeepsMade(cfg, s, m);
    var s' := Apply(cfg, s, Deliver(m));
    forall x | x in s'.replicas
      ensures HoldsLatest(s'.log, s'.replicas[x]) && Possible(s', s'.replicas[x].vv)
    {
      DeliverKeepsReplica(cfg, s, m, x);
    }
    forall n | n in s'.net
      ensures IsLatest(s'.log, File(n.update.content, n.update.mtime), n.update.vv) && Possible(s', n.update.vv)
    {
      DeliverKeepsNet(cfg, s, m, n);
    }
    hide IsLatest, HoldsLatest, Possible, DistinctTimes, Receive, Made, Apply;
  }

  lemma StepKeepsInv(cfg: Setting, s: System, step: Step)
    requires Inv(s) && Enabled(s, step)
    ensures Inv(Apply(cfg, s, step))
  {
    match step
    case EditFile(d, content, mtime) => EditKeepsInv(cfg, s, d, content, mtime);
    case Deliver(m) => DeliverKeepsInv(cfg, s, m);
    case Send(d, to) =>
      var s' := Apply(cfg, s, step);
      forall e ensures Made(s', e) == Made(s, e) {}
  }

  lemma {:induction false} RunKeepsInv(cfg: Setting, states: seq<System>, steps: seq<Step>, i: nat)
    requires IsRun(cfg, states, steps) && i < |states|
    ensures Inv(states[i])
  {
    if i > 0 {
      RunKeepsInv(cfg, states, steps, i - 1);
      StepKeepsInv(cfg, states[i - 1], steps[i - 1]);
    }
  }
}
