/**
 Two devices joined by a first-in-first-out link in each direction, with the default strategy
 ("newest with copy"). Every edit is sent at once, replies are never suppressed and carry the
 vector from before the merge.

 No edit is ever lost without trace: it lives on in a version made on top of it, or in a
 conflict copy of one.
 */
module PairRuns {
  import opened Basics
  import opened Names
  import opened Versions
  import opened Replicas
  import opened Gossip

  datatype Duo = Duo(a: Name, b: Name, hash: Content -> Name) {
    predicate Valid() { a != b && a != [] && b != [] }
    predicate Has(d: Name) { d == a || d == b }
    function Peer(d: Name): Name { if d == a then b else a }
    function Cfg(): Setting { Setting(true, hash) }
    function HostFor(d: Name): Host { HostOf(Cfg(), d) }
  }

  /** `links[d]` holds the updates on their way to `d`, oldest first. */
  datatype Pair = Pair(sys: System, links: map<Name, seq<Update>>)

  datatype Action = Edits(device: Name, content: Content, mtime: real) | Receives(device: Name)

  ghost predicate Shaped(duo: Duo, s: Pair) {
    duo.Valid() && s.sys.replicas.Keys == {duo.a, duo.b} && s.links.Keys == {duo.a, duo.b}
  }

  ghost predicate Can(duo: Duo, s: Pair, act: Action)
    requires Shaped(duo, s)
  {
    duo.Has(act.device) &&
    match act
    case Edits(d, content, mtime) => Enabled(s.sys, EditFile(d, content, mtime))
    case Receives(d) => s.links[d] != [] && Message(d, s.links[d][0]) in s.sys.net
  }

  function Sent(out: seq<Outgoing>): seq<Update> {
    if out != [] && out[0].SendFile? then [out[0].update] else []
  }

  ghost function Act(duo: Duo, s: Pair, act: Action): (s': Pair)
    requires Shaped(duo, s) && Can(duo, s, act)
    ensures Shaped(duo, s')
  {
    var p := duo.Peer(act.device);
    match act
    case Edits(d, content, mtime) =>
      var edited := Apply(duo.Cfg(), s.sys, EditFile(d, content, mtime));
      var u := OurVersion(duo.HostFor(d), File(content, mtime), edited.replicas[d].vv);
      Pair(Apply(duo.Cfg(), edited, Send(d, p)), s.links[p := s.links[p] + [u]])
    case Receives(d) =>
      var u := s.links[d][0];
      var o := Receive(duo.HostFor(d), s.sys.replicas[d], false, u);
      Pair(Apply(duo.Cfg(), s.sys, Deliver(Message(d, u))),
           s.links[d := s.links[d][1..]][p := s.links[p] + Sent(o.out)])
  }

  ghost predicate InitialPair(duo: Duo, s: Pair) {
    Shaped(duo, s) && Initial(s.sys) && s.links[duo.a] == [] && s.links[duo.b] == []
  }

  ghost predicate IsPairRun(duo: Duo, states: seq<Pair>, acts: seq<Action>) {
    && |states| == |acts| + 1
    && InitialPair(duo, states[0])
    && (forall i | 0 <= i < |states| :: Shaped(duo, states[i]))
    && forall i | 0 <= i < |acts| :: Can(duo, states[i], acts[i]) && states[i + 1] == Act(duo, states[i], acts[i])
  }

  // --- What is kept ---

  /** An entry of the log: its line of descent is closed, and its author still counts what it counted. */
  ghost predicate EntryOk(duo: Duo, s: Pair, c: Content)
    requires Shaped(duo, s) && c in s.sys.log
  {
    var e := s.sys.log[c];
    && c in e.line
    && (forall x | x in e.line :: x in s.sys.log && s.sys.log[x].line <= e.line)
    && (e.count > 0 ==> duo.Has(e.device) && Count(e.vv, e.device) == e.count
                        && Includes(s.sys.replicas[e.device].vv, e.vv))
    && (e.count == 0 ==> e.device == [] && e.line == {c})
  }

  ghost predicate LogOk(duo: Duo, s: Pair)
    requires Shaped(duo, s)
  {
    forall c | c in s.sys.log :: EntryOk(duo, s, c)
  }

  /** The content a device holds is an edit of its own. */
  ghost predicate HoldsOwn(s: Pair, d: Name)
    requires d in s.sys.replicas
  {
    var f := s.sys.replicas[d].file;
    f.Some? && f.value.content in s.sys.log && s.sys.log[f.value.content].device == d
  }

  ghost function Held(s: Pair, d: Name): Content
    requires d in s.sys.replicas && s.sys.replicas[d].file.Some?
  {
    s.sys.replicas[d].file.value.content
  }

  /** An own edit in hand is the device's last edit. */
  ghost predicate OwnIsLast(s: Pair, d: Name)
    requires d in s.sys.replicas
  {
    HoldsOwn(s, d) ==> s.sys.log[Held(s, d)].count == Count(s.sys.replicas[d].vv, d)
  }

  /** The link to `d` carries what its peer `p` once held, in the order it was sent. */
  ghost predicate LinkOk(s: Pair, d: Name, p: Name)
    requires {d, p} <= s.sys.replicas.Keys && d in s.links
  {
    var r, q, l := s.sys.replicas[d], s.sys.replicas[p], s.links[d];
    && (forall i | 0 <= i < |l| ::
          && Message(d, l[i]) in s.sys.net && l[i].from == p
          && q.file.Some? && l[i].mtime <= TimeOf(q)
          && Count(r.vv, p) <= Count(l[i].vv, p) <= Count(q.vv, p))
    && forall i, j | 0 <= i < j < |l| :: Count(l[i].vv, p) <= Count(l[j].vv, p)
  }

  ghost predicate IsFirstOf(l: seq<Update>, i: nat, c: Content, e: Edit) {
    && i < |l| && l[i].content == c && l[i].vv == e.vv && l[i].mtime == e.mtime
    && forall j | 0 <= j < i :: Count(l[j].vv, e.device) < e.count
  }

  /** Every edit of `p` that `d` does not count yet is on the link, ahead of all else that counts it. */
  ghost predicate Announced(s: Pair, d: Name, p: Name)
    requires d in s.sys.replicas && d in s.links
  {
    forall c | c in s.sys.log && s.sys.log[c].device == p && s.sys.log[c].count > Count(s.sys.replicas[d].vv, p) ::
      exists i :: IsFirstOf(s.links[d], i, c, s.sys.log[c])
  }

  /** An edit of `p`, later than `e` and made without it, that `vv` counts and `d` will learn of first. */
  ghost predicate Overtaken(log: Log, d: Name, p: Name, known: Vector, e: Edit, vv: Vector) {
    exists f :: f in log && Overtakes(log[f], d, p, known, e, vv)
  }

  ghost predicate Overtakes(f: Edit, d: Name, p: Name, known: Vector, e: Edit, vv: Vector) {
    f.device == p && Count(known, p) < f.count <= Count(vv, p) && f.mtime > e.mtime && Count(f.vv, d) < e.count
  }

  /** A version of `p` that counts the edit `c` in d's hands descends from it, unless d will have overtaken
      `c` before. */
  ghost predicate Respects(s: Pair, d: Name, p: Name, c: Content, content: Content, vv: Vector)
    requires d in s.sys.replicas && c in s.sys.log
  {
    Count(vv, d) >= s.sys.log[c].count ==>
      || (content in s.sys.log && c in s.sys.log[content].line)
      || Overtaken(s.sys.log, d, p, s.sys.replicas[d].vv, s.sys.log[c], vv)
  }

  ghost predicate Defended(s: Pair, d: Name, p: Name)
    requires {d, p} <= s.sys.replicas.Keys && d in s.links
  {
    HoldsOwn(s, d) && Held(s, d) !in s.sys.replicas[d].copies ==>
      && (forall u | u in s.links[d] :: Respects(s, d, p, Held(s, d), u.content, u.vv))
      && (s.sys.replicas[p].file.Some? ==> Respects(s, d, p, Held(s, d), Held(s, p), s.sys.replicas[p].vv))
  }

  ghost function Copies(duo: Duo, s: Pair): set<Content>
    requires Shaped(duo, s)
  {
    s.sys.replicas[duo.a].copies + s.sys.replicas[duo.b].copies
  }

  /** `x` lives on in `content`, or in a conflict copy. */
  ghost predicate LivesOn(duo: Duo, s: Pair, x: Content, content: Content)
    requires Shaped(duo, s)
  {
    || (content in s.sys.log && x in s.sys.log[content].line)
    || exists y :: y in Copies(duo, s) && y in s.sys.log && x in s.sys.log[y].line
  }

  /** A version of `p` preserves every edit of p that it counts. */
  ghost predicate Preserves(duo: Duo, s: Pair, p: Name, content: Content, vv: Vector)
    requires Shaped(duo, s)
  {
    forall x | x in s.sys.log && s.sys.log[x].device == p && s.sys.log[x].count <= Count(vv, p) ::
      LivesOn(duo, s, x, content)
  }

  ghost predicate Kept(duo: Duo, s: Pair, d: Name, p: Name)
    requires Shaped(duo, s) && duo.Has(d) && duo.Has(p)
  {
    && (s.sys.replicas[p].file.Some? ==> Preserves(duo, s, p, Held(s, p), s.sys.replicas[p].vv))
    && forall u | u in s.links[d] :: Preserves(duo, s, p, u.content, u.vv)
  }

  ghost predicate LaneInv(duo: Duo, s: Pair, d: Name)
    requires Shaped(duo, s) && duo.Has(d)
  {
    var p := duo.Peer(d);
    OwnIsLast(s, d) && LinkOk(s, d, p) && Announced(s, d, p) && Defended(s, d, p) && Kept(duo, s, d, p)
  }

  ghost predicate PairInv(duo: Duo, s: Pair) {
    Shaped(duo, s) && Inv(s.sys) && LogOk(duo, s) && LaneInv(duo, s, duo.a) && LaneInv(duo, s, duo.b)
  }

  lemma InitialInv(duo: Duo, s: Pair)
    requires InitialPair(duo, s)
    ensures PairInv(duo, s)
  {
    hide LogOk, LaneInv, Initial;
    InitialSystem(s.sys);
    InitialLog(duo, s);
    InitialLane(duo, s, duo.a);
    InitialLane(duo, s, duo.b);
  }

  lemma InitialSystem(s: System)
    requires Initial(s)
    ensures Inv(s)
  {}

  lemma InitialLog(duo: Duo, s: Pair)
    requires InitialPair(duo, s)
    ensures LogOk(duo, s)
  {}

  lemma InitialLane(duo: Duo, s: Pair, d: Name)
    requires InitialPair(duo, s) && duo.Has(d)
    ensures LaneInv(duo, s, d)
  {}
}
