/**
 Two devices that connect tell each other what they have (src/core/ConfigSync.ts, 383-541), and
 answer what they are told, until nothing is left to answer: for each path they then agree on the
 later change.
 */
module ConfigExchange {
  import opened Basics
  import opened Names
  import opened ConfigSyncs
  import opened Versions
  import opened VersionOrder

  /** One path on two devices, and what is on its way to either, in any order. */
  datatype Exchange = Exchange(a: Holding, b: Holding, toA: seq<Note>, toB: seq<Note>)

  function Begun(a: Holding, b: Holding): Exchange {
    Exchange(a, b, [Offer(b)], [Offer(a)])
  }

  function Swap(x: Exchange): Exchange {
    Exchange(x.b, x.a, x.toB, x.toA)
  }

  function DeliverToA(x: Exchange, e: Ends, k: nat): Exchange
    requires k < |x.toA|
  {
    var f := OnNote(e, x.a, x.toA[k]);
    Exchange(f.holding, x.b, Without(x.toA, k), x.toB + f.replies)
  }

  datatype Delivery = ToA(k: nat) | ToB(k: nat)

  predicate Possible(x: Exchange, d: Delivery) {
    if d.ToA? then d.k < |x.toA| else d.k < |x.toB|
  }

  /** `idA` and `idB` are the devices' IDs. */
  function Deliver(x: Exchange, idA: Name, idB: Name, d: Delivery): Exchange
    requires Possible(x, d)
  {
    if d.ToA? then DeliverToA(x, Ends(idA, idB), d.k) else Swap(DeliverToA(Swap(x), Ends(idB, idA), d.k))
  }

  ghost predicate IsExchange(a: Holding, b: Holding, idA: Name, idB: Name, states: seq<Exchange>, steps: seq<Delivery>)
  {
    && |states| == |steps| + 1 && states[0] == Begun(a, b)
    && forall i | 0 <= i < |steps| ::
      Possible(states[i], steps[i]) && states[i + 1] == Deliver(states[i], idA, idB, steps[i])
  }

  // --- Who wins ---

  /** Nothing needs to be exchanged: the same file, perhaps with another time, or the same deletion, or
      nothing on either side. */
  predicate Same(a: Holding, b: Holding) {
    a == b || (a.Have? && b.Have? && a.hash == b.hash)
  }

  /** Device `x` with `w` and device `y` with `l` both find that `w` wins. */
  predicate Beats(x: Name, y: Name, w: Holding, l: Holding) {
    match (w, l)
    case (Missing, _) => false
    case (_, Missing) => true
    case (Gone(s), Gone(t)) => t < s
    case (Have(h, s), Have(k, t)) => h != k && RemoteWins(Ends(y, x), s, h, t, k) && !RemoteWins(Ends(x, y), t, k, s, h)
    case (Have(h, s), Gone(t)) => RemoteWins(Ends(y, x), s, h, t, []) && !RemoteWins(Ends(x, y), t, [], s, h)
    case (Gone(s), Have(k, t)) => RemoteWins(Ends(y, x), s, [], t, k) && !RemoteWins(Ends(x, y), t, k, s, [])
  }

  /** Two devices with IDs of their own never both find that they win, nor both that they lose. */
  lemma OneBeatsTheOther(x: Name, y: Name, a: Holding, b: Holding)
    requires x != [] && y != [] && x != y
    ensures Same(a, b) || Beats(x, y, a, b) || Beats(y, x, b, a)
    ensures !(Beats(x, y, a, b) && Beats(y, x, b, a))
  {
    if !a.Missing? && !b.Missing? {
      var v := Version(TimeOf(a), map[], if a.Have? then a.hash else [], x);
      var u := Version(TimeOf(b), map[], if b.Have? then b.hash else [], y);
      hide NewerVersion;
      SwapSwapsUnlessIndistinguishable(v, u);
    }
  }

  // --- The invariant, where A wins: `w` is what A has, `l` what B had ---

  /** B has told A of `l`, and may have asked for A's file. */
  ghost predicate TellsWinner(notes: seq<Note>, l: Holding) {
    forall i | 0 <= i < |notes| :: notes[i] == Offer(l) || notes[i] == Ask
  }

  predicate Informs(n: Note, w: Holding) {
    n == Offer(w) || (Changes(n) && Told(n) == w)
  }

  /** All that A tells B is what A has. */
  ghost predicate TellsLoser(notes: seq<Note>, w: Holding) {
    forall i | 0 <= i < |notes| :: Informs(notes[i], w)
  }

  ghost predicate Asked(notes: seq<Note>) {
    exists i :: 0 <= i < |notes| && notes[i] == Ask
  }

  ghost predicate Inv(x: Exchange, idA: Name, idB: Name, w: Holding, l: Holding) {
    && Beats(idA, idB, w, l) && x.a == w && (x.b == w || x.b == l)
    && TellsWinner(x.toA, l) && TellsLoser(x.toB, w)
    && (x.b == w || x.toB != [] || (w.Have? && Asked(x.toA)))
  }

  function Weight(n: Note): nat {
    match n
    case Offer(_) => 3
    case Ask => 2
    case _ => 1
  }

  function Total(notes: seq<Note>): nat {
    if notes == [] then 0 else Weight(notes[0]) + Total(notes[1..])
  }

  function Left(x: Exchange): nat { Total(x.toA) + Total(x.toB) }

  lemma {:induction false} TotalJoins(s: seq<Note>, t: seq<Note>)
    ensures Total(s + t) == Total(s) + Total(t)
  {
    if s == [] {
      assert s + t == t;
    } else {
      assert (s + t)[1..] == s[1..] + t;
      TotalJoins(s[1..], t);
    }
  }

  /** A note is taken and answered by a lighter one at most. */
  lemma LessLeft(s: seq<Note>, k: nat, t: seq<Note>, replies: seq<Note>)
    requires k < |s| && |replies| <= 1 && (replies != [] ==> Weight(replies[0]) < Weight(s[k]))
    ensures Total(Without(s, k)) + Total(t + replies) < Total(s) + Total(t)
  {
    hide Weight;
    assert s == s[..k] + ([s[k]] + s[k + 1..]);
    TotalJoins(s[..k], [s[k]] + s[k + 1..]);
    TotalJoins([s[k]], s[k + 1..]);
    TotalJoins(s[..k], s[k + 1..]);
    TotalJoins(t, replies);
    assert [s[k]][1..] == [];
    if replies != [] { assert replies[1..] == []; }
    assert Weight(s[k]) > 0 by { WeightPositive(s[k]); }
  }

  lemma WeightPositive(n: Note)
    ensures Weight(n) > 0
  {}

  /** The winner keeps what it has, and tells of nothing else. */
  lemma WinnerKeeps(idA: Name, idB: Name, w: Holding, l: Holding, n: Note)
    requires Beats(idA, idB, w, l) && (n == Offer(l) || n == Ask)
    ensures var f := OnNote(Ends(idA, idB), w, n);
      && f.holding == w && |f.replies| <= 1
      && (f.replies != [] ==> Changes(f.replies[0]) && Told(f.replies[0]) == w)
      && (n == Ask && w.Have? ==> f.replies != [])
  {
    hide NewerVersion;
  }

  /** The loser takes what it is told, or asks for it. */
  lemma LoserTakes(idA: Name, idB: Name, w: Holding, l: Holding, h: Holding, n: Note)
    requires Beats(idA, idB, w, l) && (h == w || h == l) && Informs(n, w)
    ensures var f := OnNote(Ends(idB, idA), h, n);
      || (f.holding == w && f.replies == [])
      || (n == Offer(w) && w.Have? && f == Effect(l, [Ask]))
  {
    hide NewerVersion;
  }

  lemma DeliverToWinner(x: Exchange, idA: Name, idB: Name, k: nat, w: Holding, l: Holding)
    requires k < |x.toA| && Inv(x, idA, idB, w, l)
    ensures var y := DeliverToA(x, Ends(idA, idB), k); Inv(y, idA, idB, w, l) && Left(y) < Left(x)
  {
    var n := x.toA[k];
    var f := OnNote(Ends(idA, idB), x.a, n);
    WinnerKeeps(idA, idB, w, l, n);
    hide OnNote, Beats;
    LessLeft(x.toA, k, x.toB, f.replies);
    var y := DeliverToA(x, Ends(idA, idB), k);
    if y.b != w && y.toB == [] {
      var i :| 0 <= i < |x.toA| && x.toA[i] == Ask;
      assert i != k;
      assert y.toA[if i < k then i else i - 1] == Ask;
    }
  }

  lemma DeliverToLoser(x: Exchange, idA: Name, idB: Name, k: nat, w: Holding, l: Holding)
    requires k < |x.toB| && Inv(x, idA, idB, w, l)
    ensures var y := Swap(DeliverToA(Swap(x), Ends(idB, idA), k)); Inv(y, idA, idB, w, l) && Left(y) < Left(x)
  {
    var n := x.toB[k];
    var f := OnNote(Ends(idB, idA), x.b, n);
    LoserTakes(idA, idB, w, l, x.b, n);
    hide OnNote, Beats;
    LessLeft(x.toB, k, x.toA, f.replies);
    var y := Swap(DeliverToA(Swap(x), Ends(idB, idA), k));
    if f.replies == [Ask] {
      assert y.toA[|x.toA|] == Ask;
    }
  }

  /** Every delivery keeps the invariant, and leaves less to be said. */
  lemma DeliverKeepsInv(x: Exchange, idA: Name, idB: Name, d: Delivery, w: Holding, l: Holding)
    requires Possible(x, d) && Inv(x, idA, idB, w, l)
    ensures Inv(Deliver(x, idA, idB, d), idA, idB, w, l) && Left(Deliver(x, idA, idB, d)) < Left(x)
  {
    if d.ToA? { DeliverToWinner(x, idA, idB, d.k, w, l); } else { DeliverToLoser(x, idA, idB, d.k, w, l); }
  }

  // --- Where there is nothing to exchange ---

  ghost predicate Idle(x: Exchange, a: Holding, b: Holding) {
    && x.a == a && x.b == b
    && (forall i | 0 <= i < |x.toA| :: x.toA[i] == Offer(b)) && forall i | 0 <= i < |x.toB| :: x.toB[i] == Offer(a)
  }

  lemma DeliverKeepsIdle(x: Exchange, idA: Name, idB: Name, d: Delivery, a: Holding, b: Holding)
    requires Possible(x, d) && Same(a, b) && Idle(x, a, b)
    ensures Idle(Deliver(x, idA, idB, d), a, b) && Left(Deliver(x, idA, idB, d)) < Left(x)
  {
    hide NewerVersion, Total;
    if d.ToA? { LessLeft(x.toA, d.k, x.toB, []); } else { LessLeft(x.toB, d.k, x.toA, []); }
  }

  // --- Whole exchanges ---

  /** Whoever wins, the invariant holds from that end. */
  ghost predicate Exchanging(x: Exchange, idA: Name, idB: Name, a: Holding, b: Holding) {
    if Same(a, b) then Idle(x, a, b)
    else if Beats(idA, idB, a, b) then Inv(x, idA, idB, a, b)
    else Inv(Swap(x), idB, idA, b, a)
  }

  lemma DeliverKeepsExchanging(x: Exchange, idA: Name, idB: Name, d: Delivery, a: Holding, b: Holding)
    requires Possible(x, d) && Exchanging(x, idA, idB, a, b)
    ensures Exchanging(Deliver(x, idA, idB, d), idA, idB, a, b) && Left(Deliver(x, idA, idB, d)) < Left(x)
  {
    hide Inv, Idle, Beats, Same, Total, DeliverToA;
    if Same(a, b) {
      DeliverKeepsIdle(x, idA, idB, d, a, b);
    } else if Beats(idA, idB, a, b) {
      DeliverKeepsInv(x, idA, idB, d, a, b);
    } else {
      DeliverKeepsInv(Swap(x), idB, idA, if d.ToA? then ToB(d.k) else ToA(d.k), b, a);
    }
  }

  lemma OneOffer(h: Holding)
    ensures Total([Offer(h)]) == 3
  {
    var one := [Offer(h)];
    assert one[1..] == [];
    assert Total(one) == Weight(one[0]) + Total([]);
  }

  lemma BeginsExchanging(idA: Name, idB: Name, a: Holding, b: Holding)
    requires idA != [] && idB != [] && idA != idB
    ensures Exchanging(Begun(a, b), idA, idB, a, b) && Left(Begun(a, b)) == 6
  {
    OneBeatsTheOther(idA, idB, a, b);
    hide Beats;
    OneOffer(a);
    OneOffer(b);
  }

  lemma {:induction false} RunKeepsExchanging(a: Holding, b: Holding, idA: Name, idB: Name, states: seq<Exchange>,
          steps: seq<Delivery>, i: nat)
    requires idA != [] && idB != [] && idA != idB && IsExchange(a, b, idA, idB, states, steps) && i < |states|
    ensures Exchanging(states[i], idA, idB, a, b) && Left(states[i]) + i <= 6
  {
    hide Exchanging, Deliver, Left;
    if i == 0 {
      BeginsExchanging(idA, idB, a, b);
    } else {
      RunKeepsExchanging(a, b, idA, idB, states, steps, i - 1);
      DeliverKeepsExchanging(states[i - 1], idA, idB, steps[i - 1], a, b);
    }
  }

  /** Both have the same file or the same deletion: that of the one who wins. */
  ghost predicate Settled(x: Holding, y: Holding, idA: Name, idB: Name, a: Holding, b: Holding) {
    Same(x, y) && (Beats(idA, idB, a, b) ==> x == y == a) && (Beats(idB, idA, b, a) ==> x == y == b)
  }

  lemma DrainedAgrees(x: Exchange, idA: Name, idB: Name, a: Holding, b: Holding)
    requires idA != [] && idB != [] && idA != idB && Exchanging(x, idA, idB, a, b) && x.toA == [] && x.toB == []
    ensures Settled(x.a, x.b, idA, idB, a, b)
  {
    OneBeatsTheOther(idA, idB, a, b);
    SameDoesNotBeat(idA, idB, a, b);
    hide Beats;
  }

  /**
   Two devices with IDs of their own: after six deliveries at most nothing is left to deliver, and once
   nothing is, both have the same file or the same deletion, namely that of the one who wins.
   */
  lemma DrainedDevicesAgree(a: Holding, b: Holding, idA: Name, idB: Name, states: seq<Exchange>, steps: seq<Delivery>)
    requires idA != [] && idB != [] && idA != idB && IsExchange(a, b, idA, idB, states, steps)
    ensures |steps| <= 6
    ensures var x := states[|steps|]; x.toA == [] && x.toB == [] ==> Settled(x.a, x.b, idA, idB, a, b)
  {
    RunKeepsExchanging(a, b, idA, idB, states, steps, |steps|);
    if states[|steps|].toA == [] && states[|steps|].toB == [] { DrainedAgrees(states[|steps|], idA, idB, a, b); }
  }

  lemma SameDoesNotBeat(idA: Name, idB: Name, a: Holding, b: Holding)
    ensures Same(a, b) ==> !Beats(idA, idB, a, b) && !Beats(idB, idA, b, a)
  {
    hide NewerVersion;
  }

  /** With different times, the one who wins is the one whose change is later. */
  lemma LaterBeats(idA: Name, idB: Name, a: Holding, b: Holding)
    requires !Same(a, b) && (a.Missing? || b.Missing? || TimeOf(a) != TimeOf(b))
    ensures Beats(idA, idB, a, b) <==> AtLeast(a, b)
  {}

  // --- One change and its answer ---

  /** Later wins; at one time the lower hash, and of one hash the lower device. */
  lemma RemoteWinsIs(e: Ends, remoteTime: real, remoteHash: Name, localTime: real, localHash: Name)
    requires e.me != [] && e.peer != [] && e.me != e.peer && remoteHash != [] && localHash != []
    ensures RemoteWins(e, remoteTime, remoteHash, localTime, localHash)
      <==> (|| remoteTime > localTime
            || (remoteTime == localTime
                && (Less(remoteHash, localHash) || (remoteHash == localHash && Less(e.peer, e.me)))))
  {
    var v, u := Version(remoteTime, map[], remoteHash, e.peer), Version(localTime, map[], localHash, e.me);
    NewerIsLexicographic(v, u);
    VectorLexTrichotomy(map[], map[]);
    hide NewerVersion;
  }

  /**
   Device `y` sends its file or deletion to `x`, whatever that has; then `y` hears the answer, if there is one,
   and they have the same.
   */
  lemma ChangeAndAnswerAgree(x: Name, y: Name, h: Holding, told: Note)
    requires x != [] && y != [] && x != y && Changes(told)
    ensures var atX := OnNote(Ends(x, y), h, told);
      && |atX.replies| <= 1 && (atX.replies != [] ==> Changes(atX.replies[0]))
      && var atY := if atX.replies == [] then Told(told) else OnNote(Ends(y, x), Told(told), atX.replies[0]).holding;
        Same(atX.holding, atY) || (atX.holding.Gone? && atY.Gone?)
  {
    var k := Told(told);
    OneBeatsTheOther(x, y, h, k);
    if !h.Missing? {
      var v := Version(TimeOf(h), map[], if h.Have? then h.hash else [], x);
      var u := Version(TimeOf(k), map[], if k.Have? then k.hash else [], y);
      SwapSwapsUnlessIndistinguishable(v, u);
    }
    hide NewerVersion;
  }

  /** An offer of a file that meets a later deletion is answered with it, and the file goes; an offered file
      that wins is asked for. */
  lemma OfferMeetsDeletion(x: Name, y: Name, hash: Name, mtime: real, at: real)
    requires x != [] && y != [] && x != y
    ensures var replies := OnNote(Ends(x, y), Gone(at), Offer(Have(hash, mtime))).replies;
      if RemoteWins(Ends(x, y), mtime, hash, at, []) then replies == [Ask]
      else replies == [SendDelete(at)] && OnNote(Ends(y, x), Have(hash, mtime), replies[0]).holding == Gone(at)
  {
    SwapSwapsUnlessIndistinguishable(Version(mtime, map[], hash, y), Version(at, map[], [], x));
    hide NewerVersion;
  }
}
