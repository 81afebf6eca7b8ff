/**
 Two devices that run the settings sync with each other (src/core/ConfigSync.ts, 325-541): what each
 has sent the other handles, in the order it was sent. At every path both accept, what happens is the
 exchange of `ConfigExchange`, so that once all is handled the two agree.
 */
module ConfigPairs {
  import opened Basics
  import opened Names
  import opened ConfigSyncs
  import opened ConfigExchange
  import opened ConfigDevices

  /** What `x` has sent, of one path, past the first `n` messages. */
  ghost function Unread(sent: seq<Message>, n: nat, rel: Name): seq<Note> {
    AllSaid(sent[Min(n, |sent|)..], rel)
  }

  lemma {:induction false} AllSaidJoins(ms: seq<Message>, more: seq<Message>, rel: Name)
    ensures AllSaid(ms + more, rel) == AllSaid(ms, rel) + AllSaid(more, rel)
    decreases |more|
  {
    hide Said, AllSaid;
    if more == [] {
      assert ms + more == ms;
      NothingSaidYet(rel);
    } else {
      var rest, m := more[..|more| - 1], more[|more| - 1];
      AllSaidJoins(ms, rest, rel);
      LastMoved(ms, more);
      SaidMore(ms + rest, m, rel);
      SaidMore(rest, m, rel);
      assert AllSaid(ms, rel) + AllSaid(rest, rel) + Said(m, rel)
        == AllSaid(ms, rel) + (AllSaid(rest, rel) + Said(m, rel));
    }
  }

  lemma NothingSaidYet(rel: Name)
    ensures AllSaid([], rel) == []
  {}

  lemma LastMoved<T>(s: seq<T>, t: seq<T>)
    requires t != []
    ensures var rest, last := t[..|t| - 1], t[|t| - 1]; t == rest + [last] && s + t == (s + rest) + [last]
  {}

  lemma OneSaid(m: Message, rel: Name)
    ensures AllSaid([m], rel) == Said(m, rel)
  {
    SaidMore([], m, rel);
    assert [] + [m] == [m];
  }

  /** What is added is unread. */
  lemma UnreadMore(before: seq<Message>, after: seq<Message>, n: nat, rel: Name, notes: seq<Note>)
    requires n <= |before| && Added(before, after, rel, notes)
    ensures Unread(after, n, rel) == Unread(before, n, rel) + notes
  {
    hide AllSaid;
    AllSaidJoins(before[..n], before[n..], rel);
    AllSaidJoins(after[..n], after[n..], rel);
    assert before == before[..n] + before[n..] && after == after[..n] + after[n..] && before[..n] == after[..n];
    var a, b, c := AllSaid(before[..n], rel), AllSaid(before[n..], rel), AllSaid(after[n..], rel);
    assert a + c == a + (b + notes) by { assert a + b + notes == a + (b + notes); }
    SamePrefix(a, c, b + notes);
  }

  lemma SamePrefix(a: seq<Note>, b: seq<Note>, c: seq<Note>)
    requires a + b == a + c
    ensures b == c
  {
    assert (a + b)[|a|..] == b && (a + c)[|a|..] == c;
  }

  /** The next message is read. */
  lemma UnreadLess(sent: seq<Message>, n: nat, rel: Name)
    requires n < |sent|
    ensures Unread(sent, n, rel) == Said(sent[n], rel) + Unread(sent, n + 1, rel)
  {
    assert sent[n..] == [sent[n]] + sent[n + 1..];
    AllSaidJoins([sent[n]], sent[n + 1..], rel);
    OneSaid(sent[n], rel);
  }

  // --- One path ---

  /** `x` has `h`, with `toX` unread, `y` has `k`, with `toY` unread; they began with `h0` and `k0`. */
  ghost predicate Along(idX: Name, idY: Name, h: Holding, k: Holding, toX: seq<Note>, toY: seq<Note>, h0: Holding,
          k0: Holding)
  {
    Exchanging(Exchange(h, k, toX, toY), idX, idY, h0, k0)
  }

  function OfferIfAny(h: Holding): seq<Note> {
    if h.Missing? then [] else [Offer(h)]
  }

  /** Nothing need be said of a path where there is nothing. */
  lemma BeginsAlong(idX: Name, idY: Name, h: Holding, k: Holding)
    requires idX != [] && idY != [] && idX != idY
    ensures Along(idX, idY, h, k, OfferIfAny(k), OfferIfAny(h), h, k)
  {
    var x := Begun(h, k);
    BeginsExchanging(idX, idY, h, k);
    hide Exchanging;
    if k.Missing? {
      DeliverKeepsExchanging(x, idX, idY, ToA(0), h, k);
      assert [Offer(h)] + [] == [Offer(h)];
      assert Deliver(x, idX, idY, ToA(0)) == Exchange(h, k, [], [Offer(h)]);
    }
    var y := Exchange(h, k, OfferIfAny(k), [Offer(h)]);
    if h.Missing? {
      DeliverKeepsExchanging(y, idX, idY, ToB(0), h, k);
      assert OfferIfAny(k) + [] == OfferIfAny(k);
      assert Deliver(y, idX, idY, ToB(0)) == Exchange(h, k, OfferIfAny(k), []);
    }
  }

  /** `x` reads a message that says one thing of the path, or nothing. */
  lemma ReadingKeepsAlong(idX: Name, idY: Name, h: Holding, k: Holding, said: seq<Note>, rest: seq<Note>,
          toY: seq<Note>, h0: Holding, k0: Holding)
    requires |said| <= 1 && Along(idX, idY, h, k, said + rest, toY, h0, k0)
    ensures said == [] ==> Along(idX, idY, h, k, rest, toY, h0, k0)
    ensures said != [] ==> var f := OnNote(Ends(idX, idY), h, said[0]);
      && Along(idX, idY, f.holding, k, rest, toY + f.replies, h0, k0)
      && Total(rest) + Total(toY + f.replies) < Total(said + rest) + Total(toY)
  {
    hide Exchanging, OnNote, Total;
    var x := Exchange(h, k, said + rest, toY);
    if said == [] {
      assert said + rest == rest;
    } else {
      DeliverKeepsExchanging(x, idX, idY, ToA(0), h0, k0);
      assert Without(said + rest, 0) == rest && (said + rest)[0] == said[0];
    }
  }

  lemma AlongSwaps(idX: Name, idY: Name, h: Holding, k: Holding, toX: seq<Note>, toY: seq<Note>, h0: Holding,
          k0: Holding)
    requires idX != [] && idY != [] && idX != idY
    ensures Along(idX, idY, h, k, toX, toY, h0, k0) <==> Along(idY, idX, k, h, toY, toX, k0, h0)
  {
    OneBeatsTheOther(idX, idY, h0, k0);
    SameDoesNotBeat(idX, idY, h0, k0);
    hide Beats, Inv;
  }

  // --- Two devices ---

  /** Between `x`, which has read `n` messages of `y`, and `y`, which has read `m` of `x`, every path both
      accept is along in its exchange. */
  ghost predicate AllAlong(x: ConfigDevice, y: ConfigDevice, n: nat, m: nat, hadX: Name -> Holding,
          hadY: Name -> Holding)
    reads x, y
  {
    && n <= |y.sent| && m <= |x.sent|
    && forall rel | x.accepts(rel) && y.accepts(rel) ::
      Along(x.ends.me, y.ends.me, x.At(rel), y.At(rel), Unread(y.sent, n, rel),
        Unread(x.sent, m, rel), hadX(rel), hadY(rel))
  }

  ghost predicate Paired(x: ConfigDevice, y: ConfigDevice)
    reads x, y
  {
    && x != y && x.Valid() && y.Valid() && Plain(x.sent) && Plain(y.sent)
    && x.ends.peer == y.ends.me && y.ends.peer == x.ends.me && x.ends.me != y.ends.me && x.ends.me != []
    && y.ends.me != []
  }

  lemma AllAlongSwaps(x: ConfigDevice, y: ConfigDevice, n: nat, m: nat, hadX: Name -> Holding, hadY: Name -> Holding)
    requires Paired(x, y) && AllAlong(x, y, n, m, hadX, hadY)
    ensures AllAlong(y, x, m, n, hadY, hadX)
  {
    hide Along, Unread, AllSaid, Plain;
    forall rel | x.accepts(rel) && y.accepts(rel)
      ensures Along(y.ends.me, x.ends.me, y.At(rel), x.At(rel), Unread(x.sent, m, rel),
        Unread(y.sent, n, rel), hadY(rel), hadX(rel))
    {
      AlongSwaps(x.ends.me, y.ends.me, x.At(rel), y.At(rel), Unread(y.sent, n, rel),
        Unread(x.sent, m, rel), hadX(rel), hadY(rel));
    }
  }

  // --- What is left to be said ---

  /** `x` speaks only of paths in `ks` that it accepts, and but for its first message only of what `y` accepts
      as well. */
  ghost predicate Discreet(x: ConfigDevice, y: ConfigDevice, ks: set<Name>)
    reads x, y
  {
    && Prompted(x.sent)
    && (forall rel | rel !in ks || !x.accepts(rel) :: Unread(x.sent, 0, rel) == [])
    && (forall rel | !y.accepts(rel) :: Unread(x.sent, 1, rel) == [])
  }

  /** What is left to be said of a path, on either side. */
  ghost function WorkAt(xs: seq<Message>, ys: seq<Message>, n: nat, m: nat, rel: Name): nat {
    Total(Unread(ys, n, rel)) + Total(Unread(xs, m, rel))
  }

  function Pick(ks: set<Name>): (rel: Name)
    requires ks != {}
    ensures rel in ks
  {
    Lowest(ks)
  }

  ghost function Work(ks: set<Name>, both: Name -> bool, xs: seq<Message>, ys: seq<Message>, n: nat, m: nat): nat
    decreases ks
  {
    if ks == {} then 0
    else
      var rel := Pick(ks);
      (if both(rel) then WorkAt(xs, ys, n, m, rel) else 0) + Work(ks - {rel}, both, xs, ys, n, m)
  }

  lemma {:induction false} WorkFalls(ks: set<Name>, both: Name -> bool, xs: seq<Message>, ys: seq<Message>, n: nat,
          m: nat, xs': seq<Message>, ys': seq<Message>, n': nat, m': nat)
    requires forall rel | rel in ks && both(rel) :: WorkAt(xs', ys', n', m', rel) <= WorkAt(xs, ys, n, m, rel)
    ensures Work(ks, both, xs', ys', n', m') <= Work(ks, both, xs, ys, n, m)
    ensures (exists rel :: rel in ks && both(rel) && WorkAt(xs', ys', n', m', rel) < WorkAt(xs, ys, n, m, rel)) ==>
      Work(ks, both, xs', ys', n', m') < Work(ks, both, xs, ys, n, m)
    decreases ks
  {
    hide WorkAt, Pick;
    if ks != {} {
      WorkFalls(ks - {Pick(ks)}, both, xs, ys, n, m, xs', ys', n', m');
    }
  }

  lemma {:induction false} WorkAtMost(ks: set<Name>, both: Name -> bool, xs: seq<Message>, ys: seq<Message>, n: nat,
          m: nat)
    requires forall rel | rel in ks && both(rel) :: WorkAt(xs, ys, n, m, rel) <= 6
    ensures Work(ks, both, xs, ys, n, m) <= 6 * |ks|
    decreases ks
  {
    hide WorkAt, Pick;
    if ks != {} {
      WorkAtMost(ks - {Pick(ks)}, both, xs, ys, n, m);
      assert |ks| == |ks - {Pick(ks)}| + 1;
    }
  }

  lemma {:induction false} WorkSwaps(ks: set<Name>, both: Name -> bool, xs: seq<Message>, ys: seq<Message>, n: nat,
          m: nat)
    ensures Work(ks, both, xs, ys, n, m) == Work(ks, both, ys, xs, m, n)
    decreases ks
  {
    hide Pick, Total, Unread;
    if ks != {} { WorkSwaps(ks - {Pick(ks)}, both, xs, ys, n, m); }
  }

  // --- A message is read ---

  lemma NextIsPlain(sent: seq<Message>, n: nat)
    requires Plain(sent) && n < |sent|
    ensures PlainOne(sent[n]) && forall rel :: |Said(sent[n], rel)| <= 1
  {}

  /** Nothing is said of `rel` past the first `i` messages, so nothing is said of it by a later one. */
  lemma {:induction false} SilentLater(sent: seq<Message>, i: nat, n: nat, rel: Name)
    requires i <= n < |sent| && Unread(sent, i, rel) == []
    ensures Said(sent[n], rel) == []
    decreases n - i
  {
    hide Said, AllSaid;
    UnreadLess(sent, i, rel);
    if i < n { SilentLater(sent, i + 1, n, rel); }
  }

  /** The next message is about paths that both accept: it says something of one of them, unless it is the first. */
  lemma NextSpeaks(x: ConfigDevice, y: ConfigDevice, n: nat, ks: set<Name>)
    requires Discreet(y, x, ks) && n < |y.sent|
    ensures forall rel | rel !in ks || !y.accepts(rel) :: Said(y.sent[n], rel) == []
    ensures n > 0 ==> exists rel :: rel in ks && x.accepts(rel) && y.accepts(rel) && Said(y.sent[n], rel) != []
  {
    hide Said, Unread;
    forall rel | rel !in ks || !y.accepts(rel) ensures Said(y.sent[n], rel) == [] { SilentLater(y.sent, 0, n, rel); }
    if n > 0 {
      assert Speaks(y.sent[n]);
      var rel :| Said(y.sent[n], rel) != [];
      assert x.accepts(rel) by { if !x.accepts(rel) { SilentLater(y.sent, 1, n, rel); } }
    }
  }

  /** At one path, `x` having read what `y` said of it. */
  lemma ReadAt(x: ConfigDevice, y: ConfigDevice, n: nat, m: nat, rel: Name, before: seq<Message>, h: Holding,
          h0: Holding, k0: Holding)
    requires n < |y.sent| && m <= |before| && |Said(y.sent[n], rel)| <= 1 && x.ends == Ends(x.ends.me, y.ends.me)
    requires Along(x.ends.me, y.ends.me, h, y.At(rel), Unread(y.sent, n, rel), Unread(before, m, rel), h0, k0)
    requires var said := Said(y.sent[n], rel);
      if said == [] then x.At(rel) == h && Added(before, x.sent, rel, [])
      else
        x.At(rel) == OnNote(x.ends, h, said[0]).holding
        && Added(before, x.sent, rel, OnNote(x.ends, h, said[0]).replies)
    ensures Along(x.ends.me, y.ends.me, x.At(rel), y.At(rel), Unread(y.sent, n + 1, rel),
      Unread(x.sent, m, rel), h0, k0)
    ensures WorkAt(x.sent, y.sent, n + 1, m, rel) <= WorkAt(before, y.sent, n, m, rel)
    ensures Said(y.sent[n], rel) != [] ==> WorkAt(x.sent, y.sent, n + 1, m, rel) < WorkAt(before, y.sent, n, m, rel)
  {
    hide Along, Unread, AllSaid, Added, OnNote, Said, HoldingAt, Total;
    var said := Said(y.sent[n], rel);
    UnreadLess(y.sent, n, rel);
    ReadingKeepsAlong(x.ends.me, y.ends.me, h, y.At(rel), said, Unread(y.sent, n + 1, rel),
      Unread(before, m, rel), h0, k0);
    UnreadMore(before, x.sent, m, rel, if said == [] then [] else OnNote(x.ends, h, said[0]).replies);
    assert Unread(before, m, rel) + [] == Unread(before, m, rel);
    assert said == [] ==> said + Unread(y.sent, n + 1, rel) == Unread(y.sent, n + 1, rel);
  }

  lemma StaysSilent(before: seq<Message>, after: seq<Message>, n: nat, rel: Name)
    requires n <= |before| && Unread(before, n, rel) == [] && Added(before, after, rel, [])
    ensures Unread(after, n, rel) == []
  {
    UnreadMore(before, after, n, rel, []);
    hide Unread, Added;
  }

  /** `x` handles the next message of `y`. */
  method Read(x: ConfigDevice, y: ConfigDevice, n: nat, ghost m: nat, ghost hadX: Name -> Holding,
          ghost hadY: Name -> Holding, ghost ks: set<Name>, ghost both: Name -> bool)
    requires Paired(x, y) && n < |y.sent| && |x.sent| > 0 && AllAlong(x, y, n, m, hadX, hadY)
    requires Discreet(x, y, ks) && Discreet(y, x, ks) && forall rel :: both(rel) <==> x.accepts(rel) && y.accepts(rel)
    modifies x
    ensures Paired(x, y) && old(x.sent) <= x.sent && AllAlong(x, y, n + 1, m, hadX, hadY) && Discreet(x, y, ks)
      && Discreet(y, x, ks)
    ensures Work(ks, both, x.sent, y.sent, n + 1, m) <= Work(ks, both, old(x.sent), y.sent, n, m)
    ensures n > 0 ==> Work(ks, both, x.sent, y.sent, n + 1, m) < Work(ks, both, old(x.sent), y.sent, n, m)
  {
    hide Along, Unread, AllSaid, Plain, Prompted, Added, OnNote, Said, HoldingAt, PlainOne, Work, WorkAt;
    NextIsPlain(y.sent, n);
    NextSpeaks(x, y, n, ks);
    ghost var before := x.sent;
    x.Handle(y.sent[n]);
    assert x.ends == Ends(x.ends.me, y.ends.me);
    forall rel | x.accepts(rel) && y.accepts(rel)
      ensures Along(x.ends.me, y.ends.me, x.At(rel), y.At(rel), Unread(y.sent, n + 1, rel),
        Unread(x.sent, m, rel), hadX(rel), hadY(rel))
      ensures WorkAt(x.sent, y.sent, n + 1, m, rel) <= WorkAt(before, y.sent, n, m, rel)
      ensures Said(y.sent[n], rel) != [] ==> WorkAt(x.sent, y.sent, n + 1, m, rel) < WorkAt(before, y.sent, n, m, rel)
    {
      ReadAt(x, y, n, m, rel, before, old(x.At(rel)), hadX(rel), hadY(rel));
    }
    WorkFalls(ks, both, before, y.sent, n, m, x.sent, y.sent, n + 1, m);
    forall rel | rel !in ks || !x.accepts(rel)
      ensures Unread(x.sent, 0, rel) == []
    {
      StaysSilent(before, x.sent, 0, rel);
    }
    forall rel | !y.accepts(rel)
      ensures Unread(x.sent, 1, rel) == []
    {
      StaysSilent(before, x.sent, 1, rel);
    }
  }

  /** A device that remembers fewer entries than a manifest may hold tells of all it may tell. */
  ghost predicate Fits(x: ConfigDevice)
    reads x
  {
    |x.baseline| < MAX_MANIFEST_ENTRIES && |x.tombstones| < MAX_MANIFEST_ENTRIES
  }

  lemma {:induction false} NoMoreThan(rels: seq<Name>, all: set<Name>)
    requires NoDuplicates(rels) && forall i | 0 <= i < |rels| :: rels[i] in all
    ensures |rels| <= |all|
  {
    if rels != [] {
      var last := rels[|rels| - 1];
      NoMoreThan(rels[..|rels| - 1], all - {last});
    }
  }

  /** On connecting, a device tells of what it has at each path it may tell of. */
  method Announce(x: ConfigDevice)
    requires x.Valid() && Fits(x) && x.sent == []
    modifies x
    ensures x.Valid() && |x.sent| == 1 && Plain(x.sent) && Prompted(x.sent)
    ensures x.baseline == old(x.baseline) && x.tombstones == old(x.tombstones)
    ensures forall rel | x.accepts(rel) :: Unread(x.sent, 0, rel) == OfferIfAny(x.At(rel))
    ensures forall rel | !x.accepts(rel) || rel !in x.baseline.Keys + x.tombstones.Keys :: Unread(x.sent, 0, rel) == []
    ensures forall rel :: Unread(x.sent, 1, rel) == []
  {
    assert Plain(x.sent);
    hide Plain, Prompted;
    var files, deleted := x.SendManifest();
    NoMoreThan(Rels(files), x.baseline.Keys);
    NoMoreThan(DeletedRels(deleted), x.tombstones.Keys);
    assert x.sent == [] + [Manifest(files, deleted)];
    forall rel
      ensures x.accepts(rel) ==> Unread(x.sent, 0, rel) == OfferIfAny(x.At(rel))
      ensures !x.accepts(rel) || rel !in x.baseline.Keys + x.tombstones.Keys ==> Unread(x.sent, 0, rel) == []
      ensures Unread(x.sent, 1, rel) == []
    {
      ManifestSays(files, deleted, x.baseline, x.tombstones, x.accepts, rel);
      hide Said;
      assert x.sent[0..] == [Manifest(files, deleted)] && x.sent[1..] == [];
      OneSaid(Manifest(files, deleted), rel);
    }
  }

  /** The paths either device remembers anything of. */
  function Remembered(x: ConfigDevice, y: ConfigDevice): set<Name>
    reads x, y
  {
    x.baseline.Keys + x.tombstones.Keys + y.baseline.Keys + y.tombstones.Keys
  }

  lemma BeginsDiscreet(x: ConfigDevice, y: ConfigDevice, ks: set<Name>)
    requires Prompted(x.sent) && x.baseline.Keys + x.tombstones.Keys <= ks
    requires forall rel | !x.accepts(rel) || rel !in x.baseline.Keys + x.tombstones.Keys :: Unread(x.sent, 0, rel) == []
    requires forall rel :: Unread(x.sent, 1, rel) == []
    ensures Discreet(x, y, ks)
  {
    hide Unread, Prompted;
  }

  lemma OffersAreSix(xs: seq<Message>, ys: seq<Message>, h: Holding, k: Holding, rel: Name)
    requires Unread(xs, 0, rel) == OfferIfAny(h) && Unread(ys, 0, rel) == OfferIfAny(k)
    ensures WorkAt(xs, ys, 0, 0, rel) <= 6
  {
    OneOffer(h);
    OneOffer(k);
    hide Unread;
  }

  /** The first message of either that is still unread. */
  function Firsts(n: nat, m: nat): nat {
    (if n == 0 then 1 else 0) + (if m == 0 then 1 else 0)
  }

  /** Each tells the other what it has. */
  method Meet(x: ConfigDevice, y: ConfigDevice, ghost hadX: Name -> Holding, ghost hadY: Name -> Holding,
          ghost both: Name -> bool)
    requires Paired(x, y) && Fits(x) && Fits(y) && x.sent == [] && y.sent == []
    requires forall rel ::
      hadX(rel) == x.At(rel) && hadY(rel) == y.At(rel) && (both(rel) <==> x.accepts(rel) && y.accepts(rel))
    modifies x, y
    ensures Paired(x, y) && |x.sent| == |y.sent| == 1 && AllAlong(x, y, 0, 0, hadX, hadY)
    ensures var ks := old(Remembered(x, y));
      Discreet(x, y, ks) && Discreet(y, x, ks) && Work(ks, both, x.sent, y.sent, 0, 0) <= 6 * |ks|
  {
    hide Along, Unread, Plain, Prompted, HoldingAt, Work, WorkAt, Discreet, OfferIfAny;
    ghost var ks := Remembered(x, y);
    Announce(x);
    Announce(y);
    BeginsDiscreet(x, y, ks);
    BeginsDiscreet(y, x, ks);
    forall rel | x.accepts(rel) && y.accepts(rel)
      ensures Along(x.ends.me, y.ends.me, x.At(rel), y.At(rel), Unread(y.sent, 0, rel),
        Unread(x.sent, 0, rel), hadX(rel), hadY(rel))
      ensures WorkAt(x.sent, y.sent, 0, 0, rel) <= 6
    {
      BeginsAlong(x.ends.me, y.ends.me, x.At(rel), y.At(rel));
      OffersAreSix(x.sent, y.sent, x.At(rel), y.At(rel), rel);
    }
    WorkAtMost(ks, both, x.sent, y.sent, 0, 0);
  }

  /** As long as a message is unread, one of the two handles its next one. */
  method ReadAll(x: ConfigDevice, y: ConfigDevice, turns: nat -> bool, ghost hadX: Name -> Holding,
          ghost hadY: Name -> Holding, ghost ks: set<Name>, ghost both: Name -> bool) returns (n: nat, m: nat)
    requires Paired(x, y) && |x.sent| > 0 && |y.sent| > 0 && AllAlong(x, y, 0, 0, hadX, hadY)
    requires Discreet(x, y, ks) && Discreet(y, x, ks) && Work(ks, both, x.sent, y.sent, 0, 0) <= 6 * |ks|
    requires forall rel :: both(rel) <==> x.accepts(rel) && y.accepts(rel)
    modifies x, y
    ensures Paired(x, y) && n == |y.sent| && m == |x.sent| && n + m <= 2 + 6 * |ks| && AllAlong(x, y, n, m, hadX, hadY)
  {
    hide Paired, AllAlong, Work, Discreet;
    n, m := 0, 0;
    while n < |y.sent| || m < |x.sent|
      invariant Paired(x, y) && |x.sent| > 0 && |y.sent| > 0 && AllAlong(x, y, n, m, hadX, hadY)
      invariant n <= |y.sent| && m <= |x.sent| && Discreet(x, y, ks) && Discreet(y, x, ks)
      invariant n + m + Firsts(n, m) + Work(ks, both, x.sent, y.sent, n, m) <= 2 + 6 * |ks|
      decreases 2 + 6 * |ks| - n - m
    {
      PairedApart(x, y);
      if n < |y.sent| && (turns(n + m) || m == |x.sent|) {
        Read(x, y, n, m, hadX, hadY, ks, both);
        n := n + 1;
      } else {
        AllAlongSwaps(x, y, n, m, hadX, hadY);
        WorkSwaps(ks, both, x.sent, y.sent, n, m);
        Read(y, x, m, n, hadY, hadX, ks, both);
        m := m + 1;
        PairedApart(y, x);
        AllAlongSwaps(y, x, m, n, hadY, hadX);
        WorkSwaps(ks, both, x.sent, y.sent, n, m);
      }
    }
  }

  lemma PairedApart(x: ConfigDevice, y: ConfigDevice)
    requires Paired(x, y)
    ensures x != y && Paired(y, x)
  {
    hide Plain;
  }

  /**
   Two devices connect, and handle each other's messages, taking `turns` in any way, as long as any is unread.
   That ends, after two messages and six more for each path either remembers; and they then have the same at
   every path that both accept: what the winner had.
   */
  method Connect(x: ConfigDevice, y: ConfigDevice, turns: nat -> bool) returns (n: nat, m: nat)
    requires Paired(x, y) && Fits(x) && Fits(y) && x.sent == [] && y.sent == []
    modifies x, y
    ensures Paired(x, y) && n == |y.sent| && m == |x.sent| && n + m <= 2 + 6 * |old(Remembered(x, y))|
    ensures forall rel | x.accepts(rel) && y.accepts(rel) ::
      Settled(x.At(rel), y.At(rel), x.ends.me, y.ends.me, old(x.At(rel)), old(y.At(rel)))
  {
    hide Along, Unread, Plain, Prompted, Settled, HoldingAt, Work, Discreet;
    ghost var hadX := (rel: Name) => HoldingAt(old(x.baseline), old(x.tombstones), rel);
    ghost var hadY := (rel: Name) => HoldingAt(old(y.baseline), old(y.tombstones), rel);
    ghost var ks, both := Remembered(x, y), (rel: Name) => x.accepts(rel) && y.accepts(rel);
    Meet(x, y, hadX, hadY, both);
    n, m := ReadAll(x, y, turns, hadX, hadY, ks, both);
    forall rel | x.accepts(rel) && y.accepts(rel)
      ensures Settled(x.At(rel), y.At(rel), x.ends.me, y.ends.me, hadX(rel), hadY(rel))
    {
      NothingUnread(y.sent, rel);
      NothingUnread(x.sent, rel);
      AlongEnds(x.ends.me, y.ends.me, x.At(rel), y.At(rel), hadX(rel), hadY(rel));
    }
  }

  lemma NothingUnread(sent: seq<Message>, rel: Name)
    ensures Unread(sent, |sent|, rel) == []
  {}

  lemma AlongEnds(idX: Name, idY: Name, h: Holding, k: Holding, h0: Holding, k0: Holding)
    requires idX != [] && idY != [] && idX != idY && Along(idX, idY, h, k, [], [], h0, k0)
    ensures Settled(h, k, idX, idY, h0, k0)
  {
    hide Exchanging, Settled;
    DrainedAgrees(Exchange(h, k, [], []), idX, idY, h0, k0);
  }
}
