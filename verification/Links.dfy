/**
 More than one link to one other device (src/main.ts, 3484-3517): each end keeps or replaces on its own, and
 both must keep the same one.
 */
module Links {
  import opened Basics
  import opened Names

  datatype Link = Link(id: nat)

  /** Keep the link just shaken hands on, rather than the one kept so far? */
  predicate KeepsNew(me: Name, peer: Name, dialledNew: bool, dialledExisting: bool) {
    dialledNew == dialledExisting || dialledNew == Less(me, peer)
  }

  /** One end of the links to one other device. */
  class Connections {
    const me: Name
    const peer: Name
    const dialled: set<Link>
    var current: Option<Link>
    var open: set<Link>

    constructor (me: Name, peer: Name, dialled: set<Link>)
      ensures this.me == me && this.peer == peer && this.dialled == dialled && current == None && open == {}
    {
      this.me, this.peer, this.dialled, current, open := me, peer, dialled, None, {};
    }

    /** A handshake on an open link; the link that loses is closed. */
    method HandleHandshake(conn: Link)
      modifies this
      ensures current
        == Some(Kept(me, peer, dialled,
            if old(current).Some? && old(current).value in old(open) then old(current) else None, conn))
      ensures open == old(open)
        + {conn} - (if old(current).Some? then {old(current).value, conn} - {current.value} else {})
    {
      var existing := current;
      var wasOpen := open;
      open := open + {conn};
      if existing.Some? && existing.value != conn && existing.value in wasOpen {
        if !KeepsNew(me, peer, conn in dialled, existing.value in dialled) {
          open := open - {conn};
          return;
        }
        open := open - {existing.value};
      }
      current := Some(conn);
    }

    /** Handshakes in turn, on links that nothing else closes. */
    method HandleHandshakes(links: seq<Link>)
      requires current == None
      modifies this
      ensures current == KeptOf(me, peer, dialled, links)
      ensures current.Some? ==> current.value in open
    {
      for i := 0 to |links|
        invariant current == KeptOf(me, peer, dialled, links[..i])
        invariant current.Some? ==> current.value in open
      {
        assert links[..i + 1][..i] == links[..i];
        HandleHandshake(links[i]);
      }
      assert links[..|links|] == links;
    }
  }

  function Kept(me: Name, peer: Name, dialled: set<Link>, existing: Option<Link>, conn: Link): Link {
    if existing.Some? && existing.value != conn && !KeepsNew(me, peer, conn in dialled, existing.value in dialled)
    then existing.value else conn
  }

  /** The link kept after handshakes on `links`, none of which is closed by anything else. */
  function KeptOf(me: Name, peer: Name, dialled: set<Link>, links: seq<Link>): Option<Link> {
    if links == [] then None
    else Some(Kept(me, peer, dialled, KeptOf(me, peer, dialled, links[..|links| - 1]), links[|links| - 1]))
  }

  /** The last of `links` that is in `those`. */
  function LastIn(links: seq<Link>, those: set<Link>): Option<Link> {
    if links == [] then None
    else if links[|links| - 1] in those then Some(links[|links| - 1])
    else LastIn(links[..|links| - 1], those)
  }

  function OnlyIn(links: seq<Link>, those: set<Link>): seq<Link> {
    if links == [] then []
    else OnlyIn(links[..|links| - 1], those) + (if links[|links| - 1] in those then [links[|links| - 1]] else [])
  }

  /** The links the device whose ID is lower dialled, as the device `me` knows them. */
  function ByLower(me: Name, peer: Name, dialled: set<Link>, links: seq<Link>): set<Link> {
    set l | l in links && (l in dialled <==> Less(me, peer))
  }

  lemma {:induction false} LastInIs(links: seq<Link>, those: set<Link>)
    ensures LastIn(links, those).Some? ==> LastIn(links, those).value in links && LastIn(links, those).value in those
    ensures LastIn(links, those).None? ==> forall l | l in links :: l !in those
  {
    if links != [] {
      assert links == links[..|links| - 1] + [links[|links| - 1]];
      if links[|links| - 1] !in those { LastInIs(links[..|links| - 1], those); }
    }
  }

  lemma {:induction false} LastInSame(links: seq<Link>, those: set<Link>, others: set<Link>)
    requires forall l | l in links :: l in those <==> l in others
    ensures LastIn(links, those) == LastIn(links, others)
  {
    if links != [] {
      assert links[|links| - 1] in links;
      LastInSame(links[..|links| - 1], those, others);
    }
  }

  /** What is kept is the last link the lower device dialled, if it dialled one, otherwise the last link. */
  lemma {:induction false} KeepsLastOfLower(me: Name, peer: Name, dialled: set<Link>, links: seq<Link>)
    requires links != []
    ensures var lower := LastIn(links, ByLower(me, peer, dialled, links));
      KeptOf(me, peer, dialled, links) == if lower.Some? then lower else Some(links[|links| - 1])
  {
    var rest, last := links[..|links| - 1], links[|links| - 1];
    var those, before := ByLower(me, peer, dialled, links), ByLower(me, peer, dialled, rest);
    assert links == rest + [last];
    if rest == [] {
      assert KeptOf(me, peer, dialled, rest) == None;
      assert LastIn(rest, those) == None;
    } else {
      KeepsLastOfLower(me, peer, dialled, rest);
      LastInSame(rest, those, before);
      LastInIs(rest, before);
      assert rest[|rest| - 1] in rest;
    }
  }

  lemma {:induction false} LastOfOnly(links: seq<Link>, those: set<Link>)
    ensures LastIn(links, those) ==
      if OnlyIn(links, those) == [] then None else Some(OnlyIn(links, those)[|OnlyIn(links, those)| - 1])
  {
    if links != [] { LastOfOnly(links[..|links| - 1], those); }
  }

  /**
   Both ends keep the same link, if each sees the links either device dialled in the same order:
   `lower` dialled `down`, `upper` dialled the others.
   */
  lemma BothEndsAgree(lower: Name, upper: Name, down: set<Link>, up: set<Link>, seenByLower: seq<Link>,
          seenByUpper: seq<Link>)
    requires Less(lower, upper) && down !! up
    requires forall l | l in seenByLower + seenByUpper :: l in down + up
    requires OnlyIn(seenByLower, down) == OnlyIn(seenByUpper, down)
      && OnlyIn(seenByLower, up) == OnlyIn(seenByUpper, up)
    ensures KeptOf(lower, upper, down, seenByLower) == KeptOf(upper, lower, up, seenByUpper)
  {
    LessTrichotomy(lower, upper);
    SeenEnds(lower, upper, down, up, seenByLower, true);
    SeenEnds(lower, upper, down, up, seenByUpper, false);
    LastOfOnly(seenByLower, down);
    LastOfOnly(seenByUpper, down);
    LastOfOnly(seenByLower, up);
    LastOfOnly(seenByUpper, up);
  }

  /** What one end keeps, in terms of who dialled. */
  lemma SeenEnds(lower: Name, upper: Name, down: set<Link>, up: set<Link>, links: seq<Link>, atLower: bool)
    requires Less(lower, upper) && !Less(upper, lower) && down !! up && forall l | l in links :: l in down + up
    ensures (if atLower then KeptOf(lower, upper, down, links) else KeptOf(upper, lower, up, links))
      == if LastIn(links, down).Some? then LastIn(links, down) else LastIn(links, up)
  {
    var me, peer, dialled :=
      if atLower then lower else upper, if atLower then upper else lower, if atLower then down else up;
    if links != [] {
      KeepsLastOfLower(me, peer, dialled, links);
      LastInSame(links, ByLower(me, peer, dialled, links), down);
      LastInIs(links, down);
      assert links[|links| - 1] in links;
    }
  }
}
