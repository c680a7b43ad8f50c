/** Broken links, whole: what a purge of the neighbour list does to the routing table and to the log, and
    what a received RERR takes down. */
module LinkBreaks {
  import opened Basics
  import opened Headers
  import opened RouteEntries
  import opened Nodes
  import opened RouteViews
  import NodeViews

  /** The closing neighbours that have a table entry of their own. */
  function LostHops(t: Table, nb: seq<Neighbor>, now: int): set<Addr> {
    set b | b in nb && Closing(b, now) && b.addr in t :: b.addr
  }

  /** The lost next hops and everything routed through them. */
  function Downstream(t: Table, lost: set<Addr>): set<Addr> {
    set k | k in t && (k in lost || t[k].nextHop in lost)
  }

  /** What a RERR about the loss of `a` lists: `a` and everything routed through it, each with the sequence
      number it has in the table. */
  function Report(t: Table, a: Addr): map<Addr, U32> {
    map k | k in Downstream(t, {a}) :: t[k].seqNo
  }

  lemma ReportKeys(t: Table, a: Addr)
    requires a in t
    ensures Report(t, a).Keys == Downstream(t, {a})
  {
  }

  /** Everyone who has told this node that it routes through it to one of `dsts`. */
  function Told(t: Table, dsts: set<Addr>): set<Addr> {
    set d, p | d in dsts && d in t && p in t[d].precursors :: p
  }

  lemma ToldPrecursors(t: Table, dsts: set<Addr>)
    ensures Precursors(t, dsts) == Told(t, dsts)
  {
  }

  /** The destinations with a VALID route. */
  function Up(t: Table): set<Addr> {
    set k | k in t && t[k].flag == VALID
  }

  /** The RERR that goes out when those in `told` are to hear of `h` and those in `up` can be reached: none when
      the one-byte count of `h` is 0 or nobody can be reached, otherwise one with a TTL of 1, to the only one or
      to everyone. */
  ghost function Notice(h: RerrHeader, told: set<Addr>, up: set<Addr>): seq<Packet> {
    if |h.dests| % 0x100 == 0 || told * up == {} then []
    else
      var q :| q in told;
      [Packet(Rerr(h), 1, if told == {q} then To(q) else Broadcast)]
  }

  lemma NoticeIs(t: Table, h: RerrHeader, told: set<Addr>)
    ensures RerrMessage(t, h, told) == Notice(h, told, Up(t))
  {
    if p :| p in told && ValidRoute(t, p) {
      assert p in told * Up(t);
    }
  }

  lemma InvalidatedTwice(t: Table, a: set<Addr>, b: set<Addr>, now: int, bad: int)
    ensures Invalidated(Invalidated(t, a, now, bad), b, now, bad) == Invalidated(t, a + b, now, bad)
  {
  }

  lemma InvalidatedNone(t: Table, now: int, bad: int)
    ensures Invalidated(t, {}, now, bad) == t
  {
  }

  /** Taking entries down moves no next hop, no sequence number and no precursor. */
  lemma InvalidatedSame(t: Table, a: set<Addr>, now: int, bad: int, k: Addr)
    requires k in t
    ensures var u := Invalidated(t, a, now, bad);
            && u.Keys == t.Keys && Downstream(u, {k}) == Downstream(t, {k}) && Report(u, k) == Report(t, k)
            && Precursors(u, Report(t, k).Keys) == Precursors(t, Report(t, k).Keys)
  {
    var u := Invalidated(t, a, now, bad);
    assert forall d :: d in t ==>
             u[d].nextHop == t[d].nextHop && u[d].seqNo == t[d].seqNo && u[d].precursors == t[d].precursors;
  }

  /** One broken link, in a settled table. */
  lemma OneBreak(n: Node, a: Addr, now: int, c: Config)
    requires Settled(n.table, now) && c.Sane()
    ensures LinkBreak(n, a, now, c).table
         == (if a in n.table then Invalidated(n.table, Downstream(n.table, {a}), now, c.deletePeriod) else n.table)
    ensures LinkBreak(n, a, now, c).sent
         == n.sent + (if a in n.table
                      then RerrMessage(n.table, EMPTY_RERR.(dests := Report(n.table, a)),
                                       Precursors(n.table, Report(n.table, a).Keys))
                      else [])
  {
    hide Downstream, Report, RerrMessage, Precursors, Invalidated;
    PurgeView(n.table, now, c.deletePeriod);
    if a in n.table {
      ReportKeys(n.table, a);
      ReportIs(n.table, a);
    }
  }

  lemma ReportIs(t: Table, a: Addr)
    requires a in t
    ensures Report(t, a) == Through(t, a)[a := t[a].seqNo]
  {
  }

  lemma DownstreamUnion(t: Table, a: set<Addr>, b: set<Addr>)
    ensures Downstream(t, a) + Downstream(t, b) == Downstream(t, a + b)
  {
  }

  lemma LostHead(t: Table, nb: seq<Neighbor>, now: int)
    requires nb != []
    ensures LostHops(t, nb, now)
         == (if Closing(nb[0], now) && nb[0].addr in t then {nb[0].addr} else {}) + LostHops(t, nb[1..], now)
  {
    assert forall b :: b in nb <==> b == nb[0] || b in nb[1..];
  }

  lemma LostSame(t: Table, u: Table, nb: seq<Neighbor>, now: int)
    requires t.Keys == u.Keys
    ensures LostHops(t, nb, now) == LostHops(u, nb, now)
  {
    assert forall k :: k in t <==> k in u;
  }

  lemma DownstreamSame(t: Table, a: set<Addr>, lost: set<Addr>, now: int, bad: int)
    ensures Downstream(Invalidated(t, a, now, bad), lost) == Downstream(t, lost)
  {
  }

  lemma {:induction false} BreakSettled(n: Node, nb: seq<Neighbor>, now: int, c: Config)
    requires Settled(n.table, now) && c.Sane()
    ensures BreakLinks(n, nb, now, c).table
         == Invalidated(n.table, Downstream(n.table, LostHops(n.table, nb, now)), now, c.deletePeriod)
    decreases |nb|
  {
    hide Downstream, LostHops, LinkBreak, Invalidated, Closing;
    var t, bad := n.table, c.deletePeriod;
    if nb == [] {
      NothingLost(t, now);
      InvalidatedNone(t, now, bad);
    } else {
      LostHead(t, nb, now);
      if Closing(nb[0], now) {
        var a := nb[0].addr;
        var n1 := LinkBreak(n, a, now, c);
        OneBreak(n, a, now, c);
        if a in t {
          var down := Downstream(t, {a});
          NodeViews.InvalidatedView(t, down, now, bad);
          BreakSettled(n1, nb[1..], now, c);
          SameKeys(t, down, now, bad);
          LostSame(t, n1.table, nb[1..], now);
          DownstreamSame(t, down, LostHops(t, nb[1..], now), now, bad);
          InvalidatedTwice(t, down, Downstream(t, LostHops(t, nb[1..], now)), now, bad);
          DownstreamUnion(t, {a}, LostHops(t, nb[1..], now));
        } else {
          assert n1.table == t && {} + LostHops(t, nb[1..], now) == LostHops(t, nb[1..], now);
          BreakSettled(n1, nb[1..], now, c);
        }
      } else {
        assert {} + LostHops(t, nb[1..], now) == LostHops(t, nb[1..], now);
        BreakSettled(n, nb[1..], now, c);
      }
    }
  }

  lemma SameKeys(t: Table, a: set<Addr>, now: int, bad: int)
    ensures Invalidated(t, a, now, bad).Keys == t.Keys
  {
  }

  lemma NothingLost(t: Table, now: int)
    ensures Downstream(t, LostHops(t, [], now)) == {}
  {
  }

  /** A link break begins with a purge. */
  lemma {:induction false} PurgedFirst(n: Node, nb: seq<Neighbor>, now: int, c: Config)
    requires WellFormed(n.table) && c.Sane() && exists b :: b in nb && Closing(b, now)
    ensures BreakLinks(n, nb, now, c) == BreakLinks(n.(table := Purge(n.table, now, c.deletePeriod)), nb, now, c)
    decreases |nb|
  {
    hide Purge, Closing, RerrMessage, Precursors, InvalidateRoutesWithDst;
    var t := Purge(n.table, now, c.deletePeriod);
    PurgeView(n.table, now, c.deletePeriod);
    PurgeView(t, now, c.deletePeriod);
    if Closing(nb[0], now) {
      assert LinkBreak(n, nb[0].addr, now, c) == LinkBreak(n.(table := t), nb[0].addr, now, c);
    } else {
      PurgedFirst(n, nb[1..], now, c);
    }
  }

  /** Link break is complete: after a purge of the neighbour list that removed somebody, the table is the
      purged table in which exactly the VALID entries of, and through, each removed neighbour with an entry
      of its own have gone down, all with the same deadline. */
  lemma LinkBreakComplete(n: Node, now: int, c: Config)
    requires WellFormed(n.table) && c.Sane() && exists b :: b in n.nb && Closing(b, now)
    ensures var t := Purge(n.table, now, c.deletePeriod); var r := NbPurge(n, now, c).table;
            var lost := LostHops(t, n.nb, now);
            && r.Keys == t.Keys
            && forall k :: k in t ==>
                 r[k] == if t[k].flag == VALID && (k in lost || t[k].nextHop in lost)
                         then t[k].(flag := INVALID, reqCount := 0, expire := now + c.deletePeriod) else t[k]
  {
    hide Purge, LostHops, BreakLinks;
    PurgedFirst(n, n.nb, now, c);
    PurgeView(n.table, now, c.deletePeriod);
    BreakSettled(n.(table := Purge(n.table, now, c.deletePeriod)), n.nb, now, c);
  }

  // ------------------------------------------------------------------------------- what is announced

  /** What a purge of the neighbour list `nb` announces, read off the table it starts from, when the links to
      `gone` are broken already: for each closing neighbour with an entry, in order, what is lost with it, told
      to those whose own route is not downstream of an earlier loss. */
  ghost function Announcements(t: Table, gone: set<Addr>, nb: seq<Neighbor>, now: int): seq<Packet>
    decreases |nb|
  {
    if nb == [] then []
    else if (nb[0].expire < now || nb[0].close) && nb[0].addr in t then
      var a := nb[0].addr;
      Notice(RerrHeader(0, 0, Report(t, a)), Told(t, Downstream(t, {a})), Up(t) - Downstream(t, gone))
      + Announcements(t, gone + {a}, nb[1..], now)
    else Announcements(t, gone, nb[1..], now)
  }

  lemma UpAfter(t: Table, down: set<Addr>, now: int, bad: int)
    ensures Up(Invalidated(t, down, now, bad)) == Up(t) - down
  {
  }

  /** The next broken link, when those to `gone` are broken already. */
  lemma NextBreak(n: Node, t: Table, gone: set<Addr>, a: Addr, now: int, c: Config)
    requires Settled(n.table, now) && c.Sane() && a in t
    requires n.table == Invalidated(t, Downstream(t, gone), now, c.deletePeriod)
    ensures var r := LinkBreak(n, a, now, c);
            && r.table == Invalidated(t, Downstream(t, gone + {a}), now, c.deletePeriod)
            && r.sent == n.sent + Notice(RerrHeader(0, 0, Report(t, a)), Told(t, Downstream(t, {a})),
                                         Up(t) - Downstream(t, gone))
  {
    hide Downstream, Report, RerrMessage, Precursors, Invalidated, Told, Up, LinkBreak, Notice;
    var bad, down := c.deletePeriod, Downstream(t, gone);
    SameKeys(t, down, now, bad);
    OneBreak(n, a, now, c);
    InvalidatedSame(t, down, now, bad, a);
    InvalidatedTwice(t, down, Downstream(t, {a}), now, bad);
    DownstreamUnion(t, gone, {a});
    ReportKeys(t, a);
    ToldPrecursors(t, Downstream(t, {a}));
    NoticeIs(n.table, RerrHeader(0, 0, Report(t, a)), Told(t, Downstream(t, {a})));
    UpAfter(t, down, now, bad);
  }

  lemma {:induction false} AnnouncedInTurn(n: Node, t: Table, gone: set<Addr>, nb: seq<Neighbor>, now: int, c: Config)
    requires Settled(n.table, now) && c.Sane()
    requires n.table == Invalidated(t, Downstream(t, gone), now, c.deletePeriod)
    ensures BreakLinks(n, nb, now, c).sent == n.sent + Announcements(t, gone, nb, now)
    decreases |nb|
  {
    hide Downstream, Report, Told, Up, LinkBreak, Notice, Invalidated;
    var bad := c.deletePeriod;
    SameKeys(t, Downstream(t, gone), now, bad);
    if nb == [] {
      assert n.sent + [] == n.sent;
    } else if Closing(nb[0], now) {
      var a := nb[0].addr;
      var n1 := LinkBreak(n, a, now, c);
      if a in t {
        NextBreak(n, t, gone, a, now, c);
        NodeViews.LinkBreakView(n, a, now, c);
        StaysSettled(n, a, now, c);
        AnnouncedInTurn(n1, t, gone + {a}, nb[1..], now, c);
        ConcatAssociates(n.sent, n1.sent[|n.sent|..], Announcements(t, gone + {a}, nb[1..], now));
      } else {
        OneBreak(n, a, now, c);
        assert n.sent + [] == n.sent;
        AnnouncedInTurn(n1, t, gone, nb[1..], now, c);
      }
    } else {
      AnnouncedInTurn(n, t, gone, nb[1..], now, c);
    }
  }

  lemma StaysSettled(n: Node, a: Addr, now: int, c: Config)
    requires Settled(n.table, now) && c.Sane()
    ensures Settled(LinkBreak(n, a, now, c).table, now)
  {
    hide LinkBreak, Downstream, Invalidated;
    OneBreak(n, a, now, c);
    NodeViews.InvalidatedView(n.table, Downstream(n.table, {a}), now, c.deletePeriod);
  }

  lemma {:induction false} NothingClosing(t: Table, gone: set<Addr>, nb: seq<Neighbor>, now: int)
    requires forall b :: b in nb ==> !Closing(b, now)
    ensures Announcements(t, gone, nb, now) == []
    decreases |nb|
  {
    if nb != [] {
      assert nb[0] in nb;
      NothingClosing(t, gone, nb[1..], now);
    }
  }

  /** What goes out when the neighbour list is purged, whole: exactly these RERRs in this order, although each
      break has changed the table that the next one finds. */
  lemma AnnouncesExactly(n: Node, now: int, c: Config)
    requires WellFormed(n.table) && c.Sane()
    ensures NbPurge(n, now, c).sent
         == n.sent + Announcements(Purge(n.table, now, c.deletePeriod), {}, n.nb, now)
  {
    hide Purge, BreakLinks, Announcements, Invalidated, Closing;
    var t, bad := Purge(n.table, now, c.deletePeriod), c.deletePeriod;
    if exists b :: b in n.nb && Closing(b, now) {
      PurgedFirst(n, n.nb, now, c);
      PurgeView(n.table, now, bad);
      NothingDown(t, now, bad);
      AnnouncedInTurn(n.(table := t), t, {}, n.nb, now, c);
    } else {
      NodeViews.BreakLinksView(n, n.nb, now, c);
      NothingClosing(t, {}, n.nb, now);
      assert n.sent + [] == n.sent;
    }
  }

  lemma NothingDown(t: Table, now: int, bad: int)
    ensures Invalidated(t, Downstream(t, {}), now, bad) == t
  {
  }

  /** The packet reports the loss of `a`: it lists `a` and everything routed through it, and nothing else. */
  ghost predicate Reports(p: Packet, t: Table, a: Addr)
    requires a in t
  {
    p.msg == Rerr(EMPTY_RERR.(dests := Report(t, a))) && p.ttl == 1
  }

  lemma {:induction false} ReportsOnly(n: Node, nb: seq<Neighbor>, now: int, c: Config, i: nat)
    requires Settled(n.table, now) && c.Sane() && |n.sent| <= i < |BreakLinks(n, nb, now, c).sent|
    ensures exists a :: a in n.table && a in LostHops(n.table, nb, now)
              && Reports(BreakLinks(n, nb, now, c).sent[i], n.table, a)
    decreases |nb|
  {
    hide LinkBreak, LostHops, Report, Invalidated, Closing, Precursors;
    var t, bad := n.table, c.deletePeriod;
    LostHead(t, nb, now);
    if Closing(nb[0], now) {
      var a := nb[0].addr;
      var n1 := LinkBreak(n, a, now, c);
      OneBreak(n, a, now, c);
      if a in t {
        NodeViews.InvalidatedView(t, Downstream(t, {a}), now, bad);
        SameKeys(t, Downstream(t, {a}), now, bad);
        LostSame(t, n1.table, nb[1..], now);
      }
      BreakPrefix(n1, nb[1..], now, c);
      if i < |n1.sent| {
        assert Reports(BreakLinks(n, nb, now, c).sent[i], t, a);
      } else {
        ReportsOnly(n1, nb[1..], now, c, i);
        var b :| b in n1.table && b in LostHops(n1.table, nb[1..], now)
            && Reports(BreakLinks(n1, nb[1..], now, c).sent[i], n1.table, b);
        if a in t {
          InvalidatedSame(t, Downstream(t, {a}), now, bad, b);
        }
        assert Reports(BreakLinks(n, nb, now, c).sent[i], t, b);
      }
    } else {
      ReportsOnly(n, nb[1..], now, c, i);
    }
  }

  /** The log only grows. */
  lemma BreakPrefix(n: Node, nb: seq<Neighbor>, now: int, c: Config)
    requires WellFormed(n.table) && c.Sane()
    ensures n.sent <= BreakLinks(n, nb, now, c).sent
  {
    NodeViews.BreakLinksView(n, nb, now, c);
  }

  /** A lost neighbour that somebody relies on is announced: when a precursor of what it took along has a
      VALID route at the end, and the list fits the header, its report goes out. */
  lemma {:induction false} ReportsAll(n: Node, nb: seq<Neighbor>, now: int, c: Config, a: Addr, p: Addr)
    requires Settled(n.table, now) && c.Sane() && a in n.table && a in LostHops(n.table, nb, now)
    requires 0 < |Report(n.table, a)| < 0x100 && p in Precursors(n.table, Report(n.table, a).Keys)
    requires ValidRoute(BreakLinks(n, nb, now, c).table, p)
    ensures exists i :: |n.sent| <= i < |BreakLinks(n, nb, now, c).sent|
                 && Reports(BreakLinks(n, nb, now, c).sent[i], n.table, a)
    decreases |nb|
  {
    hide LinkBreak, LostHops, Report, Invalidated, Closing, Precursors;
    var t, bad, r := n.table, c.deletePeriod, BreakLinks(n, nb, now, c);
    LostFromSome(t, nb, now, a);
    LostHead(t, nb, now);
    if Closing(nb[0], now) {
      var b := nb[0].addr;
      var n1 := LinkBreak(n, b, now, c);
      OneBreak(n, b, now, c);
      if b in t {
        NodeViews.InvalidatedView(t, Downstream(t, {b}), now, bad);
        SameKeys(t, Downstream(t, {b}), now, bad);
        LostSame(t, n1.table, nb[1..], now);
        InvalidatedSame(t, Downstream(t, {b}), now, bad, a);
      }
      BreakPrefix(n1, nb[1..], now, c);
      if a == b {
        StillValid(n1, nb[1..], now, c, p);
        WasValid(t, Downstream(t, {b}), now, bad, p);
        assert Reports(n1.sent[|n.sent|], t, a);
        assert r.sent[|n.sent|] == n1.sent[|n.sent|];
      } else {
        ReportsAll(n1, nb[1..], now, c, a, p);
        var i :| |n1.sent| <= i < |r.sent| && Reports(r.sent[i], n1.table, a);
        assert Reports(r.sent[i], t, a);
      }
    } else {
      ReportsAll(n, nb[1..], now, c, a, p);
    }
  }

  lemma LostFromSome(t: Table, nb: seq<Neighbor>, now: int, a: Addr)
    requires a in LostHops(t, nb, now)
    ensures nb != []
  {
  }

  /** A route that is VALID after the links have broken was VALID before. */
  lemma StillValid(n: Node, nb: seq<Neighbor>, now: int, c: Config, p: Addr)
    requires Settled(n.table, now) && c.Sane() && ValidRoute(BreakLinks(n, nb, now, c).table, p)
    ensures ValidRoute(n.table, p)
  {
    hide LostHops, Downstream, BreakLinks;
    BreakSettled(n, nb, now, c);
  }

  lemma WasValid(t: Table, a: set<Addr>, now: int, bad: int, p: Addr)
    requires ValidRoute(Invalidated(t, a, now, bad), p)
    ensures ValidRoute(t, p)
  {
  }

  /** Every RERR that a purge of the neighbour list sends reports one lost neighbour, as the purged table has
      it, and nothing else. */
  lemma AnnouncesOnly(n: Node, now: int, c: Config, i: nat)
    requires WellFormed(n.table) && c.Sane() && |n.sent| <= i < |NbPurge(n, now, c).sent|
    ensures var t := Purge(n.table, now, c.deletePeriod);
            exists a :: a in t && a in LostHops(t, n.nb, now) && Reports(NbPurge(n, now, c).sent[i], t, a)
  {
    hide Purge, BreakLinks, LostHops, Report;
    NodeViews.BreakLinksView(n, n.nb, now, c);
    PurgedFirst(n, n.nb, now, c);
    PurgeView(n.table, now, c.deletePeriod);
    ReportsOnly(n.(table := Purge(n.table, now, c.deletePeriod)), n.nb, now, c, i);
  }

  /** And a lost neighbour that somebody relies on is reported: when a precursor of what it took along has a
      VALID route at the end, and the list fits the header. */
  lemma AnnouncesAll(n: Node, now: int, c: Config, a: Addr, p: Addr)
    requires WellFormed(n.table) && c.Sane()
    requires var t := Purge(n.table, now, c.deletePeriod);
             && a in t && a in LostHops(t, n.nb, now)
             && 0 < |Report(t, a)| < 0x100 && p in Precursors(t, Report(t, a).Keys)
    requires ValidRoute(NbPurge(n, now, c).table, p)
    ensures var t, r := Purge(n.table, now, c.deletePeriod), NbPurge(n, now, c);
            exists i :: |n.sent| <= i < |r.sent| && Reports(r.sent[i], t, a)
  {
    hide Purge, BreakLinks, Report, Precursors;
    var m := n.(table := Purge(n.table, now, c.deletePeriod));
    PurgedFirst(n, n.nb, now, c);
    PurgeView(n.table, now, c.deletePeriod);
    ReportsAll(m, n.nb, now, c, a, p);
    var i :| |m.sent| <= i < |BreakLinks(m, n.nb, now, c).sent|
             && Reports(BreakLinks(m, n.nb, now, c).sent[i], m.table, a);
    assert Reports(NbPurge(n, now, c).sent[i], m.table, a);
  }

  // ------------------------------------------------------------------------------- received errors

  /** RecvError takes down exactly the VALID entries that the RERR lists and that lead through its sender. */
  lemma RecvErrorTakesDown(n: Node, m: RerrHeader, src: Addr, now: int, c: Config)
    requires WellFormed(n.table) && c.Sane()
    ensures var t := Purge(n.table, now, c.deletePeriod); var r := RecvError(n, m, src, now, c).table;
            && r.Keys == t.Keys
            && forall k :: k in t ==>
                 r[k] == if t[k].flag == VALID && k in m.dests && t[k].nextHop == src
                         then t[k].(flag := INVALID, reqCount := 0, expire := now + c.deletePeriod) else t[k]
  {
    hide Purge, RerrMessage, Precursors;
    var t := Purge(n.table, now, c.deletePeriod);
    PurgeView(n.table, now, c.deletePeriod);
    PurgeView(t, now, c.deletePeriod);
  }

  /** RecvError reports, with the sequence numbers received, exactly the listed destinations that lead
      through the sender; so never more than it was told. */
  lemma RecvErrorReports(n: Node, m: RerrHeader, src: Addr, now: int, c: Config)
    ensures var t := Purge(n.table, now, c.deletePeriod); var r := RecvError(n, m, src, now, c);
            r.sent == n.sent
            || (|r.sent| == |n.sent| + 1 && n.sent <= r.sent && r.sent[|n.sent|].msg.Rerr?
                && var d := r.sent[|n.sent|].msg.rerr.dests;
                   && (forall k :: k in d <==> k in m.dests && k in t && t[k].nextHop == src)
                   && (forall k :: k in d ==> d[k] == m.dests[k])
                   && |d| <= |m.dests|)
  {
    hide Purge, Precursors, InvalidateRoutesWithDst;
    AffectedFewer(Purge(n.table, now, c.deletePeriod), m, src);
  }

  /** The destinations that a RERR lists and that lead through its sender. */
  function Hit(t: Table, m: RerrHeader, src: Addr): set<Addr> {
    set k | k in m.dests && k in t && t[k].nextHop == src
  }

  /** The RERR cut down to what it hits; its numbers stay as they came. */
  function CutDown(t: Table, m: RerrHeader, src: Addr): RerrHeader {
    m.(dests := map k | k in m.dests && k in t && t[k].nextHop == src :: m.dests[k])
  }

  /** Whether a received RERR is passed on, to whom and with what: what it lists and leads through its sender
      is reported to those who rely on it, if one of them can be reached. */
  lemma RecvErrorAnnounces(n: Node, m: RerrHeader, src: Addr, now: int, c: Config)
    ensures var t, r := Purge(n.table, now, c.deletePeriod), RecvError(n, m, src, now, c);
            r.sent == n.sent + Notice(CutDown(t, m, src), Told(t, Hit(t, m, src)), Up(t))
  {
    hide Purge, InvalidateRoutesWithDst, RerrMessage, Notice, Told, Precursors;
    var t := Purge(n.table, now, c.deletePeriod);
    var lost := Affected(t, m, src);
    assert lost == CutDown(t, m, src).dests && lost.Keys == Hit(t, m, src);
    ToldPrecursors(t, lost.Keys);
    NoticeIs(t, CutDown(t, m, src), Told(t, lost.Keys));
  }

  /** In particular one packet goes out when something is hit, not more than the header can count, and one of
      those who rely on it has a VALID route; it goes to the only one, or to everyone when there are several. */
  lemma RecvErrorPassedOn(n: Node, m: RerrHeader, src: Addr, now: int, c: Config, k: Addr, p: Addr)
    requires var t := Purge(n.table, now, c.deletePeriod);
             && k in m.dests && k in t && t[k].nextHop == src && p in t[k].precursors && ValidRoute(t, p)
    requires |m.dests| < 0x100
    ensures var t, r := Purge(n.table, now, c.deletePeriod), RecvError(n, m, src, now, c);
            r.sent == n.sent + [Packet(Rerr(CutDown(t, m, src)), 1,
                                       if Told(t, Hit(t, m, src)) == {p} then To(p) else Broadcast)]
  {
    hide Purge, RecvError;
    RecvErrorAnnounces(n, m, src, now, c);
    var t := Purge(n.table, now, c.deletePeriod);
    var dests := CutDown(t, m, src).dests;
    assert dests.Keys <= m.dests.Keys;
    SubsetSize(dests.Keys, m.dests.Keys);
    assert |dests| == |dests.Keys| && |m.dests| == |m.dests.Keys| && k in dests.Keys;
    assert p in Told(t, Hit(t, m, src)) * Up(t);
  }

  lemma AffectedFewer(t: Table, m: RerrHeader, src: Addr)
    ensures |Affected(t, m, src)| <= |m.dests|
  {
    var d := Affected(t, m, src);
    assert d.Keys <= m.dests.Keys;
    SubsetSize(d.Keys, m.dests.Keys);
    assert |d| == |d.Keys| && |m.dests| == |m.dests.Keys|;
  }

  lemma {:induction false} SubsetSize(a: set<Addr>, b: set<Addr>)
    requires a <= b
    ensures |a| <= |b|
  {
    assert b == a + (b - a);
  }
}
