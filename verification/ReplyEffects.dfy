/** What replies do, exactly: which route a RREP or a HELLO leaves, whom it is acknowledged and passed on to,
    what that records about precursors and lifetimes, and how a search ends. */
module ReplyEffects {
  import opened Basics
  import opened SequenceNumbers
  import opened Headers
  import opened RouteEntries
  import opened Nodes
  import opened RouteViews
  import HandlerEffects

  /** A route learnt from a RREP: one hop more than it has come, by way of `via`, for the lifetime it carries. */
  function Learnt(m: RrepHeader, hops: U16, via: Addr, now: int): Entry {
    Entry(m.dst, true, m.dstSeqNo, hops, now + m.lifeTime * 1_000_000, via, true, VALID, [], 0, false, now)
  }

  /** The RREP offers something better than the table has: no route, no known number, an older number, or the
      same number on a route that is not VALID or longer. */
  predicate Better(p: Table, m: RrepHeader) {
    || m.dst !in p
    || !p[m.dst].validSeqNo
    || SeqDiff(m.dstSeqNo, p[m.dst].seqNo) > 0
    || (m.dstSeqNo == p[m.dst].seqNo && (p[m.dst].flag != VALID || (m.hopCount + 1) % 0x100 < p[m.dst].hops))
  }

  /** The purged table with the route of the RREP in it, if that is better. */
  function Taken(p: Table, m: RrepHeader, sender: Addr, now: int): Table {
    if Better(p, m) then p[m.dst := Learnt(m, (m.hopCount + 1) % 0x100, sender, now)] else p
  }

  lemma InstallsIff(t: Table, m: RrepHeader, sender: Addr, now: int, c: Config)
    requires c.Sane()
    ensures InstallRoute(t, m, sender, now, c) == Taken(Purge(t, now, c.deletePeriod), m, sender, now)
  {
    hide Purge, SeqDiff;
    PurgedOnce(t, now, c.deletePeriod);
  }

  lemma TakenSettled(t: Table, m: RrepHeader, sender: Addr, now: int, bad: int)
    requires WellFormed(t) && bad >= 0
    ensures var r := Taken(Purge(t, now, bad), m, sender, now); Settled(r, now) && Purge(r, now, bad) == r
  {
    hide SeqDiff;
    PurgeView(t, now, bad);
    PurgeView(Taken(Purge(t, now, bad), m, sender, now), now, bad);
  }

  /** An acknowledgement, to the node that the RREP came from, if and only if the RREP asks for it. */
  function Acknowledged(m: RrepHeader, sender: Addr): seq<Packet> {
    if m.flags & 0x40 == 0x40 then [Packet(RrepAck, 1, To(sender))] else []
  }

  lemma TakenAndAcknowledged(n: Node, m: RrepHeader, sender: Addr, now: int, c: Config)
    requires WellFormed(n.table) && c.Sane()
    ensures TakeReply(n, m, sender, now, c)
         == n.(table := Taken(Purge(n.table, now, c.deletePeriod), m, sender, now),
               sent := n.sent + Acknowledged(m, sender))
  {
    hide Purge, InstallRoute, Taken, Bit;
    InstallsIff(n.table, m, sender, now, c);
    TakenSettled(n.table, m, sender, now, c.deletePeriod);
    FlagPositions(RreqHeader(0, 0, 0, 0, 0, 0, 0, 0), m);
    assert n.sent + [] == n.sent;
  }

  // ------------------------------------------------------------------------------- at the originator

  /** A RREP at the node that asked, exactly: a running search ends, with its timer, in the offered route, whatever
      the numbers say; otherwise the route is taken if it is better. Then the waiting packets go out by the
      route there is. */
  lemma ReplyArrived(n: Node, m: RrepHeader, ttl: U8, sender: Addr, now: int, c: Config)
    requires WellFormed(n.table) && c.Sane() && m.dst != m.origin && m.origin == n.me
    ensures var p, r := Purge(n.table, now, c.deletePeriod), RecvReply(n, m, ttl, sender, now, c);
            var searching := m.dst in p && p[m.dst].flag == IN_SEARCH;
            var t := if searching then p[m.dst := Learnt(m, (m.hopCount + 1) % 0x100, sender, now)]
                     else Taken(p, m, sender, now);
            m.dst in t
            && r == SendPacketFromQueue(n.(table := t, sent := n.sent + Acknowledged(m, sender),
                                           timers := if searching then n.timers - {m.dst} else n.timers),
                                        m.dst, t[m.dst], now)
  {
    hide Purge, TakeReply, SendPacketFromQueue, Acknowledged;
    var p := Purge(n.table, now, c.deletePeriod);
    var searching := m.dst in p && p[m.dst].flag == IN_SEARCH;
    TakenAndAcknowledged(n, m, sender, now, c);
    TakenSettled(n.table, m, sender, now, c.deletePeriod);
    SearchFinished(TakeReply(n, m, sender, now, c), m, searching, sender, now, c);
    assert p[m.dst := Learnt(m, (m.hopCount + 1) % 0x100, sender, now)]
           == Taken(p, m, sender, now)[m.dst := Learnt(m, (m.hopCount + 1) % 0x100, sender, now)];
  }

  lemma SearchFinished(n: Node, m: RrepHeader, searching: bool, sender: Addr, now: int, c: Config)
    requires Settled(n.table, now) && c.Sane() && m.dst in n.table
    ensures var t := if searching then n.table[m.dst := Learnt(m, (m.hopCount + 1) % 0x100, sender, now)] else n.table;
            FinishSearch(n, m, searching, sender, now, c)
            == SendPacketFromQueue(n.(table := t, timers := if searching then n.timers - {m.dst} else n.timers),
                                   m.dst, t[m.dst], now)
  {
    hide Purge, SendPacketFromQueue;
    var t := if searching then n.table[m.dst := Learnt(m, (m.hopCount + 1) % 0x100, sender, now)] else n.table;
    assert Settled(t, now);
    PurgeView(t, now, c.deletePeriod);
  }

  // ------------------------------------------------------------------------------- on the way

  /** A RREP at any other node, exactly: taken and acknowledged as at the originator, then passed on with one hop
      more and without the request for an acknowledgement. */
  lemma ReplyOnTheWay(n: Node, m: RrepHeader, ttl: U8, sender: Addr, now: int, c: Config)
    requires WellFormed(n.table) && c.Sane() && m.dst != m.origin && m.origin != n.me
    ensures var t := Taken(Purge(n.table, now, c.deletePeriod), m, sender, now);
            RecvReply(n, m, ttl, sender, now, c)
            == RelayReply(n.(table := t, sent := n.sent + Acknowledged(m, sender)),
                          m.(hopCount := (m.hopCount + 1) % 0x100, flags := m.flags & 0xBF), ttl, now, c)
  {
    hide Purge, TakeReply, RelayReply, Acknowledged, Taken, WithBit;
    TakenAndAcknowledged(n, m, sender, now, c);
    FlagsSet(RreqHeader(0, 0, 0, 0, 0, 0, 0, 0), m.(hopCount := (m.hopCount + 1) % 0x100), false);
  }

  /** The route to the origin of a RREP is used by it, and so lives on for the route timeout at least. */
  function Used(e: Entry, now: int, c: Config): Entry {
    e.(expire := Max(now + c.activeRouteTimeout, e.expire))
  }

  /** Passing on, exactly. Without a way to the origin nothing happens; nor does it while that way is being searched
      for. Otherwise the way is used, whatever its flag; if there is a VALID route to the destination, the next
      hops towards both ends are recorded with the routes of the other end; and with a TTL of at least two
      the RREP goes to the next hop. */
  lemma ReplyPassedOn(n: Node, m: RrepHeader, ttl: U8, now: int, c: Config)
    requires Settled(n.table, now) && c.Sane() && now >= 0 && m.origin != m.dst && m.origin != UNSET
    ensures var t, r := n.table, RelayReply(n, m, ttl, now, c);
            if m.origin !in t || t[m.origin].flag == IN_SEARCH then r == n
            else
              var t' := t[m.origin := Used(t[m.origin], now, c)];
              && r == n.(table := r.table, sent := r.sent) && r.table.Keys == t.Keys
              && (forall k :: k in t && k != UNSET ==>
                    && r.table[k] == t'[k].(precursors := r.table[k].precursors)
                    && (ValidRoute(t', m.dst) ==>
                          Elements(r.table[k].precursors)
                          == HandlerEffects.Relying(t', m.dst, Used(t[m.origin], now, c), k))
                    && (!ValidRoute(t', m.dst) ==> r.table[k].precursors == t[k].precursors))
              && r.sent == n.sent + (if ttl < 2 then [] else [Packet(Rrep(m), ttl - 1, To(t[m.origin].nextHop))])
  {
    hide Purge, NotePrecursors, Elements, HandlerEffects.Relying;
    var t := n.table;
    PurgeView(t, now, c.deletePeriod);
    assert n.sent + [] == n.sent;
    if m.origin in t && t[m.origin].flag != IN_SEARCH {
      var e := Used(t[m.origin], now, c);
      var t' := t[m.origin := e];
      WayUsed(n, m, ttl, now, c);
      assert Settled(t', now);
      if ValidRoute(t', m.dst) {
        HandlerEffects.PrecursorsNoted(t', m.dst, e, now, c);
      } else {
        NothingNoted(t', m.dst, e, now, c);
      }
    }
  }

  lemma WayUsed(n: Node, m: RrepHeader, ttl: U8, now: int, c: Config)
    requires Settled(n.table, now) && c.Sane() && m.origin in n.table && n.table[m.origin].flag != IN_SEARCH
    ensures var e := Used(n.table[m.origin], now, c);
            RelayReply(n, m, ttl, now, c)
            == n.(table := NotePrecursors(n.table[m.origin := e], m.dst, e, now, c),
                  sent := n.sent + (if ttl < 2 then [] else [Packet(Rrep(m), ttl - 1, To(e.nextHop))]))
  {
    hide Purge, NotePrecursors;
    PurgeView(n.table, now, c.deletePeriod);
    assert n.sent + [] == n.sent;
  }

  lemma NothingNoted(t: Table, dst: Addr, toOrigin: Entry, now: int, c: Config)
    requires Settled(t, now) && c.Sane() && !ValidRoute(t, dst)
    ensures NotePrecursors(t, dst, toOrigin, now, c) == t
  {
    hide Purge;
    PurgeView(t, now, c.deletePeriod);
  }

  // ------------------------------------------------------------------------------- HELLO

  /** The entry that a HELLO leaves: a new one lives as long as the HELLO says, a known one at least for the
      lifetime of a HELLO at this node. */
  function Greeted(p: Table, m: RrepHeader, now: int, c: Config): Entry {
    if m.dst !in p then Learnt(m, 1, m.dst, now)
    else p[m.dst].(validSeqNo := true, seqNo := m.dstSeqNo, hops := 1, nextHop := m.dst, bound := true, flag := VALID,
                   expire := Max(now + c.helloLifetime, p[m.dst].expire), reqCount := 0)
  }

  /** A HELLO, exactly: the entry of its sender, and where HELLOs are on, the neighbour list. */
  lemma HelloTakes(n: Node, m: RrepHeader, ttl: U8, sender: Addr, now: int, c: Config)
    requires WellFormed(n.table) && c.Sane() && m.dst == m.origin
    ensures var p := Purge(n.table, now, c.deletePeriod);
            var r := n.(table := p[m.dst := Greeted(p, m, now, c)]);
            RecvReply(n, m, ttl, sender, now, c)
            == if c.enableHello then NbUpdate(r, m.dst, c.helloLifetime, now, c) else r
  {
    hide NbUpdate, Purge;
    PurgeView(n.table, now, c.deletePeriod);
    PurgedOnce(n.table, now, c.deletePeriod);
  }

  /** The HELLO of a node carries its own number and the lifetime of a HELLO, one hop far. */
  lemma HelloSays(n: Node, c: Config)
    ensures SendHello(n, c)
         == n.(sent := n.sent + [Packet(Rrep(RrepHeader(0, 0, 0, n.me, n.seqNo, n.me, Millis(c.helloLifetime))), 1,
                                        Broadcast)])
  {
  }
}
