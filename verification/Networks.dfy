/** A network of nodes. Everything a node has ever sent stays in the air: a message may be delivered to its
    addressee, and a broadcast to anyone, any number of times, late, out of order, or never. */
module Networks {
  import opened Basics
  import opened Headers
  import opened RouteEntries
  import opened Nodes

  type Net = map<Addr, Node>

  datatype Action = Action(node: Addr, event: Event, now: int)

  /** No message names the unset address. */
  predicate Proper(m: Message) {
    match m
    case Rreq(h) => h.origin != UNSET && h.dst != UNSET
    case Rrep(h) => h.origin != UNSET && h.dst != UNSET
    case _ => true
  }

  /** A received packet was sent by its sender, and to this node or to everyone. */
  ghost predicate Authentic(s: Net, x: Addr, ev: Event) {
    ev.Receive? ==>
      && ev.sender in s && ev.sender != x && ev.packet in s[ev.sender].sent && Proper(ev.packet.msg)
      && (ev.packet.target == Broadcast || ev.packet.target == To(x))
  }

  ghost predicate CanStep(s: Net, a: Action) {
    a.node in s && a.now >= 0 && Enabled(s[a.node], a.event) && Authentic(s, a.node, a.event)
  }

  function StepTo(s: Net, a: Action, c: Config): Net
    requires a.node in s
  {
    s[a.node := Handle(s[a.node], a.event, a.now, c)]
  }

  /** Nodes sit under their own address and have well-formed tables. */
  ghost predicate Sound(s: Net) {
    forall x :: x in s ==> x != UNSET && s[x].me == x && WellFormed(s[x].table)
  }

  // ------------------------------------------------------------------------------- runs

  ghost predicate CanRun(s: Net, acts: seq<Action>, c: Config)
    decreases |acts|
  {
    acts == [] || (CanStep(s, acts[0]) && CanRun(StepTo(s, acts[0], c), acts[1..], c))
  }

  ghost function Final(s: Net, acts: seq<Action>, c: Config): Net
    decreases |acts|
  {
    if acts == [] || acts[0].node !in s then s else Final(StepTo(s, acts[0], c), acts[1..], c)
  }

  /** Nobody knows a route and nothing is on the air. */
  ghost predicate Initial(s: Net) {
    && (forall x :: x in s ==> x != UNSET && s[x].me == x && s[x].table == map[] && s[x].sent == [])
  }

  /** The next hop of every node that has a route to `d`, up or down; an open search is not a route. */
  function NextHops(s: Net, d: Addr): map<Addr, Addr> {
    map x | x in s && x != d && d in s[x].table && s[x].table[d].flag != IN_SEARCH :: s[x].table[d].nextHop
  }
}
