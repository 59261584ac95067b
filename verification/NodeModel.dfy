/** What one node does with packets and time, as functions of its state: the forwarding of arriving
    packets, the deferral of those it cannot forward, and the periodic attempt to send the deferred. */
module NodeModel {
  import opened Types
  import opened Geometry
  import opened Neighbors
  import opened Packets
  import opened Routing
  import opened PositionTable
  import opened RequestQueue

  /** What is fixed for a node. */
  datatype Config = Config(lifeTime: Time, graph: U8, maxLen: nat, timeout: Time,
                           address: Addr, own: set<Addr>, local: set<Addr>)

  /** What the location service says of a destination. */
  datatype Place = Place(inSearch: bool, hasPosition: bool, fix: Fix)

  /** The node's surroundings when it acts. */
  datatype Moment = Moment(now: Time, here: Point, places: Addr -> Place)

  /** What finally happened to a packet at this node. */
  datatype Event =
    | Forwarded(gateway: Addr, header: IpHeader, packet: Packet)     // unicast forward callback
    | Delivered(header: IpHeader, uid: nat, payload: seq<U8>)        // local deliver callback
    | Reported(entry: QueueEntry)                                    // error callback of a queued packet
    | Duplicate(header: IpHeader, packet: Packet)                    // refused by the queue, silently
    | Stranded(header: IpHeader, packet: Packet)                     // dequeued into recovery, no neighbour
    | Discarded(header: IpHeader, packet: Packet)                    // dequeued, unknown type
    | Refused(header: IpHeader, packet: Packet)                      // not handled: the caller is told so

  datatype State = State(table: Table, queue: seq<QueueEntry>, addrs: seq<Addr>, timer: Option<Time>,
                         log: seq<Event>)

  /** The check timer is set half a second ahead; if it is armed, the state says for when. */
  const CHECK_DELAY: Time := 500_000_000

  /** The placeholder source address of packets that have not got one yet. */
  const NO_SOURCE: Addr := 0x66_66_66_66

  function LivePositions(c: Config, table: Table, now: Time): map<Addr, Point> {
    Positions(Live(table, c.lifeTime, now))
  }

  function Reports(entries: seq<QueueEntry>): seq<Event> {
    seq(|entries|, i requires 0 <= i < |entries| => Reported(entries[i]))
  }

  /** std::list::unique: of adjacent equal elements the first stays. */
  function Unique(s: seq<Addr>): seq<Addr> {
    if |s| <= 1 then s
    else
      var rest := Unique(s[..|s| - 1]);
      if s[|s| - 1] == s[|s| - 2] then rest else rest + [s[|s| - 1]]
  }

  /** DeferredRouteOutput. */
  function Deferred(c: Config, st: State, now: Time, packet: Packet, header: IpHeader): State
    requires c.maxLen > 0
  {
    var live := Fresh(st.queue, now);
    var r := Enqueued(live, c.maxLen, c.timeout, now, QueueEntry(packet, header, now + now));
    State(st.table, r.queue, Unique([header.dst] + st.addrs),
          if live == [] then Some(now + CHECK_DELAY) else st.timer,
          st.log + Reports(Stale(st.queue, now)) + Reports(r.errors)
          + if r.result then [] else [Duplicate(header, packet)])
  }

  /** The table after BestAngle. */
  function AfterBestAngle(c: Config, table: Table, now: Time): Table {
    if c.graph <= GRAPH_RNG then Live(table, c.lifeTime, now) else table
  }

  /** Carry out a forwarding decision: hand the packet to the unicast callback, or defer it. */
  function Acted(c: Config, st: State, now: Time, packet: Packet, header: IpHeader, payload: seq<U8>,
                 d: Decision): State
    requires c.maxLen > 0
  {
    match d
    case Transmit(nextHop, onward) =>
      st.(log := st.log + [Forwarded(nextHop, header, packet.(bytes := Frame(onward, payload)))])
    case Defer(onward) =>
      Deferred(c, st, now, packet.(bytes := Frame(onward, payload)), header)
  }

  /** Forwarding: whether the packet was handled, and the new state. */
  ghost function ForwardedOn(c: Config, st: State, m: Moment, packet: Packet, header: IpHeader): (State, bool)
    requires c.maxLen > 0
  {
    var purged := st.(table := Live(st.table, c.lifeTime, m.now));
    match Parse(packet.bytes)
    case UnknownType => (purged.(log := st.log + [Refused(header, packet)]), false)
    case Data(hdr, payload) =>
      var d := Forward(c.graph, Positions(purged.table), m.here, header.dst, hdr, m.places(header.dst).fix);
      (Acted(c, purged, m.now, packet, header, payload, d), true)
  }

  /** RouteInput. */
  ghost function Received(c: Config, st: State, m: Moment, packet: Packet, header: IpHeader): (State, bool)
    requires c.maxLen > 0
  {
    if c.own == {} then (st.(log := st.log + [Refused(header, packet)]), false)
    else if packet.tagged && header.src in c.own then
      (Deferred(c, st, m.now, packet.(tagged := false), header), true)
    else if header.dst in c.local then
      match Parse(packet.bytes)
      case UnknownType => (st.(log := st.log + [Refused(header, packet)]), false)
      case Data(_, payload) => (st.(log := st.log + [Delivered(header, packet.uid, payload)]), true)
    else ForwardedOn(c, st, m, packet, header)
  }

  // ---------- sending deferred packets ----------

  /** What becomes of a dequeued packet when a greedy next hop is known. */
  function SentGreedily(address: Addr, m: Moment, nextHop: Addr, e: QueueEntry): Event {
    match Parse(e.packet.bytes)
    case UnknownType => Discarded(e.header, e.packet)
    case Data(hdr, payload) =>
      var newest := Newest(hdr, m.places(e.header.dst).fix);
      var onward := PositionHeader(newest.pos, newest.updated, m.here, 0, m.here);
      var header := if e.header.src == NO_SOURCE then e.header.(src := address) else e.header;
      Forwarded(nextHop, header, e.packet.(bytes := Frame(onward, payload)))
  }

  /** What becomes of it when there is none: recovery starts over, and a packet for which recovery
      finds no neighbour either is lost without a callback. */
  ghost function SentInRecovery(graph: U8, m: Moment, view: map<Addr, Point>, e: QueueEntry): Event {
    match Parse(e.packet.bytes)
    case UnknownType => Discarded(e.header, e.packet)
    case Data(hdr, payload) =>
      match Recover(graph, view, m.here, PositionHeader(hdr.dst, hdr.updated, m.here, 1, hdr.dst))
      case Transmit(nextHop, onward) => Forwarded(nextHop, e.header, e.packet.(bytes := Frame(onward, payload)))
      case Defer(onward) => Stranded(e.header, e.packet.(bytes := Frame(onward, payload)))
  }

  datatype Pumped = Pumped(queue: seq<QueueEntry>, events: seq<Event>, done: bool)

  /** The loop while (Dequeue(dst)): each packet is dealt with in turn; one of unknown type is thrown
      away and stops the loop. */
  function Pump(q: seq<QueueEntry>, now: Time, dst: Addr, deal: QueueEntry -> Event): Pumped
    decreases |Fresh(q, now)|, |q|
  {
    var r := Dequeued(q, now, dst);
    SelectMembers(q, InTime(now));
    if r.result.None? then Pumped(r.queue, Reports(r.errors), true)
    else
      var e := r.result.value;
      if !IsData(e.packet.bytes) then Pumped(r.queue, Reports(r.errors) + [deal(e)], false)
      else
        DequeueShrinks(q, now, dst);
        var rest := Pump(r.queue, now, dst, deal);
        Pumped(rest.queue, Reports(r.errors) + [deal(e)] + rest.events, rest.done)
  }

  /** How the packets for dst are dealt with, and what consulting the table leaves of it. */
  ghost function Dealing(c: Config, table: Table, m: Moment, dst: Addr): QueueEntry -> Event {
    if dst in table then (e: QueueEntry) => SentGreedily(c.address, m, dst, e)
    else
      var view := LivePositions(c, table, m.now);
      var nextHop := BestNeighborOf(Listed(view), m.places(dst).fix.pos, m.here);
      if nextHop == NO_ADDR then (e: QueueEntry) => SentInRecovery(c.graph, m, view, e)
      else (e: QueueEntry) => SentGreedily(c.address, m, nextHop, e)
  }

  /** SendPacketFromQueue: whether dst is done with, and the new state. An entry of the table counts
      for a direct hop even if it has expired. */
  ghost function SentFromQueue(c: Config, st: State, m: Moment, dst: Addr): (State, bool) {
    var place := m.places(dst);
    if place.inSearch then (st, false)
    else if !place.hasPosition then
      var r := DroppedToward(st.queue, m.now, dst);
      (st.(queue := r.queue, log := st.log + Reports(r.errors)), true)
    else
      var p := Pump(st.queue, m.now, dst, Dealing(c, st.table, m, dst));
      (st.(table := if dst in st.table then st.table else Live(st.table, c.lifeTime, m.now),
           queue := p.queue, log := st.log + p.events),
       p.done)
  }

  /** The first loop of CheckQueue, over the first k listed addresses: the state and the addresses
      to remove. */
  ghost function CheckedUpTo(c: Config, st: State, m: Moment, k: nat): (State, seq<Addr>)
    requires k <= |st.addrs|
  {
    if k == 0 then (st, [])
    else
      var (before, toRemove) := CheckedUpTo(c, st, m, k - 1);
      var (after, done) := SentFromQueue(c, before, m, st.addrs[k - 1]);
      (after, if done then [st.addrs[k - 1]] + toRemove else toRemove)
  }

  /** std::list::remove: every occurrence goes. */
  function Remove(s: seq<Addr>, a: Addr): seq<Addr> {
    if s == [] then []
    else
      var rest := Remove(s[..|s| - 1], a);
      if s[|s| - 1] == a then rest else rest + [s[|s| - 1]]
  }

  function RemoveAll(s: seq<Addr>, gone: seq<Addr>): seq<Addr> {
    if gone == [] then s else Remove(RemoveAll(s, gone[..|gone| - 1]), gone[|gone| - 1])
  }

  /** CheckQueue: the timer is set again only if addresses are left. */
  ghost function Checked(c: Config, st: State, m: Moment): State {
    var (swept, toRemove) := CheckedUpTo(c, st, m, |st.addrs|);
    var addrs := RemoveAll(st.addrs, toRemove);
    swept.(addrs := addrs, timer := if addrs != [] then Some(m.now + CHECK_DELAY) else None)
  }

  // ---------- new packets ----------

  /** AddHeaders keeps the destination's coordinates in 16-bit variables for a moment. What a conversion
      yields is only fixed where the value fits. */
  ghost predicate IsNarrowing(narrow: U64 -> U16) {
    forall v: U64 :: v < 0x1_0000 ==> narrow(v) == v
  }

  function FirstHeader(narrow: U64 -> U16, m: Moment, dst: Addr, broadcast: Addr): PositionHeader {
    var fix := m.places(dst).fix;
    if dst == broadcast then PositionHeader(ORIGIN, 0, ORIGIN, 0, m.here)
    else PositionHeader(Point(narrow(fix.pos.x), narrow(fix.pos.y)), fix.updated, ORIGIN, 0, m.here)
  }

  /** Whatever the conversion makes of larger values, the header of a new packet names the position that the
      location service knows exactly when both of its coordinates fit in 16 bits. */
  lemma FirstHeaderIsExactIff(narrow: U64 -> U16, m: Moment, dst: Addr, broadcast: Addr)
    requires IsNarrowing(narrow) && dst != broadcast
    ensures FirstHeader(narrow, m, dst, broadcast).dst == m.places(dst).fix.pos <==>
              m.places(dst).fix.pos.x < 0x1_0000 && m.places(dst).fix.pos.y < 0x1_0000
  {
    var p := m.places(dst).fix.pos;
    var x, y := narrow(p.x), narrow(p.y);
    assert x < 0x1_0000 && y < 0x1_0000;
  }

  // ---------- everything a node can be made to do ----------

  datatype Action =
    | Receive(packet: Packet, header: IpHeader)
    | TimerFires
    | Hear(sender: Addr, pos: Point)
    | Originate(dst: Addr)

  /** AddHeaders consults the table, which may purge it; RecvGPSR adds to it; the timer fires only
      while it is armed, and not before its time. */
  ghost function Step(c: Config, st: State, m: Moment, a: Action): State
    requires c.maxLen > 0
  {
    match a
    case Receive(packet, header) => Received(c, st, m, packet, header).0
    case TimerFires => if st.timer.Some? && st.timer.value <= m.now then Checked(c, st, m) else st
    case Hear(sender, pos) => st.(table := st.table[sender := Entry(pos, m.now)])
    case Originate(dst) => if dst in st.table then st else st.(table := Live(st.table, c.lifeTime, m.now))
  }

  const INITIAL: State := State(map[], [], [], None, [])
}
