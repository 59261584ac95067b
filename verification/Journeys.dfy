/** The steps of the nodes are the hops of the network runs; and the bytes of a packet on the way. */
module Journeys {
  import opened Types
  import opened Geometry
  import opened Neighbors
  import opened Packets
  import opened Routing
  import opened PositionTable
  import opened RequestQueue
  import opened NodeModel
  import opened UnitDisc
  import opened Cycles
  import opened Veils
  import opened FaceWalk
  import opened Runs
  import opened Fates
  import opened Delivery

  /** The node at a of the scene: its live entries are its unit-disc neighbours, it is where the network
      says, its location service agrees with the scene's, and it is not the destination. */
  ghost predicate NodeOfScene(sc: Scene, a: Addr, c: Config, st: State, m: Moment) {
    && a in sc.net.pos && c.graph == sc.graph && c.maxLen > 0
    && LivePositions(c, st.table, m.now) == View(sc.net, a)
    && m.here == sc.net.pos[a] && m.places(sc.dst).fix == sc.fix
    && c.own != {} && sc.dst !in c.local
  }

  /** The node's RouteInput makes the scene's hop: one packet to the unicast callback, towards the next
      holder, in the next holder's frame, and nothing else but expired table entries changes. */
  lemma NodeMakesSceneHop(sc: Scene, s: Hop, c: Config, st: State, m: Moment, packet: Packet, header: IpHeader,
                          payload: seq<U8>)
    requires NodeOfScene(sc, s.at, c, st, m) && s.at != sc.dst && Decide(sc, s).Transmit?
    requires header.dst == sc.dst && packet.bytes == Frame(s.hdr, payload) && !packet.tagged
    ensures var t := Advance(sc, s);
            Received(c, st, m, packet, header)
            == (st.(table := Live(st.table, c.lifeTime, m.now),
                    log := st.log + [Forwarded(t.at, header, packet.(bytes := Frame(t.hdr, payload)))]), true)
  {
    FrameRoundTrip(s.hdr, payload);
    DecideIsRuling(sc, s);
  }

  /** A new packet's header starts a run in agreement exactly when the destination's coordinates fit 16
      bits; otherwise no node on the way corrects it, its update time being the latest there is. */
  lemma NewPacketAgreesIff(narrow: U64 -> U16, sc: Scene, D: Point, a: Addr, m: Moment, broadcast: Addr)
    requires IsNarrowing(narrow) && sc.dst != broadcast && m.places(sc.dst).fix == sc.fix && sc.fix.pos == D
    ensures var first := FirstHeader(narrow, m, sc.dst, broadcast);
            && (Agreed(sc, D, Hop(a, first)) <==> D.x < 0x1_0000 && D.y < 0x1_0000)
            && Newest(first, sc.fix) == Fix(first.dst, sc.fix.updated)
  {
    FirstHeaderIsExactIff(narrow, m, sc.dst, broadcast);
  }

  /** At the destination the headers come off. */
  lemma DestinationStripsHeaders(c: Config, st: State, m: Moment, packet: Packet, header: IpHeader, hdr: PositionHeader,
                                 payload: seq<U8>)
    requires c.maxLen > 0 && c.own != {} && header.dst in c.local
    requires packet.bytes == Frame(hdr, payload) && !packet.tagged
    ensures Received(c, st, m, packet, header) == (st.(log := st.log + [Delivered(header, packet.uid, payload)]), true)
  {
    FrameRoundTrip(hdr, payload);
  }

  // ---------- on the wire ----------

  datatype Flight = Flight(at: Addr, bytes: seq<U8>)

  /** A hop as the bytes see it: take the headers off, decide, put new headers on. */
  ghost function WireHop(sc: Scene, f: Flight): Flight {
    match Parse(f.bytes)
    case UnknownType => f
    case Data(hdr, payload) =>
      var t := Advance(sc, Hop(f.at, hdr));
      Flight(t.at, Frame(t.hdr, payload))
  }

  ghost function WireHops(sc: Scene): Flight -> Flight {
    f => WireHop(sc, f)
  }

  ghost function WireAfter(sc: Scene, f: Flight, k: nat): Flight {
    Iterate(WireHops(sc), f, k)
  }

  /** The hop s as it is on the wire. */
  function OnWire(s: Hop, payload: seq<U8>): Flight {
    Flight(s.at, Frame(s.hdr, payload))
  }

  lemma WireHopKeepsPayload(sc: Scene, s: Hop, payload: seq<U8>)
    ensures WireHop(sc, OnWire(s, payload)) == OnWire(Advance(sc, s), payload)
  {
    FrameRoundTrip(s.hdr, payload);
  }

  ghost function WireStates(sc: Scene, s: Hop, payload: seq<U8>): nat -> Flight {
    Veiled<nat, Flight>((k: nat) => OnWire(After(sc, s, k), payload))
  }

  lemma WireState(sc: Scene, s: Hop, payload: seq<U8>, k: nat)
    ensures WireStates(sc, s, payload)(k) == OnWire(After(sc, s, k), payload)
  {
    LookUp<nat, Flight>((j: nat) => OnWire(After(sc, s, j), payload), k);
  }

  lemma WireStatesLeadOn(sc: Scene, s: Hop, payload: seq<U8>, k: nat)
    ensures LeadsOn(WireHops(sc), WireStates(sc, s, payload), k)
  {
    WireState(sc, s, payload, k);
    WireState(sc, s, payload, k + 1);
    NextAfter(sc, s, k);
    WireHopKeepsPayload(sc, After(sc, s, k), payload);
  }

  /** However many hops a packet makes, through greedy stretches and recovery episodes, its bytes are
      one type byte and one position header in front of the payload it started with. */
  lemma WireKeepsPayload(sc: Scene, s: Hop, payload: seq<U8>, k: nat)
    ensures WireAfter(sc, OnWire(s, payload), k) == OnWire(After(sc, s, k), payload)
  {
    forall j | 0 <= j < k
      ensures LeadsOn(WireHops(sc), WireStates(sc, s, payload), j)
    {
      WireStatesLeadOn(sc, s, payload, j);
    }
    IterateFollows(WireHops(sc), WireStates(sc, s, payload), k);
    WireState(sc, s, payload, 0);
    WireState(sc, s, payload, k);
    NextAfter(sc, s, 0);
  }

  /** End to end: a packet with a payload leaves some node greedily. Within n laps it is at its
      destination, where the application gets exactly that payload, or it circulates for ever. */
  lemma DeliveredIntactOrTrapped(sc: Scene, D: Point, s: Hop, payload: seq<U8>, uid: nat, header: IpHeader,
                                 c: Config, st: State, m: Moment)
    returns (k: nat)
    requires Good(sc, D, s) && s.hdr.inRec == 0
    requires header.dst == sc.dst && c.maxLen > 0 && c.own != {} && sc.dst in c.local
    ensures k <= |sc.net.pos| * (|Edges(sc.net)| + 1)
    ensures var f := WireAfter(sc, OnWire(s, payload), k);
            || (&& f.at == sc.dst
                && Received(c, st, m, Packet(uid, f.bytes, false), header).0.log
                   == st.log + [Delivered(header, uid, payload)])
            || Circulates(sc, After(sc, s, k))
  {
    k := DeliveredOrTrapped(sc, D, s);
    WireKeepsPayload(sc, s, payload, k);
    var f := WireAfter(sc, OnWire(s, payload), k);
    DestinationStripsHeaders(c, st, m, Packet(uid, f.bytes, false), header, After(sc, s, k).hdr, payload);
  }

  /** End to end: if the destination can be reached, its application gets the
      payload unchanged, within n laps. */
  lemma ReachableIsDeliveredIntact(sc: Scene, D: Point, s: Hop, payload: seq<U8>, uid: nat, header: IpHeader,
                                   c: Config, st: State, m: Moment)
    returns (k: nat)
    requires Valid(sc.net) && sc.graph == GRAPH_GABRIEL && Located(sc, D)
    requires s.at in sc.net.pos && Agreed(sc, D, s) && s.hdr.inRec == 0 && Reachable(sc.net, s.at, sc.dst)
    requires header.dst == sc.dst && c.maxLen > 0 && c.own != {} && sc.dst in c.local
    ensures k <= |sc.net.pos| * (|Edges(sc.net)| + 1)
    ensures var f := WireAfter(sc, OnWire(s, payload), k);
            && f.at == sc.dst
            && Received(c, st, m, Packet(uid, f.bytes, false), header).0.log
               == st.log + [Delivered(header, uid, payload)]
  {
    k := DeliveredIffReachable(sc, D, s);
    WireKeepsPayload(sc, s, payload, k);
    var f := WireAfter(sc, OnWire(s, payload), k);
    DestinationStripsHeaders(c, st, m, Packet(uid, f.bytes, false), header, After(sc, s, k).hdr, payload);
  }
}
