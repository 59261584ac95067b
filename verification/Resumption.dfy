/** Packets that had to wait: when sending one from the queue resumes its journey as if forwarded afresh,
    and when it does not. */
module Resumption {
  import opened Types
  import opened Geometry
  import opened Neighbors
  import opened Packets
  import opened Routing
  import opened PositionTable
  import opened RequestQueue
  import opened NodeModel
  import opened NodeRuns
  import opened NodeDrain
  import opened Dispatch
  import opened UnitDisc
  import opened Cycles
  import opened FaceWalk
  import opened Runs
  import opened Fates
  import opened Delivery

  /** What Forwarding would decide about the packet now, were it not in recovery. */
  ghost function DecidedAfresh(c: Config, table: Table, m: Moment, e: QueueEntry): Decision
    requires IsData(e.packet.bytes)
  {
    var hdr := Parse(e.packet.bytes).hdr;
    Forward(c.graph, LivePositions(c, table, m.now), m.here, e.header.dst, hdr.(inRec := 0), m.places(e.header.dst).fix)
  }

  /** Sending from the queue aims at the location service's position, and recovery from there at the header's;
      Forwarding aims at the newer of the two. This is where they aim at the same. */
  ghost predicate TargetsAgree(c: Config, table: Table, m: Moment, e: QueueEntry)
    requires IsData(e.packet.bytes)
  {
    var view, hdr, fix := LivePositions(c, table, m.now), Parse(e.packet.bytes).hdr, m.places(e.header.dst).fix;
    || e.header.dst in view
    || (&& Newest(hdr, fix).pos == fix.pos
        && (hdr.dst == fix.pos || BestNeighborOf(Listed(view), fix.pos, m.here) != NO_ADDR))
  }

  ghost predicate StaleTarget(c: Config, table: Table, m: Moment, e: QueueEntry) {
    e.header.dst in table && e.header.dst !in LivePositions(c, table, m.now)
  }

  /** What a greedily sent packet carries that a greedily forwarded one does not: this node as recovery
      position, which nobody looks at while the packet is not in recovery. */
  ghost function FromQueue(here: Point, onward: PositionHeader): PositionHeader {
    if onward.inRec == 0 then onward.(rec := here) else onward
  }

  /** A sent packet that has no source address yet is given one if it goes greedily. */
  ghost function Sourced(c: Config, header: IpHeader, onward: PositionHeader): IpHeader {
    if onward.inRec == 0 && header.src == NO_SOURCE then header.(src := c.address) else header
  }

  /** Dealing with a queued packet is forwarding it afresh. */
  lemma SendingIsForwarding(c: Config, table: Table, m: Moment, e: QueueEntry)
    requires IsData(e.packet.bytes) && TargetsAgree(c, table, m, e) && !StaleTarget(c, table, m, e)
    requires NO_ADDR !in LivePositions(c, table, m.now)
    ensures var payload := Parse(e.packet.bytes).payload;
            Dealing(c, table, m, e.header.dst)(e)
            == match DecidedAfresh(c, table, m, e)
               case Transmit(nextHop, onward) =>
                 Forwarded(nextHop, Sourced(c, e.header, onward),
                           e.packet.(bytes := Frame(FromQueue(m.here, onward), payload)))
               case Defer(onward) =>
                 Stranded(e.header, e.packet.(bytes := Frame(onward, payload)))
  {
  }

  /** The next hop is the one that forwarding would choose exactly when the table does not hold an expired
      entry of the destination: such an entry is sent to directly. */
  lemma SameNextHopIff(c: Config, table: Table, m: Moment, e: QueueEntry)
    requires IsData(e.packet.bytes) && TargetsAgree(c, table, m, e) && NO_ADDR !in LivePositions(c, table, m.now)
    requires DecidedAfresh(c, table, m, e).Transmit?
    ensures var dealt := Dealing(c, table, m, e.header.dst)(e);
            && dealt.Forwarded?
            && (dealt.gateway == DecidedAfresh(c, table, m, e).nextHop <==> !StaleTarget(c, table, m, e))
  {
    if StaleTarget(c, table, m, e) {
      var hdr := Parse(e.packet.bytes).hdr;
      TransmitCases(c.graph, LivePositions(c, table, m.now), m.here, e.header.dst, hdr.(inRec := 0),
                    m.places(e.header.dst).fix);
    } else {
      SendingIsForwarding(c, table, m, e);
    }
  }

  /** Three places from left to right. */
  ghost predicate InARow(here: Point, half: Point, goal: Point) {
    here.y == half.y == goal.y && here.x < half.x < goal.x
  }

  /** Such a state: the destination 7 has been silent for longer than entries live, and neighbour 9 is on the
      way to it. Forwarding would go to 9; the packet from the queue goes to 7. */
  lemma StaleEntryMisleads(c: Config, table: Table, m: Moment, e: QueueEntry, half: Point, goal: Point)
    requires InARow(m.here, half, goal)
    requires c.lifeTime == 10 && m.now == 20 && table == map[7 := Entry(half, 0), 9 := Entry(half, 15)]
    requires e.header.dst == 7 && m.places(7).fix.pos == goal
    requires IsData(e.packet.bytes) && Parse(e.packet.bytes).hdr.dst == goal
    ensures StaleTarget(c, table, m, e) && TargetsAgree(c, table, m, e)
    ensures DecidedAfresh(c, table, m, e).Transmit? && DecidedAfresh(c, table, m, e).nextHop == 9
    ensures Dealing(c, table, m, 7)(e).Forwarded? && Dealing(c, table, m, 7)(e).gateway == 7
  {
    HalfwayIsCloser(m.here, half, goal);
    StaleEntryWins(c, table, m, e, 9, half);
  }

  lemma HalfwayIsCloser(here: Point, half: Point, goal: Point)
    requires InARow(here, half, goal)
    ensures Dist2(half, goal) < Dist2(here, goal)
  {
    DistanceAlong(half, goal);
    DistanceAlong(here, goal);
    SmallerSquare(goal.x - half.x, goal.x - here.x);
  }

  lemma DistanceAlong(p: Point, q: Point)
    requires p.y == q.y
    ensures Dist2(p, q) == (q.x - p.x) * (q.x - p.x)
  {
    DotIs(Between(p, q), Between(p, q));
  }

  /** A stale entry of the destination beats a live neighbour that Forwarding would go to. */
  lemma StaleEntryWins(c: Config, table: Table, m: Moment, e: QueueEntry, a: Addr, p: Point)
    requires IsData(e.packet.bytes) && Parse(e.packet.bytes).hdr.dst == m.places(e.header.dst).fix.pos
    requires LivePositions(c, table, m.now) == map[a := p] && a != NO_ADDR
    requires e.header.dst in table && e.header.dst != a
    requires Dist2(p, m.places(e.header.dst).fix.pos) < Dist2(m.here, m.places(e.header.dst).fix.pos)
    ensures StaleTarget(c, table, m, e) && TargetsAgree(c, table, m, e)
    ensures DecidedAfresh(c, table, m, e).Transmit? && DecidedAfresh(c, table, m, e).nextHop == a
    ensures Dealing(c, table, m, e.header.dst)(e).Forwarded?
    ensures Dealing(c, table, m, e.header.dst)(e).gateway == e.header.dst
  {
    var view := LivePositions(c, table, m.now);
    assert a in view;
    BestNeighborIsArgmin(view, m.places(e.header.dst).fix.pos, m.here);
  }

  /** With the Gabriel graph, a packet is lost exactly when its destination is not in the table and every live
      neighbour is at this very place. */
  lemma LostOnGabrielIff(c: Config, table: Table, m: Moment, dst: Addr)
    requires c.graph == GRAPH_GABRIEL
    ensures var view := LivePositions(c, table, m.now);
            Lost(c, table, m, dst) <==> dst !in table && forall a :: a in view ==> view[a] == m.here
  {
    var view := LivePositions(c, table, m.now);
    GabrielEmptyIffCoLocated(Listed(view), m.here);
    if forall a :: a in view ==> view[a] == m.here {
      forall nb | nb in Listed(view)
        ensures nb.pos == m.here
      {
      }
    } else {
      var a :| a in view && view[a] != m.here;
      assert Neighbor(a, view[a]) in Listed(view);
    }
  }

  // ---------- the rest of the journey ----------

  /** Outside recovery the recovery position does not matter. */
  lemma RecIsIgnored(sc: Scene, s: Hop, rec: Point)
    requires s.at in sc.net.pos && s.hdr.inRec == 0
    ensures Decide(sc, s.(hdr := s.hdr.(rec := rec))) == Decide(sc, s)
  {
    DecideIsRuling(sc, s);
    DecideIsRuling(sc, s.(hdr := s.hdr.(rec := rec)));
  }

  lemma {:induction false} SamePlaces(sc: Scene, s: Hop, rec: Point, k: nat)
    requires s.at in sc.net.pos && s.hdr.inRec == 0
    ensures After(sc, s.(hdr := s.hdr.(rec := rec)), k).at == After(sc, s, k).at
  {
    var t := s.(hdr := s.hdr.(rec := rec));
    RecIsIgnored(sc, s, rec);
    NextAfter(sc, s, 0);
    NextAfter(sc, t, 0);
    if k > 0 {
      IterateAdds(Onward(sc), s, 1, k - 1);
      IterateAdds(Onward(sc), t, 1, k - 1);
      if Advance(sc, t) != Advance(sc, s) {
        NobodyMoves(sc, s, t, k);
      }
    }
  }

  lemma {:induction false} NobodyMoves(sc: Scene, s: Hop, t: Hop, k: nat)
    requires Advance(sc, s) == s && Advance(sc, t) == t
    ensures After(sc, s, k) == s && After(sc, t, k) == t
  {
    NextAfter(sc, s, if k == 0 then 0 else k - 1);
    NextAfter(sc, t, if k == 0 then 0 else k - 1);
    if k > 0 {
      NobodyMoves(sc, s, t, k - 1);
    }
  }

  /** The node at a of the scene, for a destination that the location service has found. */
  ghost predicate SenderInScene(sc: Scene, a: Addr, c: Config, table: Table, m: Moment) {
    && a in sc.net.pos && c.graph == sc.graph
    && LivePositions(c, table, m.now) == View(sc.net, a)
    && m.here == sc.net.pos[a] && m.places(sc.dst).fix == sc.fix
  }

  /** Deferral does not cost delivery: a packet taken from the queue for a
      reachable destination is handed on and arrives within n laps, whatever mode it was in before. */
  lemma DeferredArrives(sc: Scene, D: Point, a: Addr, c: Config, table: Table, m: Moment, e: QueueEntry)
    returns (k: nat)
    requires Valid(sc.net) && sc.graph == GRAPH_GABRIEL && Located(sc, D)
    requires SenderInScene(sc, a, c, table, m) && a != sc.dst && Reachable(sc.net, a, sc.dst)
    requires e.header.dst == sc.dst && IsData(e.packet.bytes) && !StaleTarget(c, table, m, e)
    requires Parse(e.packet.bytes).hdr.dst == D && sc.fix.pos == D
    ensures var dealt := Dealing(c, table, m, sc.dst)(e);
            && dealt.Forwarded? && Parse(dealt.packet.bytes).Data?
            && After(sc, Hop(dealt.gateway, Parse(dealt.packet.bytes).hdr), k).at == sc.dst
    ensures k <= |sc.net.pos| * (|Edges(sc.net)| + 1)
  {
    var s := Hop(a, Parse(e.packet.bytes).hdr.(inRec := 0));
    var n := DeliveredIffReachable(sc, D, s);
    NextAfter(sc, s, 0);
    assert n > 0;
    k := n - 1;
    FirstHopOnTheWay(sc, D, s);
    HandedOn(sc, c, table, m, e, s);
    ArrivesFromQueue(sc, m, s, k);
  }

  /** A check delivers: on the Gabriel graph, of every packet that it takes from the queue for a reachable
      destination there is an event in its log which hands the packet, unchanged but for its headers, to a
      neighbour from where it arrives within n laps. */
  lemma DeferredArrivesFromCheck(sc: Scene, D: Point, a: Addr, c: Config, st: State, m: Moment, e: QueueEntry)
    returns (i: nat, k: nat)
    requires Valid(sc.net) && sc.graph == GRAPH_GABRIEL && Located(sc, D)
    requires SenderInScene(sc, a, c, st.table, m) && a != sc.dst && Reachable(sc.net, a, sc.dst)
    requires sc.dst in st.addrs && !m.places(sc.dst).inSearch && m.places(sc.dst).hasPosition
    requires e in TakenFrom(WaitingFor(st.queue, m.now, sc.dst)) && IsData(e.packet.bytes)
    requires !StaleTarget(c, st.table, m, e) && Parse(e.packet.bytes).hdr.dst == D && sc.fix.pos == D
    ensures |st.log| <= i < |Checked(c, st, m).log| && k <= |sc.net.pos| * (|Edges(sc.net)| + 1)
    ensures var ev := Checked(c, st, m).log[i];
            && ev.Forwarded? && EventTicket(ev) == EntryTicket(e) && Parse(ev.packet.bytes).Data?
            && After(sc, Hop(ev.gateway, Parse(ev.packet.bytes).hdr), k).at == sc.dst
  {
    var table: Table;
    i, table := EventOfTaken(c, st, m, sc.dst, e);
    TableOfIsLive(c, st, m, table);
    DealingKeepsTicket(c, table, m, sc.dst);
    k := DeferredArrives(sc, D, a, c, table, m, e);
  }

  /** The queued packet is handed to the next holder in the frame of the hop that s makes. */
  lemma HandedOn(sc: Scene, c: Config, table: Table, m: Moment, e: QueueEntry, s: Hop)
    requires Valid(sc.net) && SenderInScene(sc, s.at, c, table, m) && s.at != sc.dst
    requires e.header.dst == sc.dst && IsData(e.packet.bytes) && !StaleTarget(c, table, m, e)
    requires TargetsAgree(c, table, m, e)
    requires s.hdr == Parse(e.packet.bytes).hdr.(inRec := 0) && Decide(sc, s).Transmit?
    ensures var dealt, t := Dealing(c, table, m, sc.dst)(e), Advance(sc, s);
            && dealt.Forwarded? && dealt.gateway == t.at
            && Parse(dealt.packet.bytes) == Data(FromQueue(m.here, t.hdr), Parse(e.packet.bytes).payload)
  {
    DecideIsRuling(sc, s);
    SendingIsForwarding(c, table, m, e);
    FrameRoundTrip(FromQueue(m.here, Advance(sc, s).hdr), Parse(e.packet.bytes).payload);
  }

  lemma ArrivesFromQueue(sc: Scene, m: Moment, s: Hop, k: nat)
    requires Valid(sc.net) && s.at in sc.net.pos && s.at != sc.dst && Decide(sc, s).Transmit?
    ensures var t := Advance(sc, s);
            After(sc, Hop(t.at, FromQueue(m.here, t.hdr)), k).at == After(sc, s, k + 1).at
  {
    var t := Advance(sc, s);
    IterateAdds(Onward(sc), s, 1, k);
    NextAfter(sc, s, 0);
    if t.hdr.inRec == 0 {
      DecideIsRuling(sc, s);
      TransmitCases(sc.graph, View(sc.net, s.at), sc.net.pos[s.at], sc.dst, s.hdr, sc.fix);
      SamePlaces(sc, t, m.here, k);
    }
  }

  /** A packet on its way to a reachable destination is never deferred. */
  lemma FirstHopOnTheWay(sc: Scene, D: Point, s: Hop)
    requires Valid(sc.net) && sc.graph == GRAPH_GABRIEL && s.at in sc.net.pos && s.at != sc.dst
    requires Agreed(sc, D, s) && s.hdr.inRec == 0 && Reachable(sc.net, s.at, sc.dst)
    ensures Decide(sc, s).Transmit?
  {
    if !HasNeighbor(sc.net, s.at) {
      LonelyReachesItself(sc.net, s.at, sc.dst);
    }
    GoodMovesOn(sc, D, s);
  }
}
