/** The forwarding decision of one node: its live neighbours, its place, the header, the location service. */
module Routing {
  import opened Types
  import opened Geometry
  import opened Directions
  import opened Neighbors
  import opened Packets

  /** The location service's answer for a destination. */
  datatype Fix = Fix(pos: Point, updated: U32)

  datatype Decision =
    | Transmit(nextHop: Addr, hdr: PositionHeader)
    | Defer(hdr: PositionHeader)

  const ORIGIN: Point := Point(0, 0)

  /** RecoveryMode: remember this node as the previous hop and follow the right-hand rule from the
      previous one; without a planar neighbour the packet has to wait. */
  ghost function Recover(graph: U8, view: map<Addr, Point>, here: Point, hdr: PositionHeader): Decision {
    var onward := PositionHeader(hdr.dst, hdr.updated, hdr.rec, 1, here);
    var nextHop := BestAngleOf(graph, view, hdr.last, here);
    if nextHop == NO_ADDR then Defer(onward) else Transmit(nextHop, onward)
  }

  /** Recovery ends at a node closer to the destination than the one where it began. */
  ghost predicate LeavesRecovery(here: Point, hdr: PositionHeader) {
    hdr.inRec == 1 && Dist2(here, hdr.dst) < Dist2(hdr.rec, hdr.dst)
  }

  /** The newer of the header's and the location service's idea of the destination. */
  function Newest(hdr: PositionHeader, fix: Fix): Fix {
    if fix.updated > hdr.updated then fix else Fix(hdr.dst, hdr.updated)
  }

  /** The greedy next hop, with a destination in the table chosen directly. */
  ghost function GreedyHop(view: map<Addr, Point>, here: Point, dst: Addr, dest: Point): Addr {
    if dst in view then dst else BestNeighborOf(Listed(view), dest, here)
  }

  /** The node stays in the recovery episode that the packet arrived in. */
  ghost predicate StaysInRecovery(here: Point, hdr: PositionHeader) {
    hdr.inRec != 0 && !LeavesRecovery(here, hdr)
  }

  /** The decision where the packet is not in recovery, or no longer: a greedy hop, else a new recovery
      episode. On entering recovery the header keeps its old destination position, while the first
      edge points at the newest one. */
  ghost function Afresh(graph: U8, view: map<Addr, Point>, here: Point, dst: Addr, hdr: PositionHeader, fix: Fix):
    Decision
  {
    var newest := Newest(hdr, fix);
    var nextHop := GreedyHop(view, here, dst, newest.pos);
    if nextHop != NO_ADDR then
      Transmit(nextHop, PositionHeader(newest.pos, newest.updated, ORIGIN, 0, here))
    else
      Recover(graph, view, here, hdr.(inRec := 1, rec := here, last := newest.pos))
  }

  /** Forwarding. */
  ghost function Forward(graph: U8, view: map<Addr, Point>, here: Point, dst: Addr, hdr: PositionHeader, fix: Fix):
    Decision
  {
    if StaysInRecovery(here, hdr) then Recover(graph, view, here, hdr)
    else Afresh(graph, view, here, dst, hdr, fix)
  }

  /** A transmitted packet goes to a live neighbour and names this node as its previous hop. Sent greedily it
      carries the newer of the two positions that header and location service know, and goes to the destination
      or strictly closer to that position; sent in an ongoing recovery only its previous hop changes; sent into a
      new one it records this node. */
  lemma TransmitCases(graph: U8, view: map<Addr, Point>, here: Point, dst: Addr, hdr: PositionHeader, fix: Fix)
    requires NO_ADDR !in view
    ensures var d := Forward(graph, view, here, dst, hdr, fix);
            var goal := if fix.updated > hdr.updated then fix.pos else hdr.dst;
            d.Transmit? ==>
              && d.nextHop in view && d.hdr.last == here
              && (d.hdr.inRec == 0 ==>
                    && !StaysInRecovery(here, hdr)
                    && d.hdr.dst == goal
                    && d.hdr.updated == (if fix.updated > hdr.updated then fix.updated else hdr.updated)
                    && (d.nextHop == dst || Dist2(view[d.nextHop], goal) < Dist2(here, goal)))
              && (d.hdr.inRec != 0 ==>
                    d.hdr == if StaysInRecovery(here, hdr) then hdr.(inRec := 1, last := here)
                             else hdr.(inRec := 1, rec := here, last := here))
  {
    BestNeighborIsArgmin(view, Newest(hdr, fix).pos, here);
    RecoverGoesToNeighbor(graph, view, here, hdr);
    RecoverGoesToNeighbor(graph, view, here, hdr.(inRec := 1, rec := here, last := Newest(hdr, fix).pos));
  }

  lemma RecoverGoesToNeighbor(graph: U8, view: map<Addr, Point>, here: Point, hdr: PositionHeader)
    requires NO_ADDR !in view
    ensures var d := Recover(graph, view, here, hdr);
            && (d.Transmit? ==> d.nextHop in view)
            && (d.Defer? <==> PlanarNeighbors(graph, Listed(view), here) == [])
  {
    if PlanarNeighbors(graph, Listed(view), here) != [] {
      BestAngleIsNeighbor(graph, view, here, hdr.last);
    }
  }

  lemma BestAngleIsNeighbor(graph: U8, view: map<Addr, Point>, here: Point, prev: Point)
    requires PlanarNeighbors(graph, Listed(view), here) != []
    ensures BestAngleOf(graph, view, prev, here) in view
  {
    var chosen := BestAngleRule(graph, view, here, prev);
  }

  /** The recovery hop, for every graph type: a live neighbour that survives the planarisation; of those, nobody
      strictly inside the sector turned over from the previous hop, and nobody of a lower address in the same
      direction. */
  lemma BestAngleRule(graph: U8, view: map<Addr, Point>, here: Point, prev: Point) returns (chosen: Neighbor)
    requires PlanarNeighbors(graph, Listed(view), here) != []
    ensures chosen.id == BestAngleOf(graph, view, prev, here)
    ensures chosen.id in view && view[chosen.id] == chosen.pos && Keeps(graph, Listed(view), here, chosen)
    ensures forall nb :: nb in Listed(view) && Keeps(graph, Listed(view), here, nb) ==>
              && (SeenAlike(here, nb, chosen) ==> chosen.id <= nb.id)
              && (SameHeading(Heading(here, prev), Heading(here, nb.pos))
                  || SameHeading(Heading(here, prev), Heading(here, chosen.pos))
                  || !Ccw(Heading(here, prev), Heading(here, nb.pos), Heading(here, chosen.pos)))
              && (SameHeading(Heading(here, prev), Heading(here, chosen.pos)) ==>
                    SameHeading(Heading(here, prev), Heading(here, nb.pos)))
  {
    var all := Listed(view);
    var list := PlanarNeighbors(graph, all, here);
    PlanarNeighborsAreTheKept(graph, all, here, |all|);
    assert all[..|all|] == all;
    chosen := RightHandRule(list, here, prev);
    assert chosen in all;
  }

  // ---------- what Forwarding aims at ----------

  /** The decision of a node that is not in recovery, or no longer, and aims at goal, known since stamp: the
      destination itself if it is a neighbour; else the neighbour closest to the goal, of the lowest address, if
      it is closer than this node; else recovery from here, with its first edge turned to from the goal. A
      greedily sent packet carries the goal on; one sent into recovery keeps the position it came with. */
  ghost predicate AimsAt(graph: U8, view: map<Addr, Point>, here: Point, dst: Addr, hdr: PositionHeader, goal: Point,
                         stamp: U32, d: Decision)
  {
    if dst in view then
      d == Transmit(dst, PositionHeader(goal, stamp, Point(0, 0), 0, here))
    else if exists a :: a in view && Dist2(view[a], goal) < Dist2(here, goal) then
      d.Transmit? && IsClosest(view, goal, d.nextHop) && d.hdr == PositionHeader(goal, stamp, Point(0, 0), 0, here)
    else
      && d.hdr == PositionHeader(hdr.dst, hdr.updated, here, 1, here)
      && TurnsFrom(graph, view, here, goal, d)
  }

  /** The neighbour of the lowest address among those closest to the goal. */
  ghost predicate IsClosest(view: map<Addr, Point>, goal: Point, a: Addr) {
    a in view && forall b :: b in view ==>
                    Dist2(view[a], goal) < Dist2(view[b], goal) ||
                    (Dist2(view[a], goal) == Dist2(view[b], goal) && a <= b)
  }

  /** The packet takes the recovery hop that comes first when turning from the direction of prev, if any. */
  ghost predicate TurnsFrom(graph: U8, view: map<Addr, Point>, here: Point, prev: Point, d: Decision) {
    && (d.Defer? <==> PlanarNeighbors(graph, Listed(view), here) == [])
    && (d.Transmit? ==> d.nextHop == BestAngleOf(graph, view, prev, here))
  }

  /** Forwarding, from its inputs to its header: a packet stays in the recovery it is in, turning from its
      previous hop, unless this node is closer to the header's destination than where recovery began; else it
      aims at the location service's position if that is newer than the header's, and at the header's if not. */
  lemma ForwardingAims(graph: U8, view: map<Addr, Point>, here: Point, dst: Addr, hdr: PositionHeader, fix: Fix)
    requires NO_ADDR !in view
    ensures var d := Forward(graph, view, here, dst, hdr, fix);
            if hdr.inRec > 1 || (hdr.inRec == 1 && Dist2(here, hdr.dst) >= Dist2(hdr.rec, hdr.dst)) then
              d.hdr == PositionHeader(hdr.dst, hdr.updated, hdr.rec, 1, here) &&
              TurnsFrom(graph, view, here, hdr.last, d)
            else if fix.updated > hdr.updated then
              AimsAt(graph, view, here, dst, hdr, fix.pos, fix.updated, d)
            else
              AimsAt(graph, view, here, dst, hdr, hdr.dst, hdr.updated, d)
  {
    RecoverGoesToNeighbor(graph, view, here, hdr);
    if fix.updated > hdr.updated {
      AfreshAims(graph, view, here, dst, hdr, fix, fix.pos, fix.updated);
    } else {
      AfreshAims(graph, view, here, dst, hdr, fix, hdr.dst, hdr.updated);
    }
  }

  lemma AfreshAims(graph: U8, view: map<Addr, Point>, here: Point, dst: Addr, hdr: PositionHeader, fix: Fix,
                   goal: Point, stamp: U32)
    requires NO_ADDR !in view
    requires if fix.updated > hdr.updated then goal == fix.pos && stamp == fix.updated
             else goal == hdr.dst && stamp == hdr.updated
    ensures AimsAt(graph, view, here, dst, hdr, goal, stamp, Afresh(graph, view, here, dst, hdr, fix))
  {
    BestNeighborIsArgmin(view, goal, here);
    RecoverGoesToNeighbor(graph, view, here, hdr.(inRec := 1, rec := here, last := goal));
  }
}
