/** From a local minimum the recovery walk finds a closer node, if the destination can be reached. */
module WaysOut {
  import opened Types
  import opened Geometry
  import opened Directions
  import opened Neighbors
  import opened UnitDisc
  import opened Cycles
  import opened FaceWalk
  import opened Fates
  import opened Sweep
  import opened PlaneGraphs
  import opened Exits

  // ---------- one node's sectors ----------

  lemma SameIdIffSamePoint(list: seq<Neighbor>, here: Point, a: Neighbor, b: Neighbor)
    requires InAddressOrder(list) && DistinctHeadings(list, here) && a in list && b in list
    requires a.pos != here && b.pos != here
    ensures a.id == b.id <==> a == b
    ensures a.id != b.id ==> a.pos != b.pos && !SameDirection(here, a.pos, b.pos)
  {
    if a.id == b.id {
      SameIdSameNeighbor(list, a, b);
    } else {
      SameDirectionIsSameHeading(here, a.pos, b.pos);
      NonZeroAlong(here, a.pos);
    }
  }

  lemma NonZeroAlong(here: Point, p: Point)
    requires p != here
    ensures SameHeading(Heading(here, p), Heading(here, p))
  {
    CrossFlips(Heading(here, p), Heading(here, p));
    NormPositive(Heading(here, p));
  }

  /** All neighbours of the list are elsewhere and in different directions. */
  ghost predicate Spread(list: seq<Neighbor>, here: Point) {
    && InAddressOrder(list) && DistinctHeadings(list, here)
    && forall nb :: nb in list ==> nb.pos != here
  }

  /** c is where the right-hand rule goes on having come from u. */
  ghost predicate GoesOn(list: seq<Neighbor>, here: Point, u: Neighbor, c: Neighbor) {
    && u in list && c in list && c.id == RightHand(list, here, u.pos)
  }

  lemma NextIsFirst(list: seq<Neighbor>, here: Point, u: Neighbor, c: Neighbor, z: Neighbor)
    requires Spread(list, here) && GoesOn(list, here, u, c) && z in list
    ensures u.id == c.id ==> z == u == c
    ensures u.id != c.id && z.id != u.id && z.id != c.id ==>
              !Ccw(Between(here, u.pos), Between(here, z.pos), Between(here, c.pos))
  {
    var chosen := RightHandRule(list, here, u.pos);
    SameIdSameNeighbor(list, chosen, c);
    NonZeroAlong(here, u.pos);
    if u.id == c.id {
      SameIdSameNeighbor(list, u, c);
      assert z.id == u.id;
      SameIdSameNeighbor(list, z, u);
    }
  }

  /** Of the neighbours, the sector of a passage holds just the outgoing one, seen from its right ... */
  lemma SectorHoldsExit(list: seq<Neighbor>, here: Point, u: Neighbor, c: Neighbor, z: Neighbor)
    requires Spread(list, here) && GoesOn(list, here, u, c) && z in list
    ensures InSector(here, u.pos, c.pos, z.pos, true) <==> z.id == c.id
  {
    NextIsFirst(list, here, u, c, z);
    SameIdIffSamePoint(list, here, u, c);
    SameIdIffSamePoint(list, here, u, z);
    SameIdIffSamePoint(list, here, z, c);
    AllSlopes(here, u.pos, c.pos, z.pos);
    OrientAlternates(here, c.pos, c.pos);
    if u.id != c.id && z.id != u.id && z.id != c.id {
      SectorIsCcw(here, u.pos, c.pos, z.pos, true);
    }
  }

  /** ... and just the incoming one, seen from its left. */
  lemma SectorHoldsEntry(list: seq<Neighbor>, here: Point, u: Neighbor, c: Neighbor, z: Neighbor)
    requires Spread(list, here) && GoesOn(list, here, u, c) && z in list
    ensures InSector(here, u.pos, c.pos, z.pos, false) <==> z.id == u.id
  {
    NextIsFirst(list, here, u, c, z);
    SameIdIffSamePoint(list, here, u, c);
    SameIdIffSamePoint(list, here, u, z);
    SameIdIffSamePoint(list, here, z, c);
    AllSlopes(here, u.pos, c.pos, z.pos);
    OrientAlternates(here, u.pos, u.pos);
    if u.id != c.id && z.id != u.id && z.id != c.id {
      SectorIsCcw(here, u.pos, c.pos, z.pos, false);
    }
  }

  /** A direction in which there is no neighbour lies in the sector of just the passage that leaves where the
      right-hand rule leads from that direction. */
  lemma SectorHoldsGoal(list: seq<Neighbor>, here: Point, u: Neighbor, c: Neighbor, goal: Point, y: Neighbor)
    requires Spread(list, here) && GoesOn(list, here, u, c)
    requires goal != here && y in list && y.id == RightHand(list, here, goal)
    requires forall nb :: nb in list ==> !SameDirection(here, goal, nb.pos)
    ensures InSector(here, u.pos, c.pos, goal, true) <==> c.id == y.id
  {
    var chosen := RightHandRule(list, here, goal);
    SameIdSameNeighbor(list, chosen, y);
    SameDirectionIsSameHeading(here, goal, u.pos);
    SameDirectionIsSameHeading(here, goal, c.pos);
    SameDirectionIsSameHeading(here, goal, y.pos);
    NextIsFirst(list, here, u, c, y);
    SameIdIffSamePoint(list, here, u, c);
    SameIdIffSamePoint(list, here, u, y);
    SameIdIffSamePoint(list, here, y, c);
    if u.id != c.id {
      OrientAlternates(here, goal, u.pos);
      SectorIsCcw(here, u.pos, c.pos, goal, true);
      assert !Ccw(Between(here, goal), Between(here, u.pos), Between(here, y.pos));
      assert !Ccw(Between(here, goal), Between(here, c.pos), Between(here, y.pos));
      CyclicChoice(here, u.pos, c.pos, goal, y.pos);
    }
  }

  lemma CyclicChoice(here: Point, u: Point, c: Point, goal: Point, y: Point)
    requires u != here && c != here && goal != here && y != here
    requires u != c && !SameDirection(here, u, c)
    requires !SameDirection(here, goal, u) && !SameDirection(here, goal, c) && !SameDirection(here, goal, y)
    requires !Ccw(Between(here, goal), Between(here, u), Between(here, y))
    requires !Ccw(Between(here, goal), Between(here, c), Between(here, y))
    requires y != u && y != c ==> !SameDirection(here, u, y) && !SameDirection(here, y, c)
    requires y != u && y != c ==> !Ccw(Between(here, u), Between(here, y), Between(here, c))
    ensures Ccw(Between(here, u), Between(here, goal), Between(here, c)) <==> c == y
  {
    AllSlopes(here, u, c, goal);
    AllSlopes(here, u, y, goal);
    AllSlopes(here, c, y, goal);
    AllSlopes(here, u, c, y);
  }

  // ---------- the Gabriel graph in the plane ----------

  lemma AdjacentIsSpread(net: Network, a: Addr)
    requires Valid(net) && a in net.pos
    ensures Spread(Adjacent(net, a), net.pos[a])
  {
    AdjacentAreKeptLinks(net, a);
    forall nb | nb in Adjacent(net, a)
      ensures nb.pos != net.pos[a]
    {
    }
  }

  lemma HeadIsAdjacent(net: Network, f: Edge)
    requires Valid(net) && IsEdge(net, f)
    ensures Neighbor(f.head, net.pos[f.head]) in Adjacent(net, f.tail)
  {
    AdjacentAreKeptLinks(net, f.tail);
  }

  /** The neighbours kept at a node are spread around it, and the walk goes on among them. */
  lemma PassageInList(net: Network, f: Edge)
    requires Valid(net) && IsEdge(net, f)
    ensures var list, here := Adjacent(net, f.head), net.pos[f.head];
            var next := NextEdge(net, f).head;
            && Spread(list, here) && next in net.pos
            && GoesOn(list, here, Neighbor(f.tail, net.pos[f.tail]), Neighbor(next, net.pos[next]))
  {
    TailIsAdjacent(net, f);
    NextEdgeIsEdge(net, f);
    AdjacentIsSpread(net, f.head);
    HeadIsAdjacent(net, NextEdge(net, f));
  }

  ghost predicate Uncrossed(net: Network, e: Edge, f: Edge)
    requires IsEdge(net, e) && IsEdge(net, f)
  {
    !CrossProperly(net.pos[e.tail], net.pos[e.head], net.pos[f.tail], net.pos[f.head])
  }

  /** No node lies on a kept link. */
  lemma NoNodeInside(net: Network, f: Edge, a: Addr)
    requires Valid(net) && IsEdge(net, f) && a in net.pos
    ensures !Inside(net.pos[a], net.pos[f.tail], net.pos[f.head])
  {
    KeptIsGloballyEmpty(net, f.tail, f.head);
    if Inside(net.pos[a], net.pos[f.tail], net.pos[f.head]) {
      InsideIsInCircle(net.pos[a], net.pos[f.tail], net.pos[f.head]);
    }
  }

  /** The kept graph as a drawing, with the face walk as its rule. */
  ghost function Drawing(net: Network): PlaneGraph {
    PlaneGraph(net.pos, Edges(net), Walk(net))
  }

  lemma EdgeIsJoined(net: Network, e: Edge)
    requires Valid(net) && IsEdge(net, e)
    ensures e in Edges(net) && Joined(Drawing(net), e)
  {
    NextEdgeIsEdge(net, e);
  }

  lemma EdgeTurns(net: Network, e: Edge)
    requires Valid(net) && IsEdge(net, e) && Joined(Drawing(net), e)
    ensures Turns(Drawing(net), e)
  {
    PassageInList(net, e);
    var next := NextEdge(net, e).head;
    SameIdIffSamePoint(Adjacent(net, e.head), net.pos[e.head], Neighbor(e.tail, net.pos[e.tail]),
                       Neighbor(next, net.pos[next]));
  }

  lemma UncrossedIsUntouched(net: Network, e: Edge, f: Edge)
    requires Valid(net) && IsEdge(net, e) && IsEdge(net, f) && Uncrossed(net, e, f)
    requires Joined(Drawing(net), e) && Joined(Drawing(net), f)
    ensures Untouched(Drawing(net), e, f)
  {
    NoNodeInside(net, e, f.tail);
    NoNodeInside(net, e, f.head);
    NoNodeInside(net, f, e.tail);
    NoNodeInside(net, f, e.head);
  }

  lemma ExitInSector(net: Network, e: Edge, f: Edge)
    requires Valid(net) && IsEdge(net, e) && IsEdge(net, f)
    requires Joined(Drawing(net), e) && Joined(Drawing(net), f)
    ensures ExitRule(Drawing(net), e, f)
  {
    if e.head == f.tail {
      PassageInList(net, e);
      HeadIsAdjacent(net, f);
      var next := NextEdge(net, e).head;
      SectorHoldsExit(Adjacent(net, e.head), net.pos[e.head], Neighbor(e.tail, net.pos[e.tail]),
                      Neighbor(next, net.pos[next]), Neighbor(f.head, net.pos[f.head]));
    }
  }

  lemma EntryInSector(net: Network, e: Edge, f: Edge)
    requires Valid(net) && IsEdge(net, e) && IsEdge(net, f)
    requires Joined(Drawing(net), e) && Joined(Drawing(net), f)
    ensures EntryRule(Drawing(net), e, f)
  {
    if e.head == f.head {
      PassageInList(net, e);
      TailIsAdjacent(net, f);
      var next := NextEdge(net, e).head;
      SectorHoldsEntry(Adjacent(net, e.head), net.pos[e.head], Neighbor(e.tail, net.pos[e.tail]),
                       Neighbor(next, net.pos[next]), Neighbor(f.tail, net.pos[f.tail]));
    }
  }

  lemma GabrielIsWellDrawn(net: Network)
    requires Valid(net)
    ensures WellDrawn(Drawing(net))
  {
    var g := Drawing(net);
    forall e
      ensures LinkFits(g, e)
    {
      if e in g.edges {
        EdgeIsJoined(net, e);
        EdgeTurns(net, e);
      }
    }
    forall e, f
      ensures PairFits(g, e, f)
    {
      if e in g.edges && f in g.edges && Joined(g, e) && Joined(g, f) {
        ExitInSector(net, e, f);
        EntryInSector(net, e, f);
      }
    }
  }

  // ---------- from a local minimum ----------

  ghost predicate NoCloser(net: Network, x: Addr, d: Point, a: Addr)
    requires x in net.pos && a in net.pos
  {
    Dist2(net.pos[x], d) <= Dist2(net.pos[a], d)
  }

  /** No neighbour of x is closer to d than x itself. */
  ghost predicate LocalMinimum(net: Network, x: Addr, d: Point) {
    x in net.pos && forall a :: Linked(net, x, a) ==> NoCloser(net, x, d, a)
  }

  /** The first link of recovery at x, for the destination position d. */
  ghost function FirstEdge(net: Network, x: Addr, d: Point): Edge
    requires x in net.pos
  {
    Edge(x, BestAngleOf(GRAPH_GABRIEL, View(net, x), d, net.pos[x]))
  }

  /** Recovery towards node dst has started at x. */
  ghost predicate Starts(net: Network, x: Addr, dst: Addr) {
    && Valid(net) && dst in net.pos && x != dst
    && LocalMinimum(net, x, net.pos[dst]) && HasNeighbor(net, x)
  }

  lemma FirstEdgeIsEdge(net: Network, x: Addr, dst: Addr)
    requires Starts(net, x, dst)
    ensures var f := FirstEdge(net, x, net.pos[dst]);
            && IsEdge(net, f) && f.tail == x
            && f.head == RightHand(Adjacent(net, x), net.pos[x], net.pos[dst])
  {
    BestAngleIsRightHand(net, x, net.pos[dst]);
    NeighborMeansAdjacent(net, x);
    AdjacentAreKeptLinks(net, x);
    var chosen := RightHandRule(Adjacent(net, x), net.pos[x], net.pos[dst]);
  }

  /** At a local minimum there is no kept neighbour in the direction of the destination. */
  lemma NobodyAhead(net: Network, x: Addr, dst: Addr, f: Edge)
    requires Starts(net, x, dst) && IsEdge(net, f) && f.tail == x
    ensures !SameDirection(net.pos[x], net.pos[dst], net.pos[f.head])
  {
    var here, d, a := net.pos[x], net.pos[dst], net.pos[f.head];
    SameDirectionIsSameHeading(here, d, a);
    assert NoCloser(net, x, d, f.head);
    KeptIsGloballyEmpty(net, x, f.head);
    DistanceBasics(a, d);
    DistanceBasics(here, d);
    if SameDirection(here, d, a) {
      AheadButFarIsBeyond(here, a, d);
    }
  }

  lemma GoalInSector(net: Network, x: Addr, dst: Addr, e: Edge)
    requires Starts(net, x, dst) && IsEdge(net, e) && Joined(Drawing(net), e)
    ensures GoalRule(Drawing(net), net.pos[dst], FirstEdge(net, x, net.pos[dst]), e)
  {
    var goal, first := net.pos[dst], FirstEdge(net, x, net.pos[dst]);
    FirstEdgeIsEdge(net, x, dst);
    if e.head == x {
      PassageInList(net, e);
      HeadIsAdjacent(net, first);
      NobodyInListAhead(net, x, dst);
      var next := NextEdge(net, e).head;
      SectorHoldsGoal(Adjacent(net, x), net.pos[x], Neighbor(e.tail, net.pos[e.tail]),
                      Neighbor(next, net.pos[next]), goal, Neighbor(first.head, net.pos[first.head]));
    }
  }

  lemma NobodyInListAhead(net: Network, x: Addr, dst: Addr)
    requires Starts(net, x, dst)
    ensures forall nb :: nb in Adjacent(net, x) ==> !SameDirection(net.pos[x], net.pos[dst], nb.pos)
  {
    AdjacentAreKeptLinks(net, x);
    forall nb | nb in Adjacent(net, x)
      ensures !SameDirection(net.pos[x], net.pos[dst], nb.pos)
    {
      NobodyAhead(net, x, dst, Edge(x, nb.id));
    }
  }

  /** Node a is neither the destination nor closer to it than x: recovery from x goes on. */
  ghost predicate NoWayOut(net: Network, x: Addr, dst: Addr, a: Addr)
    requires x in net.pos && dst in net.pos
  {
    a in net.pos && a != dst && NoCloser(net, x, net.pos[dst], a)
  }

  lemma NotOnTheWay(net: Network, x: Addr, dst: Addr, a: Addr)
    requires x in net.pos && dst in net.pos && NoWayOut(net, x, dst, a)
    ensures !Inside(net.pos[a], net.pos[x], net.pos[dst])
  {
    if Inside(net.pos[a], net.pos[x], net.pos[dst]) {
      OnTheWayIsCloser(net.pos[a], net.pos[x], net.pos[dst]);
    }
  }

  /** A link with no way out at either end does not cross the segment to the destination. */
  lemma NotAcrossTheWay(net: Network, x: Addr, dst: Addr, e: Edge)
    requires Valid(net) && x in net.pos && dst in net.pos && x != dst && IsEdge(net, e)
    requires NoWayOut(net, x, dst, e.tail) && NoWayOut(net, x, dst, e.head)
    ensures !CrossProperly(net.pos[x], net.pos[dst], net.pos[e.tail], net.pos[e.head])
  {
    var here, d, a, b := net.pos[x], net.pos[dst], net.pos[e.tail], net.pos[e.head];
    KeptIsGloballyEmpty(net, e.tail, e.head);
    OwnPowerIsZero(a, b);
    if CrossProperly(here, d, a, b) {
      CrossedLinkHasCloserEnd(here, d, a, b);
    }
  }

  lemma LinkPassesBy(net: Network, x: Addr, dst: Addr, e: Edge)
    requires Valid(net) && x in net.pos && dst in net.pos && x != dst && IsEdge(net, e) && Joined(Drawing(net), e)
    requires NoWayOut(net, x, dst, e.tail) && NoWayOut(net, x, dst, e.head)
    ensures PassesBy(Drawing(net), net.pos[x], net.pos[dst], e)
  {
    NotAcrossTheWay(net, x, dst, e);
    NotOnTheWay(net, x, dst, e.tail);
    NotOnTheWay(net, x, dst, e.head);
    NoNodeInside(net, e, x);
    NoNodeInside(net, e, dst);
  }

  /** The first time that a walk known to return does so. */
  lemma {:induction false} FirstReturn(net: Network, e: Edge, p: nat) returns (n: nat)
    requires WellDrawn(Drawing(net)) && e in Edges(net) && Joined(Drawing(net), e)
    requires p >= 1 && Trail(Drawing(net), e)(p) == e
    ensures n <= p && FirstRound(Drawing(net), e, n)
    decreases p
  {
    if i :| 1 <= i < p && Trail(Drawing(net), e)(i) == e {
      n := FirstReturn(net, e, i);
    } else {
      n := p;
    }
  }

  /** No stop of the walk, within n links, is a way out. */
  ghost predicate NoWayOutUpTo(net: Network, x: Addr, dst: Addr, n: nat)
    requires x in net.pos && dst in net.pos
  {
    forall i: nat :: i < n ==> NoWayOutAt(net, x, dst, i)
  }

  ghost predicate NoWayOutAt(net: Network, x: Addr, dst: Addr, i: nat)
    requires x in net.pos && dst in net.pos
  {
    NoWayOut(net, x, dst, Iterate(Walk(net), FirstEdge(net, x, net.pos[dst]), i).head)
  }

  /** The i-th link of the walk that starts recovery at x. */
  ghost function Leg(net: Network, x: Addr, dst: Addr, i: nat): Edge
    requires x in net.pos && dst in net.pos
  {
    Trail(Drawing(net), FirstEdge(net, x, net.pos[dst]))(i)
  }

  lemma HeadsHaveNoWayOut(net: Network, x: Addr, dst: Addr, n: nat, i: nat)
    requires x in net.pos && dst in net.pos && NoWayOutUpTo(net, x, dst, n) && i < n
    ensures NoWayOut(net, x, dst, Leg(net, x, dst, i).head)
  {
    TrailIsIterate(Drawing(net), FirstEdge(net, x, net.pos[dst]), i);
    assert NoWayOutAt(net, x, dst, i);
  }

  lemma LegsJoin(net: Network, x: Addr, dst: Addr, i: nat)
    requires x in net.pos && dst in net.pos
    requires WellDrawn(Drawing(net)) && FirstEdge(net, x, net.pos[dst]) in Edges(net)
    ensures Leg(net, x, dst, i).tail == if i == 0 then x else Leg(net, x, dst, i - 1).head
  {
    TailIsHeadBefore(Drawing(net), FirstEdge(net, x, net.pos[dst]), i);
  }

  lemma TailsHaveNoWayOut(net: Network, x: Addr, dst: Addr, n: nat, i: nat)
    requires Starts(net, x, dst) && NoWayOutUpTo(net, x, dst, n) && i < n
    requires Leg(net, x, dst, i).tail == if i == 0 then x else Leg(net, x, dst, i - 1).head
    ensures NoWayOut(net, x, dst, Leg(net, x, dst, i).tail)
  {
    if i == 0 {
    } else {
      HeadsHaveNoWayOut(net, x, dst, n, i - 1);
    }
  }

  lemma StopsPassBy(net: Network, x: Addr, dst: Addr, n: nat, i: nat)
    requires Starts(net, x, dst) && WellDrawn(Drawing(net)) && FirstEdge(net, x, net.pos[dst]) in Edges(net)
    requires NoWayOutUpTo(net, x, dst, n) && i < n
    ensures PassesBy(Drawing(net), net.pos[x], net.pos[dst], Joining(Drawing(net), FirstEdge(net, x, net.pos[dst]), i))
  {
    HeadsHaveNoWayOut(net, x, dst, n, i);
    LegsJoin(net, x, dst, i);
    TailsHaveNoWayOut(net, x, dst, n, i);
    LinkPassesBy(net, x, dst, Joining(Drawing(net), FirstEdge(net, x, net.pos[dst]), i));
  }

  // ---------- one component, one side ----------

  /** If kept links cross, they are the diagonals of a rectangle, so each corner is closer to the ends of the
      other diagonal than these are to each other. */
  lemma CrossingLinkSplits(net: Network, f: Edge, h: Edge)
    requires Valid(net) && IsEdge(net, f) && IsEdge(net, h) && !Uncrossed(net, f, h)
    ensures Shortens(net, f.tail, f.head, h.tail)
  {
    var a, b, c, d := net.pos[f.tail], net.pos[f.head], net.pos[h.tail], net.pos[h.head];
    if f.tail == h.tail || f.tail == h.head || f.head == h.tail || f.head == h.head {
      SharedEndpointNeverCrosses(a, b, c, d);
      assert false;
    }
    KeptIsGloballyEmpty(net, f.tail, f.head);
    KeptIsGloballyEmpty(net, h.tail, h.head);
    CrossingPowersVanish(a, b, c, d);
    AtMostRightAngleShortens(net, f.tail, f.head, h.tail);
  }

  /** c splits the link a-b into two strictly shorter ones. */
  ghost predicate Shortens(net: Network, a: Addr, b: Addr, c: Addr)
    requires a in net.pos && b in net.pos
  {
    && Linked(net, a, c) && Linked(net, c, b)
    && Dist2(net.pos[a], net.pos[c]) < Dist2(net.pos[a], net.pos[b])
    && Dist2(net.pos[c], net.pos[b]) < Dist2(net.pos[a], net.pos[b])
  }

  lemma AtMostRightAngleShortens(net: Network, a: Addr, b: Addr, c: Addr)
    requires Valid(net) && Linked(net, a, b) && c in net.pos && c != a && c != b
    requires Power(net.pos[c], net.pos[a], net.pos[b]) <= 0
    ensures Shortens(net, a, b, c)
  {
    PowerIsCosine(net.pos[c], net.pos[a], net.pos[b]);
    DistanceBasics(net.pos[c], net.pos[a]);
    DistanceBasics(net.pos[c], net.pos[b]);
  }

  lemma UncrossedKeepsSide(net: Network, e: Edge, n: nat, f: Edge)
    requires Valid(net) && Round(Drawing(net), e, n) && IsEdge(net, f)
    requires forall h :: IsEdge(net, h) ==> Uncrossed(net, f, h)
    ensures IsOutside(Drawing(net), e, n, f.tail) == IsOutside(Drawing(net), e, n, f.head)
  {
    EdgeIsJoined(net, f);
    forall h
      ensures ClearOf(Drawing(net), f, h)
    {
      if h in Edges(net) && Joined(Drawing(net), h) {
        UncrossedIsUntouched(net, f, h);
      }
    }
    LinkKeepsSide(Drawing(net), e, n, f);
  }

  /** The ends of every link of the unit-disc graph, kept or pruned, crossed or not, are on the same side of
      the walk: a crossed or pruned one is split into two strictly shorter links. */
  lemma {:induction false} LinkedOnOneSide(net: Network, e: Edge, n: nat, a: Addr, b: Addr)
    requires Valid(net) && Round(Drawing(net), e, n) && Linked(net, a, b)
    ensures IsOutside(Drawing(net), e, n, a) == IsOutside(Drawing(net), e, n, b)
    decreases Dist2(net.pos[a], net.pos[b])
  {
    var f := Edge(a, b);
    DistanceBasics(net.pos[a], net.pos[b]);
    KeptIsGloballyEmpty(net, a, b);
    if IsEdge(net, f) && forall h :: IsEdge(net, h) ==> Uncrossed(net, f, h) {
      UncrossedKeepsSide(net, e, n, f);
    } else {
      var c: Addr;
      if IsEdge(net, f) {
        var h :| IsEdge(net, h) && !Uncrossed(net, f, h);
        CrossingLinkSplits(net, f, h);
        c := h.tail;
      } else {
        c :| c in net.pos && c != a && c != b && Power(net.pos[c], net.pos[a], net.pos[b]) < 0;
        AtMostRightAngleShortens(net, a, b, c);
      }
      DistanceBasics(net.pos[a], net.pos[c]);
      DistanceBasics(net.pos[c], net.pos[b]);
      LinkedOnOneSide(net, e, n, a, c);
      LinkedOnOneSide(net, e, n, c, b);
    }
  }

  lemma {:induction false} PathOnOneSide(net: Network, e: Edge, n: nat, path: seq<Addr>)
    requires Valid(net) && Round(Drawing(net), e, n) && LinkedPath(net, path)
    ensures IsOutside(Drawing(net), e, n, path[0]) == IsOutside(Drawing(net), e, n, path[|path| - 1])
    decreases |path|
  {
    if |path| > 1 {
      LinkedPathRest(net, path);
      LinkedOnOneSide(net, e, n, path[0], path[1]);
      PathOnOneSide(net, e, n, path[1..]);
    }
  }

  /** All nodes of a connected component are on the same side of the walk. */
  lemma ComponentOnOneSide(net: Network, e: Edge, n: nat, a: Addr, b: Addr)
    requires Valid(net) && Round(Drawing(net), e, n) && Reachable(net, a, b)
    ensures IsOutside(Drawing(net), e, n, a) == IsOutside(Drawing(net), e, n, b)
  {
    var path :| LinkedPath(net, path) && Joins(path, a, b);
    PathOnOneSide(net, e, n, path);
  }

  /** If a whole round from x has no way out, the destination is on the other side of it. */
  lemma NoWayOutMeansAcross(net: Network, x: Addr, dst: Addr, n: nat)
    requires Starts(net, x, dst) && FirstRound(Drawing(net), FirstEdge(net, x, net.pos[dst]), n)
    requires NoWayOutUpTo(net, x, dst, n)
    ensures IsOutside(Drawing(net), FirstEdge(net, x, net.pos[dst]), n, x)
            != IsOutside(Drawing(net), FirstEdge(net, x, net.pos[dst]), n, dst)
  {
    var g, first := Drawing(net), FirstEdge(net, x, net.pos[dst]);
    forall e
      ensures SeesGoal(g, net.pos[dst], first, e)
    {
      if e in g.edges && Joined(g, e) {
        GoalInSector(net, x, dst, e);
      }
    }
    forall i | 0 <= i < n
      ensures PassesBy(g, net.pos[x], net.pos[dst], Joining(g, first, i))
    {
      StopsPassBy(net, x, dst, n, i);
    }
    GoalIsAcross(g, first, n, net.pos[dst]);
  }

  /** Recovery finds a way out: if, from some node, both the local minimum x and the destination can be
      reached, the face walk that starts at x meets, before it repeats itself, the destination or a node
      closer to it than x. */
  lemma RecoveryFindsWayOut(net: Network, from: Addr, x: Addr, dst: Addr) returns (i: nat)
    requires Starts(net, x, dst)
    requires Reachable(net, from, x) && Reachable(net, from, dst)
    ensures i < |Edges(net)| && IsEdge(net, FirstEdge(net, x, net.pos[dst]))
    ensures !NoWayOutAt(net, x, dst, i)
  {
    var g, first := Drawing(net), FirstEdge(net, x, net.pos[dst]);
    GabrielIsWellDrawn(net);
    FirstEdgeIsEdge(net, x, dst);
    var p := WalkIsPeriodic(net, first);
    EdgeIsJoined(net, first);
    TrailIsIterate(g, first, p);
    var n := FirstReturn(net, first, p);
    ComponentOnOneSide(net, first, n, from, x);
    ComponentOnOneSide(net, first, n, from, dst);
    if NoWayOutUpTo(net, x, dst, n) {
      NoWayOutMeansAcross(net, x, dst, n);
    }
    i :| i < n && !NoWayOutAt(net, x, dst, i);
  }
}
