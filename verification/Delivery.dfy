/** Greedy forwarding with recovery on the Gabriel graph delivers whatever can be delivered. */
module Delivery {
  import opened Types
  import opened Geometry
  import opened Neighbors
  import opened UnitDisc
  import opened Cycles
  import opened FaceWalk
  import opened Routing
  import opened Runs
  import opened Fates
  import opened WaysOut

  // ---------- where recovery began ----------

  /** The packet is in the recovery that began at x, j links ago. */
  ghost predicate Tracks(sc: Scene, from: Addr, s: Hop, x: Addr, j: nat) {
    && Starts(sc.net, x, sc.dst) && Reachable(sc.net, from, x)
    && s.hdr.inRec == 1 && s.hdr.rec == sc.net.pos[x]
    && OnLink(sc, s, Iterate(Walk(sc.net), FirstEdge(sc.net, x, sc.net.pos[sc.dst]), j))
  }

  ghost predicate Tracked(sc: Scene, from: Addr, s: Hop) {
    s.hdr.inRec == 0 || exists x, j :: Tracks(sc, from, s, x, j)
  }

  ghost predicate Located(sc: Scene, D: Point) {
    sc.dst in sc.net.pos && sc.net.pos[sc.dst] == D
  }

  /** A packet enters recovery at a local minimum, and leaves it on the first link from there. */
  lemma EnteringIsAtMinimum(sc: Scene, D: Point, s: Hop)
    requires Good(sc, D, s) && s.at != sc.dst && (s.hdr.inRec == 0 || Ends(sc, s))
    requires Advance(sc, s).hdr.inRec == 1
    ensures LocalMinimum(sc.net, s.at, D)
    ensures Advance(sc, s).at == FirstEdge(sc.net, s.at, D).head
  {
    DecideIsRuling(sc, s);
    EnteredOnLink(sc, D, s);
    var view, here := View(sc.net, s.at), sc.net.pos[s.at];
    BestNeighborIsArgmin(view, D, here);
    forall a | Linked(sc.net, s.at, a)
      ensures NoCloser(sc.net, s.at, D, a)
    {
      assert a in view;
    }
  }

  lemma WalkGoesOn(net: Network, e: Edge, j: nat)
    ensures Iterate(Walk(net), e, j + 1) == NextEdge(net, Iterate(Walk(net), e, j))
    ensures Iterate(Walk(net), e, 0) == e
  {
    IterateStep(Walk(net), e, j);
  }

  lemma TrackedOnward(sc: Scene, D: Point, from: Addr, s: Hop, x: Addr, j: nat)
    requires Good(sc, D, s) && Located(sc, D) && Tracks(sc, from, s, x, j) && !Ends(sc, s)
    ensures Tracks(sc, from, Advance(sc, s), x, j + 1)
  {
    var first := FirstEdge(sc.net, x, sc.net.pos[sc.dst]);
    WalkGoesOn(sc.net, first, j);
    RecoveryHopFollowsWalk(sc, D, s, Iterate(Walk(sc.net), first, j));
  }

  lemma TrackedFromHere(sc: Scene, D: Point, from: Addr, s: Hop)
    requires Good(sc, D, s) && Located(sc, D) && s.at != sc.dst && (s.hdr.inRec == 0 || Ends(sc, s))
    requires Reachable(sc.net, from, s.at) && Advance(sc, s).hdr.inRec == 1
    ensures Tracks(sc, from, Advance(sc, s), s.at, 0)
  {
    EnteringIsAtMinimum(sc, D, s);
    EnteredOnLink(sc, D, s);
    GoodMovesOn(sc, D, s);
    HopAndPotential(sc, D, s);
    WalkGoesOn(sc.net, FirstEdge(sc.net, s.at, D), 0);
  }

  lemma TrackedHop(sc: Scene, D: Point, from: Addr, s: Hop)
    requires Good(sc, D, s) && Located(sc, D)
    requires Tracked(sc, from, s) && Reachable(sc.net, from, s.at)
    ensures Tracked(sc, from, Advance(sc, s))
  {
    if s.at == sc.dst {
      assert Advance(sc, s) == s;
    } else if s.hdr.inRec == 1 && !Ends(sc, s) {
      var x, j :| Tracks(sc, from, s, x, j);
      TrackedOnward(sc, D, from, s, x, j);
    } else if Advance(sc, s).hdr.inRec == 1 {
      TrackedFromHere(sc, D, from, s);
    } else {
      GoodMovesOn(sc, D, s);
    }
  }

  lemma {:induction false} TrackedForever(sc: Scene, D: Point, s: Hop, k: nat)
    requires Good(sc, D, s) && Located(sc, D) && s.hdr.inRec == 0
    ensures Tracked(sc, s.at, After(sc, s, k))
  {
    if k == 0 {
      NextAfter(sc, s, 0);
    } else {
      TrackedForever(sc, D, s, k - 1);
      GoodForever(sc, D, s, k - 1);
      StaysReachable(sc, D, s, k - 1);
      TrackedHop(sc, D, s.at, After(sc, s, k - 1));
      NextAfter(sc, s, k - 1);
    }
  }

  // ---------- no trap for a reachable destination ----------

  lemma NotOverIsNoWayOut(sc: Scene, D: Point, s: Hop, x: Addr, e: Edge, i: nat, m: nat)
    requires Located(sc, D) && s.hdr.dst == D && s.hdr.inRec == 1 && x in sc.net.pos && s.hdr.rec == sc.net.pos[x]
    requires NotYetOver(sc, s, e, m)
    requires Iterate(Walk(sc.net), e, m) == Iterate(Walk(sc.net), FirstEdge(sc.net, x, D), i)
    ensures NoWayOutAt(sc.net, x, sc.dst, i)
  {
  }

  /** A packet that has been tracked from where its destination can be reached is not trapped. */
  lemma ReachableIsNotTrapped(sc: Scene, D: Point, from: Addr, s: Hop)
    requires Good(sc, D, s) && Located(sc, D)
    requires Tracked(sc, from, s) && Reachable(sc.net, from, sc.dst)
    ensures !Circulates(sc, s)
  {
    if p: nat :| CirculatesWith(sc, s, p) {
      NextAfter(sc, s, 0);
      assert StillLost(sc, s, After(sc, s, 0));
      var x, j :| Tracks(sc, from, s, x, j);
      var first := FirstEdge(sc.net, x, D);
      var e := Iterate(Walk(sc.net), first, j);
      TrappedIff(sc, D, s, e);
      var i := RecoveryFindsWayOut(sc.net, from, x, sc.dst);
      var n := WalkIsPeriodic(sc.net, first);
      var m := ComesAround(Walk(sc.net), first, n, j, i);
      assert NotYetOver(sc, s, e, m);
      NotOverIsNoWayOut(sc, D, s, x, e, i, m);
    }
  }

  // ---------- the delivery theorem ----------

  lemma LonelyStays(sc: Scene, s: Hop)
    requires Valid(sc.net) && s.at in sc.net.pos && !HasNeighbor(sc.net, s.at)
    ensures Advance(sc, s) == s
  {
    DecideIsRuling(sc, s);
    TransmitCases(sc.graph, View(sc.net, s.at), sc.net.pos[s.at], sc.dst, s.hdr, sc.fix);
    if Decide(sc, s).Transmit? {
      assert Linked(sc.net, s.at, Decide(sc, s).nextHop);
    }
  }

  lemma {:induction false} LonelyForever(sc: Scene, s: Hop, k: nat)
    requires Valid(sc.net) && s.at in sc.net.pos && !HasNeighbor(sc.net, s.at)
    ensures After(sc, s, k) == s
  {
    LonelyStays(sc, s);
    NextAfter(sc, s, if k == 0 then 0 else k - 1);
    if k > 0 {
      LonelyForever(sc, s, k - 1);
    }
  }

  lemma LonelyReachesItself(net: Network, a: Addr, b: Addr)
    requires !HasNeighbor(net, a) && Reachable(net, a, b)
    ensures a == b
  {
    var p :| LinkedPath(net, p) && Joins(p, a, b);
    if |p| > 1 {
      LinkedPathRest(net, p);
    }
  }

  ghost predicate NeverArrives(sc: Scene, s: Hop) {
    forall j: nat :: After(sc, s, j).at != sc.dst
  }

  lemma UnreachableNeverArrives(sc: Scene, D: Point, s: Hop)
    requires Valid(sc.net) && sc.graph == GRAPH_GABRIEL && s.at in sc.net.pos
    requires Agreed(sc, D, s) && s.hdr.inRec == 0 && !Reachable(sc.net, s.at, sc.dst)
    ensures NeverArrives(sc, s)
  {
    assert LinkedPath(sc.net, [s.at]) && Joins([s.at], s.at, s.at);
    forall j: nat
      ensures After(sc, s, j).at != sc.dst
    {
      if HasNeighbor(sc.net, s.at) {
        StaysReachable(sc, D, s, j);
      } else {
        LonelyForever(sc, s, j);
      }
    }
  }

  lemma ReachableArrives(sc: Scene, D: Point, s: Hop) returns (k: nat)
    requires Good(sc, D, s) && Located(sc, D) && s.hdr.inRec == 0
    requires Reachable(sc.net, s.at, sc.dst)
    ensures k <= |sc.net.pos| * (|Edges(sc.net)| + 1) && After(sc, s, k).at == sc.dst
  {
    k := DeliveredOrTrapped(sc, D, s);
    TrackedForever(sc, D, s, k);
    GoodForever(sc, D, s, k);
    ReachableIsNotTrapped(sc, D, s.at, After(sc, s, k));
  }

  /** Delivery: a packet that starts greedily is delivered,
      within n laps of e + 1 hops, exactly when its destination can be reached at all. */
  lemma DeliveredIffReachable(sc: Scene, D: Point, s: Hop) returns (k: nat)
    requires Valid(sc.net) && sc.graph == GRAPH_GABRIEL && Located(sc, D)
    requires s.at in sc.net.pos && Agreed(sc, D, s) && s.hdr.inRec == 0
    ensures k <= |sc.net.pos| * (|Edges(sc.net)| + 1)
    ensures if Reachable(sc.net, s.at, sc.dst) then After(sc, s, k).at == sc.dst else NeverArrives(sc, s)
  {
    k := 0;
    NextAfter(sc, s, 0);
    LapsMultiply(|sc.net.pos|, |Edges(sc.net)| + 1);
    if !Reachable(sc.net, s.at, sc.dst) {
      UnreachableNeverArrives(sc, D, s);
    } else if HasNeighbor(sc.net, s.at) {
      k := ReachableArrives(sc, D, s);
    } else {
      LonelyReachesItself(sc.net, s.at, sc.dst);
    }
  }

  ghost predicate EndsCirculating(sc: Scene, s: Hop) {
    exists k: nat :: Circulates(sc, After(sc, s, k))
  }

  /** A packet that starts greedily at a node with a neighbour ends up circulating exactly when its
      destination cannot be reached. */
  lemma CirculatesIffUnreachable(sc: Scene, D: Point, s: Hop)
    requires Good(sc, D, s) && Located(sc, D) && s.hdr.inRec == 0
    ensures EndsCirculating(sc, s) <==> !Reachable(sc.net, s.at, sc.dst)
  {
    if k: nat :| Circulates(sc, After(sc, s, k)) {
      TrackedForever(sc, D, s, k);
      GoodForever(sc, D, s, k);
      if Reachable(sc.net, s.at, sc.dst) {
        ReachableIsNotTrapped(sc, D, s.at, After(sc, s, k));
      }
    }
    if !Reachable(sc.net, s.at, sc.dst) {
      var n := UnreachableCirculates(sc, D, s);
    }
  }

  // ---------- crossings ----------

  /** No two kept links cross. */
  ghost predicate Planar(net: Network) {
    forall e, f :: IsEdge(net, e) && IsEdge(net, f) ==> Uncrossed(net, e, f)
  }

  /** Four nodes at the corners of a rectangle, with both diagonals within range and no node inside its
      circle. */
  ghost predicate EmptyRectangle(net: Network, a: Addr, b: Addr, c: Addr, d: Addr) {
    && Linked(net, a, b) && Linked(net, c, d) && FormRectangle(net, a, b, c, d)
    && EmptyDisc(net, a, b)
  }

  lemma RectangleCornersDiffer(a: Point, b: Point, c: Point, d: Point)
    requires RectangleWithDiagonals(a, b, c, d)
    ensures a != c && a != d && b != c && b != d
  {
    EndsAreOnTheLine(a, b);
  }

  lemma EmptyRectangleCrosses(net: Network, a: Addr, b: Addr, c: Addr, d: Addr)
    requires Valid(net) && EmptyRectangle(net, a, b, c, d)
    ensures IsEdge(net, Edge(a, b)) && IsEdge(net, Edge(c, d)) && !Uncrossed(net, Edge(a, b), Edge(c, d))
  {
    RectangleCornersDiffer(net.pos[a], net.pos[b], net.pos[c], net.pos[d]);
    CrossingKeptLinksAreRectangles(net, a, b, c, d);
  }

  lemma CrossingIsEmptyRectangle(net: Network, e: Edge, f: Edge)
    requires Valid(net) && IsEdge(net, e) && IsEdge(net, f)
    ensures Uncrossed(net, e, f) || EmptyRectangle(net, e.tail, e.head, f.tail, f.head)
  {
    if e.tail == f.tail || e.tail == f.head || e.head == f.tail || e.head == f.head {
      SharedEndpointNeverCrosses(net.pos[e.tail], net.pos[e.head], net.pos[f.tail], net.pos[f.head]);
    } else {
      CrossingKeptLinksAreRectangles(net, e.tail, e.head, f.tail, f.head);
    }
  }

  /** The condition is one about rectangles alone. */
  lemma PlanarIffNoEmptyRectangle(net: Network)
    requires Valid(net)
    ensures Planar(net) <==> !exists a, b, c, d :: EmptyRectangle(net, a, b, c, d)
  {
    if a, b, c, d :| EmptyRectangle(net, a, b, c, d) {
      EmptyRectangleCrosses(net, a, b, c, d);
      assert !Uncrossed(net, Edge(a, b), Edge(c, d));
    } else {
      forall e, f | IsEdge(net, e) && IsEdge(net, f)
        ensures Uncrossed(net, e, f)
      {
        CrossingIsEmptyRectangle(net, e, f);
      }
    }
  }
}
