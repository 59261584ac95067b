/** The right-hand rule as a walk on directed links: on the Gabriel graph it permutes them. */
module FaceWalk {
  import opened Types
  import opened Veils
  import opened Geometry
  import opened Directions
  import opened Neighbors
  import opened UnitDisc
  import opened Cycles

  // ---------- at one node ----------

  ghost predicate DistinctHeadings(list: seq<Neighbor>, here: Point) {
    forall a, b :: a in list && b in list && a.id != b.id ==>
      !SameHeading(Heading(here, a.pos), Heading(here, b.pos))
  }

  /** Different incoming links leave through different outgoing links. */
  ghost predicate LeavesApart(list: seq<Neighbor>, here: Point) {
    forall a, b :: a in list && b in list && a.id != b.id ==>
      RightHand(list, here, a.pos) != RightHand(list, here, b.pos)
  }

  lemma SameIdSameNeighbor(list: seq<Neighbor>, a: Neighbor, b: Neighbor)
    requires InAddressOrder(list) && a in list && b in list && a.id == b.id
    ensures a == b
  {
    var i :| 0 <= i < |list| && list[i] == a;
    var j :| 0 <= j < |list| && list[j] == b;
  }

  /** If both a and b led to the same link, one of them would lie inside the other's empty sector. */
  lemma RightHandSeparates(list: seq<Neighbor>, here: Point, a: Neighbor, b: Neighbor)
    requires InAddressOrder(list) && DistinctHeadings(list, here)
    requires a in list && b in list && a.id != b.id
    ensures RightHand(list, here, a.pos) != RightHand(list, here, b.pos)
  {
    var c := RightHandRule(list, here, a.pos);
    var d := RightHandRule(list, here, b.pos);
    if c.id == d.id {
      SameIdSameNeighbor(list, c, d);
      var ra, rb, rc := Heading(here, a.pos), Heading(here, b.pos), Heading(here, c.pos);
      TurnLessTotal(ra, rb, rc);
      CrossFlips(ra, rb);
      TurnLessIsCcw(ra, rb, rc);
      TurnLessIsCcw(ra, rc, rb);
    }
  }

  lemma {:induction false} FirstTurnSeesOnlyHeading(r: Vec, q: Vec, here: Point, list: seq<Neighbor>)
    requires NonZero(r) && NonZero(q) && SameHeading(r, q)
    ensures FirstTurn(r, here, list) == FirstTurn(q, here, list)
  {
    if list != [] {
      var n := |list| - 1;
      FirstTurnSeesOnlyHeading(r, q, here, list[..n]);
      var h := Heading(here, list[n].pos);
      TurnSeesOnlyHeading(r, q, h);
      var best := FirstTurn(r, here, list[..n]);
      if best.Some? {
        TurnSeesOnlyHeading(r, q, Heading(here, best.value.pos));
      }
    }
  }

  lemma TurnSeesOnlyHeading(r: Vec, q: Vec, h: Vec)
    requires NonZero(r) && NonZero(q) && SameHeading(r, q)
    ensures Sector(r, h) == Sector(q, h)
    ensures SameHeading(r, h) <==> SameHeading(q, h)
  {
    SameHeadingSameSigns(r, q, h);
    CrossFlips(r, h);
    CrossFlips(q, h);
  }

  lemma SharedHeadingSharesExit(list: seq<Neighbor>, here: Point, a: Neighbor, b: Neighbor)
    requires SameHeading(Heading(here, a.pos), Heading(here, b.pos))
    ensures RightHand(list, here, a.pos) == RightHand(list, here, b.pos)
  {
    FirstTurnSeesOnlyHeading(Heading(here, a.pos), Heading(here, b.pos), here, list);
  }

  lemma DistinctHeadingsLeaveApart(list: seq<Neighbor>, here: Point)
    requires InAddressOrder(list) && DistinctHeadings(list, here)
    ensures LeavesApart(list, here)
  {
    forall a, b | a in list && b in list && a.id != b.id
      ensures RightHand(list, here, a.pos) != RightHand(list, here, b.pos)
    {
      RightHandSeparates(list, here, a, b);
    }
  }

  /** At any node and for any planarised list, the right-hand rule separates incoming links exactly
      when no two neighbours are seen in the same direction. */
  lemma RightHandIsInjectiveIff(list: seq<Neighbor>, here: Point)
    requires InAddressOrder(list)
    ensures LeavesApart(list, here) <==> DistinctHeadings(list, here)
  {
    if DistinctHeadings(list, here) {
      DistinctHeadingsLeaveApart(list, here);
    } else {
      var a, b :| a in list && b in list && a.id != b.id && SameHeading(Heading(here, a.pos), Heading(here, b.pos));
      SharedHeadingSharesExit(list, here, a, b);
    }
  }

  /** Of two neighbours in the same direction the nearer lies inside the farther one's circle. */
  lemma NearerOnRayIsWitness(here: Point, a: Point, b: Point)
    requires a != here && b != here && a != b
    requires SameHeading(Between(here, a), Between(here, b))
    requires Dist2(here, b) <= Dist2(here, a)
    ensures Power(b, here, a) < 0
  {
    var u, v := Between(here, a), Between(here, b);
    PowerFromEnd(b, here, a);
    InFrame(u, v, v);
    CrossFlips(u, v);
    NormPositive(u);
    NormPositive(v);
    if Dot(u, v) == Dot(v, v) {
      PowerIsCosine(here, a, b);
      DistanceBasics(a, b);
    }
  }

  lemma SmallerSquare(x: int, y: int)
    requires x > 0 && y > 0
    ensures x < y ==> x * x < y * y
  {
  }

  /** Kept Gabriel neighbours at different positions lie in different directions. */
  lemma GabrielHeadingsDiffer(list: seq<Neighbor>, here: Point, a: Neighbor, b: Neighbor)
    requires a in list && b in list && a.id != b.id && a.pos != b.pos
    requires Keeps(GRAPH_GABRIEL, list, here, a) && Keeps(GRAPH_GABRIEL, list, here, b)
    ensures !SameHeading(Heading(here, a.pos), Heading(here, b.pos))
  {
    if SameHeading(Heading(here, a.pos), Heading(here, b.pos)) {
      CrossFlips(Between(here, a.pos), Between(here, b.pos));
      assert !Witness(GRAPH_GABRIEL, here, a.pos, b.pos) && !Witness(GRAPH_GABRIEL, here, b.pos, a.pos);
      if Dist2(here, b.pos) <= Dist2(here, a.pos) {
        NearerOnRayIsWitness(here, a.pos, b.pos);
      } else {
        NearerOnRayIsWitness(here, b.pos, a.pos);
      }
    }
  }

  /** The nearest neighbour away from this node always survives the Gabriel test, so recovery finds
      no neighbour only if every live neighbour is co-located with the node. */
  lemma GabrielEmptyIffCoLocated(list: seq<Neighbor>, here: Point)
    requires InAddressOrder(list)
    ensures PlanarNeighbors(GRAPH_GABRIEL, list, here) == [] <==> forall nb :: nb in list ==> nb.pos == here
  {
    PlanarNeighborsAreTheKept(GRAPH_GABRIEL, list, here, |list|);
    assert list[..|list|] == list;
    var kept := PlanarNeighbors(GRAPH_GABRIEL, list, here);
    if exists nb :: nb in list && nb.pos != here {
      var nb :| nb in list && nb.pos != here;
      var a := NearestSurvives(list, here, nb);
      assert a in kept;
    } else if kept != [] {
      assert kept[0] in kept;
    }
  }

  lemma {:induction false} NearestSurvives(list: seq<Neighbor>, here: Point, nb: Neighbor) returns (a: Neighbor)
    requires nb in list && nb.pos != here
    ensures a in list && Keeps(GRAPH_GABRIEL, list, here, a)
    decreases Dist2(here, nb.pos)
  {
    DistanceBasics(here, nb.pos);
    if Keeps(GRAPH_GABRIEL, list, here, nb) {
      a := nb;
    } else {
      var b :| b in list && b.id != nb.id && Witness(GRAPH_GABRIEL, here, nb.pos, b.pos);
      InsideIsCloser(b.pos, here, nb.pos);
      DistanceBasics(here, b.pos);
      a := NearestSurvives(list, here, b);
    }
  }

  // ---------- across the network ----------

  datatype Edge = Edge(tail: Addr, head: Addr)

  /** The neighbours that node a keeps, as its table lists them. */
  ghost function Adjacent(net: Network, a: Addr): seq<Neighbor>
    requires a in net.pos
  {
    KeptLists(net)(a)
  }

  ghost function KeptList(net: Network, a: Addr): seq<Neighbor> {
    if a in net.pos then PlanarNeighbors(GRAPH_GABRIEL, Listed(View(net, a)), net.pos[a]) else []
  }

  ghost function KeptLists(net: Network): Addr -> seq<Neighbor> {
    Veiled<Addr, seq<Neighbor>>((a: Addr) => KeptList(net, a))
  }

  lemma AdjacentIsPlanar(net: Network, a: Addr)
    requires a in net.pos
    ensures Adjacent(net, a) == PlanarNeighbors(GRAPH_GABRIEL, Listed(View(net, a)), net.pos[a])
  {
    LookUp<Addr, seq<Neighbor>>((x: Addr) => KeptList(net, x), a);
  }

  lemma BestAngleIsRightHand(net: Network, a: Addr, prev: Point)
    requires a in net.pos
    ensures BestAngleOf(GRAPH_GABRIEL, View(net, a), prev, net.pos[a]) == RightHand(Adjacent(net, a), net.pos[a], prev)
  {
    AdjacentIsPlanar(net, a);
  }

  lemma AdjacentAreKeptLinks(net: Network, a: Addr)
    requires Valid(net) && a in net.pos
    ensures InAddressOrder(Adjacent(net, a))
    ensures forall nb :: nb in Adjacent(net, a) <==>
              KeptLink(net, GRAPH_GABRIEL, a, nb.id) && nb.pos == net.pos[nb.id]
    ensures DistinctHeadings(Adjacent(net, a), net.pos[a])
  {
    var list := Listed(View(net, a));
    PlanarNeighborsAreTheKept(GRAPH_GABRIEL, list, net.pos[a], |list|);
    assert list[..|list|] == list;
    AdjacentIsPlanar(net, a);
    var kept := Adjacent(net, a);
    forall nb: Neighbor
      ensures nb in kept <==> KeptLink(net, GRAPH_GABRIEL, a, nb.id) && nb.pos == net.pos[nb.id]
    {
      if Linked(net, a, nb.id) {
        KeptByTest(net, GRAPH_GABRIEL, a, nb.id);
      }
    }
    forall p, q | p in kept && q in kept && p.id != q.id
      ensures !SameHeading(Heading(net.pos[a], p.pos), Heading(net.pos[a], q.pos))
    {
      assert p.pos != q.pos;
      GabrielHeadingsDiffer(list, net.pos[a], p, q);
    }
  }

  ghost predicate IsEdge(net: Network, e: Edge) {
    KeptLink(net, GRAPH_GABRIEL, e.tail, e.head)
  }

  ghost function Edges(net: Network): set<Edge> {
    set a, b | a in net.pos && b in net.pos && IsEdge(net, Edge(a, b)) :: Edge(a, b)
  }

  /** One recovery hop: having come along e, leave its head by the right-hand rule. */
  ghost function NextEdge(net: Network, e: Edge): Edge {
    if IsEdge(net, e) then
      Edge(e.head, RightHand(Adjacent(net, e.head), net.pos[e.head], net.pos[e.tail]))
    else e
  }

  /** The hop never runs into a dead end: it leaves along a kept link. */
  lemma NextEdgeIsEdge(net: Network, e: Edge)
    requires Valid(net) && IsEdge(net, e)
    ensures IsEdge(net, NextEdge(net, e)) && NextEdge(net, e).tail == e.head
  {
    TailIsAdjacent(net, e);
    AdjacentAreKeptLinks(net, e.head);
    var chosen := RightHandRule(Adjacent(net, e.head), net.pos[e.head], net.pos[e.tail]);
  }

  /** The node a link came from is among the neighbours kept at its head. */
  lemma TailIsAdjacent(net: Network, e: Edge)
    requires Valid(net) && IsEdge(net, e)
    ensures Neighbor(e.tail, net.pos[e.tail]) in Adjacent(net, e.head)
    ensures InAddressOrder(Adjacent(net, e.head)) && DistinctHeadings(Adjacent(net, e.head), net.pos[e.head])
  {
    GabrielIsSymmetric(net, e.tail, e.head);
    AdjacentAreKeptLinks(net, e.head);
  }

  lemma NextEdgeIsInjective(net: Network, e: Edge, f: Edge)
    requires Valid(net) && IsEdge(net, e) && IsEdge(net, f)
    requires NextEdge(net, e) == NextEdge(net, f)
    ensures e == f
  {
    if e.tail != f.tail {
      TailIsAdjacent(net, e);
      TailIsAdjacent(net, f);
      RightHandSeparates(Adjacent(net, e.head), net.pos[e.head],
                         Neighbor(e.tail, net.pos[e.tail]), Neighbor(f.tail, net.pos[f.tail]));
    }
  }

  ghost function Walk(net: Network): Edge -> Edge {
    e => NextEdge(net, e)
  }

  /** The recovery walk permutes the finitely many directed kept links ... */
  lemma WalkIsPermutation(net: Network)
    requires Valid(net)
    ensures Closed(Walk(net), Edges(net)) && InjectiveOn(Walk(net), Edges(net))
    ensures |Edges(net)| <= |net.pos| * |net.pos|
  {
    forall e | e in Edges(net)
      ensures Walk(net)(e) in Edges(net)
    {
      NextEdgeIsEdge(net, e);
    }
    forall e, f | e in Edges(net) && f in Edges(net) && Walk(net)(e) == Walk(net)(f)
      ensures e == f
    {
      NextEdgeIsInjective(net, e, f);
    }
    EdgeCount(net);
  }

  lemma EdgeCount(net: Network)
    ensures |Edges(net)| <= |net.pos| * |net.pos|
  {
    var all := Pairs(net.pos.Keys, net.pos.Keys);
    assert Edges(net) <= all;
    SubsetIsNoLarger(Edges(net), all);
    PairsCount(net.pos.Keys, net.pos.Keys);
  }

  ghost function Pairs(s: set<Addr>, t: set<Addr>): set<Edge> {
    set a, b | a in s && b in t :: Edge(a, b)
  }

  lemma {:induction false} PairsCount(s: set<Addr>, t: set<Addr>)
    ensures |Pairs(s, t)| == |s| * |t|
    decreases |s|
  {
    if s == {} {
      assert Pairs(s, t) == {};
    } else {
      var x :| x in s;
      var rest := s - {x};
      PairsCount(rest, t);
      RowCount(x, t);
      PairsSplit(x, rest, t);
      assert s == rest + {x};
    }
  }

  lemma PairsSplit(x: Addr, rest: set<Addr>, t: set<Addr>)
    requires x !in rest
    ensures |Pairs(rest + {x}, t)| == |Pairs(rest, t)| + |Pairs({x}, t)|
  {
    assert Pairs(rest + {x}, t) == Pairs(rest, t) + Pairs({x}, t);
    assert Pairs(rest, t) !! Pairs({x}, t);
  }

  lemma {:induction false} RowCount(x: Addr, t: set<Addr>)
    ensures |Pairs({x}, t)| == |t|
    decreases |t|
  {
    if t == {} {
      assert Pairs({x}, t) == {};
    } else {
      var y :| y in t;
      RowCount(x, t - {y});
      assert Pairs({x}, t) == Pairs({x}, t - {y}) + {Edge(x, y)};
    }
  }

  /** After p more hops the walk that started at e is on the same link again. */
  ghost predicate RepeatsAfter(net: Network, e: Edge, p: nat, k: nat) {
    Iterate(Walk(net), e, k + p) == Iterate(Walk(net), e, k)
  }

  lemma WalkStaysOnLinks(net: Network, e: Edge, k: nat)
    requires Valid(net) && IsEdge(net, e)
    ensures IsEdge(net, Iterate(Walk(net), e, k))
  {
    WalkIsPermutation(net);
    assert e in Edges(net);
    IterateStaysInside(Walk(net), Edges(net), e, k);
  }

  /** ... so every recovery walk is purely periodic: it returns to its first real link, in as many
      steps as there are directed links or fewer, and repeats itself from there. */
  lemma WalkIsPeriodic(net: Network, e: Edge) returns (p: nat)
    requires Valid(net) && IsEdge(net, e)
    ensures 1 <= p <= |Edges(net)| <= |net.pos| * |net.pos|
    ensures Iterate(Walk(net), e, p) == e
    ensures forall k: nat :: RepeatsAfter(net, e, p, k)
  {
    WalkIsPermutation(net);
    assert e in Edges(net);
    p := OrbitCloses(Walk(net), Edges(net), e);
    forall k: nat
      ensures RepeatsAfter(net, e, p, k)
    {
      OrbitRepeats(Walk(net), e, p, k);
    }
  }

  /** A node with a single kept neighbour sends the packet back where it came from. */
  lemma DegreeOneBounces(net: Network, e: Edge)
    requires Valid(net) && IsEdge(net, e) && |Adjacent(net, e.head)| == 1
    ensures NextEdge(net, e) == Edge(e.head, e.tail)
  {
    TailIsAdjacent(net, e);
    var list, back := Adjacent(net, e.head), Neighbor(e.tail, net.pos[e.tail]);
    var chosen := RightHandRule(list, net.pos[e.head], net.pos[e.tail]);
  }
}
