/** What the neighbour table computes, as functions of the live positions listed in address order. */
module Neighbors {
  import opened Types
  import opened Geometry
  import opened Directions

  datatype Neighbor = Neighbor(id: Addr, pos: Point)

  /** Planarisation selected by the GraphType attribute: 0 none, 1 Gabriel, 2 relative neighbourhood. */
  const GRAPH_NONE: U8 := 0
  const GRAPH_GABRIEL: U8 := 1
  const GRAPH_RNG: U8 := 2

  // ---------- listing a view in address order ----------

  predicate IsLeast(x: Addr, s: set<Addr>) {
    x in s && forall y :: y in s ==> x <= y
  }

  lemma {:induction false} LeastExists(s: set<Addr>)
    requires s != {}
    ensures exists least :: IsLeast(least, s)
    decreases |s|
  {
    var x :| x in s;
    var rest := s - {x};
    assert s == rest + {x};
    if rest == {} {
      assert IsLeast(x, s);
    } else {
      LeastExists(rest);
      var m :| IsLeast(m, rest);
      assert IsLeast(if x <= m then x else m, s);
    }
  }

  /** The keys of a map in the order in which std::map visits them. */
  function Ascending(s: set<Addr>): (r: seq<Addr>)
    decreases |s|
  {
    if s == {} then []
    else
      LeastExists(s);
      var x :| IsLeast(x, s);
      [x] + Ascending(s - {x})
  }

  ghost predicate ListsInOrder(r: seq<Addr>, s: set<Addr>) {
    && |r| == |s|
    && (forall x :: x in r <==> x in s)
    && (forall i, j :: 0 <= i < j < |r| ==> r[i] < r[j])
  }

  lemma {:induction false} AscendingListsTheSet(s: set<Addr>)
    ensures ListsInOrder(Ascending(s), s)
    decreases |s|
  {
    if s != {} {
      LeastExists(s);
      var x :| IsLeast(x, s) && Ascending(s) == [x] + Ascending(s - {x});
      AscendingListsTheSet(s - {x});
      LeastGoesFirst(x, s, Ascending(s - {x}));
    }
  }

  lemma LeastGoesFirst(x: Addr, s: set<Addr>, rest: seq<Addr>)
    requires IsLeast(x, s) && ListsInOrder(rest, s - {x})
    ensures ListsInOrder([x] + rest, s)
  {
    var r := [x] + rest;
    forall i, j | 0 <= i < j < |r|
      ensures r[i] < r[j]
    {
      assert r[j] == rest[j - 1] && rest[j - 1] in rest;
      if i > 0 {
        assert r[i] == rest[i - 1];
      }
    }
    forall y
      ensures y in r <==> y in s
    {
      assert y in r <==> y == x || y in rest;
    }
  }

  function Listed(view: map<Addr, Point>): (list: seq<Neighbor>)
    ensures |list| == |view|
    ensures InAddressOrder(list)
    ensures forall nb: Neighbor :: nb in list <==> nb.id in view && view[nb.id] == nb.pos
  {
    var keys := Ascending(view.Keys);
    AscendingListsTheSet(view.Keys);
    assert forall k :: 0 <= k < |keys| ==> keys[k] in view.Keys;
    var list := Label(keys, view);
    list
  }

  function Label(keys: seq<Addr>, view: map<Addr, Point>): (list: seq<Neighbor>)
    requires forall k :: 0 <= k < |keys| ==> keys[k] in view
    ensures |list| == |keys|
    ensures forall k :: 0 <= k < |keys| ==> list[k] == Neighbor(keys[k], view[keys[k]])
  {
    seq(|keys|, k requires 0 <= k < |keys| => Neighbor(keys[k], view[keys[k]]))
  }

  ghost predicate InAddressOrder(list: seq<Neighbor>) {
    forall i, j :: 0 <= i < j < |list| ==> list[i].id < list[j].id
  }

  // ---------- greedy choice ----------

  /** The first of the neighbours that come closest to the destination. */
  ghost function Closest(list: seq<Neighbor>, dest: Point): (best: Neighbor)
    requires list != []
    ensures best in list
  {
    var last := list[|list| - 1];
    if |list| == 1 then last
    else
      var best := Closest(list[..|list| - 1], dest);
      if Dist2(best.pos, dest) > Dist2(last.pos, dest) then last else best
  }

  /** The greedy next hop: the closest neighbour if it is closer than this node, else no address. */
  ghost function BestNeighborOf(list: seq<Neighbor>, dest: Point, here: Point): Addr {
    if list == [] then NO_ADDR
    else
      var best := Closest(list, dest);
      if Dist2(here, dest) > Dist2(best.pos, dest) then best.id else NO_ADDR
  }

  /** Closest is the lowest-address minimiser of the distance to the destination. */
  lemma {:induction false} ClosestIsLeastMinimiser(list: seq<Neighbor>, dest: Point)
    requires list != [] && InAddressOrder(list)
    ensures var best := Closest(list, dest);
            forall nb :: nb in list ==>
              Dist2(best.pos, dest) < Dist2(nb.pos, dest)
              || (Dist2(best.pos, dest) == Dist2(nb.pos, dest) && best.id <= nb.id)
  {
    var n := |list| - 1;
    if n > 0 {
      ClosestIsLeastMinimiser(list[..n], dest);
      assert forall nb :: nb in list ==> nb in list[..n] || nb == list[n];
      assert forall nb :: nb in list[..n] ==> nb.id < list[n].id;
    }
  }

  /** BestNeighbor's contract: a real address exactly when some neighbour is strictly closer to the
      destination than this node, and then the lowest-address one among the closest. */
  lemma BestNeighborIsArgmin(view: map<Addr, Point>, dest: Point, here: Point)
    requires NO_ADDR !in view
    ensures var id := BestNeighborOf(Listed(view), dest, here);
            && (id == NO_ADDR <==> forall a :: a in view ==> Dist2(here, dest) <= Dist2(view[a], dest))
            && (id != NO_ADDR ==>
                  && id in view
                  && Dist2(view[id], dest) < Dist2(here, dest)
                  && forall a :: a in view ==>
                       Dist2(view[id], dest) < Dist2(view[a], dest)
                       || (Dist2(view[id], dest) == Dist2(view[a], dest) && id <= a))
  {
    var list := Listed(view);
    if list != [] {
      ClosestIsLeastMinimiser(list, dest);
      var best := Closest(list, dest);
      forall a | a in view
        ensures Dist2(best.pos, dest) < Dist2(view[a], dest)
                || (Dist2(best.pos, dest) == Dist2(view[a], dest) && best.id <= a)
      {
        assert Neighbor(a, view[a]) in list;
      }
    } else {
      assert view.Keys == {};
    }
  }

  // ---------- planarised neighbour lists ----------

  /** The midpoint test of GetGabrielNeighbors, without its square roots: b lies strictly inside
      the circle on diameter here-a. */
  ghost predicate GabrielWitness(here: Point, a: Point, b: Point) {
    Power(b, here, a) < 0
  }

  /** The test of GetRngNeighbors: b is closer to a than the longer of here-a and here-b. */
  ghost predicate RngWitness(here: Point, a: Point, b: Point) {
    Dist2(a, b) < Dist2(here, a) || Dist2(a, b) < Dist2(here, b)
  }

  ghost predicate Witness(graph: U8, here: Point, a: Point, b: Point) {
    (graph == GRAPH_GABRIEL && GabrielWitness(here, a, b)) || (graph == GRAPH_RNG && RngWitness(here, a, b))
  }

  ghost predicate Pruned(graph: U8, list: seq<Neighbor>, here: Point, a: Neighbor) {
    exists b :: b in list && b.id != a.id && Witness(graph, here, a.pos, b.pos)
  }

  /** An unknown graph type keeps nothing; graph type 0 keeps even co-located neighbours. */
  ghost predicate Keeps(graph: U8, list: seq<Neighbor>, here: Point, a: Neighbor) {
    graph == GRAPH_NONE
    || ((graph == GRAPH_GABRIEL || graph == GRAPH_RNG) && a.pos != here && !Pruned(graph, list, here, a))
  }

  /** The kept ones among the first k neighbours. */
  ghost function KeptUpTo(graph: U8, list: seq<Neighbor>, here: Point, k: nat): (kept: seq<Neighbor>)
    requires k <= |list|
  {
    if k == 0 then []
    else
      var kept := KeptUpTo(graph, list, here, k - 1);
      if Keeps(graph, list, here, list[k - 1]) then kept + [list[k - 1]] else kept
  }

  ghost function PlanarNeighbors(graph: U8, list: seq<Neighbor>, here: Point): seq<Neighbor> {
    KeptUpTo(graph, list, here, |list|)
  }

  /** The planar list holds exactly the kept neighbours, still in address order. */
  lemma {:induction false} PlanarNeighborsAreTheKept(graph: U8, list: seq<Neighbor>, here: Point, k: nat)
    requires k <= |list| && InAddressOrder(list)
    ensures var kept := KeptUpTo(graph, list, here, k);
            && InAddressOrder(kept)
            && (forall nb :: nb in kept <==> nb in list[..k] && Keeps(graph, list, here, nb))
  {
    if k > 0 {
      PlanarNeighborsAreTheKept(graph, list, here, k - 1);
      assert list[..k] == list[..k - 1] + [list[k - 1]];
      var before := KeptUpTo(graph, list, here, k - 1);
      forall i | 0 <= i < |before|
        ensures before[i].id < list[k - 1].id
      {
        assert before[i] in list[..k - 1];
      }
    }
  }

  // ---------- right-hand rule ----------

  /** The neighbour reached first when turning counter-clockwise from direction r, ignoring those
      that lie in direction r itself; the first such neighbour in list order. */
  ghost function FirstTurn(r: Vec, here: Point, list: seq<Neighbor>): (best: Option<Neighbor>)
    ensures best.Some? ==> best.value in list
  {
    if list == [] then None
    else
      var best := FirstTurn(r, here, list[..|list| - 1]);
      var c := list[|list| - 1];
      if SameHeading(r, Heading(here, c.pos)) then best
      else if best.None? || TurnLess(r, Heading(here, c.pos), Heading(here, best.value.pos)) then Some(c)
      else best
  }

  /** The next hop of recovery mode, from an already planarised list. */
  ghost function RightHand(list: seq<Neighbor>, here: Point, prev: Point): Addr {
    if list == [] then NO_ADDR
    else match FirstTurn(Heading(here, prev), here, list)
      case None => list[0].id
      case Some(nb) => nb.id
  }

  ghost function BestAngleOf(graph: U8, view: map<Addr, Point>, prev: Point, here: Point): Addr {
    RightHand(PlanarNeighbors(graph, Listed(view), here), here, prev)
  }

  lemma {:induction false} FirstTurnIsLeast(r: Vec, here: Point, list: seq<Neighbor>)
    requires NonZero(r)
    ensures var best := FirstTurn(r, here, list);
            && (best.None? <==> forall nb :: nb in list ==> SameHeading(r, Heading(here, nb.pos)))
            && (best.Some? ==>
                  && !SameHeading(r, Heading(here, best.value.pos))
                  && forall nb :: nb in list && !SameHeading(r, Heading(here, nb.pos)) ==>
                       !TurnLess(r, Heading(here, nb.pos), Heading(here, best.value.pos)))
  {
    if list != [] {
      var n := |list| - 1;
      FirstTurnIsLeast(r, here, list[..n]);
      var before, best, c := FirstTurn(r, here, list[..n]), FirstTurn(r, here, list), list[n];
      assert forall nb :: nb in list ==> nb in list[..n] || nb == c;
      assert c in list;
      if best == Some(c) {
        TurnLessTotal(r, Heading(here, c.pos), Heading(here, c.pos));
        forall nb | nb in list[..n] && !SameHeading(r, Heading(here, nb.pos))
          ensures !TurnLess(r, Heading(here, nb.pos), Heading(here, c.pos))
        {
          if TurnLess(r, Heading(here, nb.pos), Heading(here, c.pos)) {
            TurnLessTransitive(r, Heading(here, nb.pos), Heading(here, c.pos), Heading(here, before.value.pos));
          }
        }
      }
    }
  }

  /** a and b are seen in the same direction. */
  ghost predicate SeenAlike(here: Point, a: Neighbor, b: Neighbor) {
    SameHeading(Heading(here, a.pos), Heading(here, b.pos))
  }

  /** Of several neighbours in its direction, the one reached first is that of the lowest address: a later
      one does not make a smaller turn. */
  lemma {:induction false} FirstTurnIsFirst(r: Vec, here: Point, list: seq<Neighbor>)
    requires NonZero(r) && InAddressOrder(list)
    ensures var best := FirstTurn(r, here, list);
            best.Some? ==> forall nb :: nb in list && SeenAlike(here, nb, best.value) ==> best.value.id <= nb.id
  {
    if list != [] {
      var n := |list| - 1;
      var best, c := FirstTurn(r, here, list), list[n];
      FirstTurnIsFirst(r, here, list[..n]);
      assert forall nb :: nb in list ==> nb in list[..n] || nb == c;
      assert forall nb :: nb in list[..n] ==> nb.id < c.id;
      if best == Some(c) {
        forall nb | nb in list[..n]
          ensures !SeenAlike(here, nb, c)
        {
          EarlierIsElsewhere(r, here, list[..n], nb, c);
        }
      }
    }
  }

  /** If c improves on a list, nobody in that list is in its direction. */
  lemma EarlierIsElsewhere(r: Vec, here: Point, list: seq<Neighbor>, nb: Neighbor, c: Neighbor)
    requires NonZero(r) && nb in list && !SameHeading(r, Heading(here, c.pos))
    requires var best := FirstTurn(r, here, list);
             best.None? || TurnLess(r, Heading(here, c.pos), Heading(here, best.value.pos))
    ensures !SeenAlike(here, nb, c)
  {
    FirstTurnIsLeast(r, here, list);
    var best := FirstTurn(r, here, list);
    if SeenAlike(here, nb, c) {
      var w := if best.Some? then Heading(here, best.value.pos) else r;
      TurnLessSeesHeading(r, Heading(here, nb.pos), Heading(here, c.pos), w);
    }
  }

  /** The right-hand rule: with at least one planar neighbour the choice is one of them; if any lies
      off the incoming direction, so does the choice, and no planar neighbour lies strictly inside
      the counter-clockwise sector from the incoming edge to the chosen one; if all lie along the
      incoming direction, the choice is the first in address order. Of the neighbours in its own direction
      the choice has the lowest address. */
  lemma RightHandRule(list: seq<Neighbor>, here: Point, prev: Point) returns (chosen: Neighbor)
    requires list != []
    ensures chosen in list && chosen.id == RightHand(list, here, prev)
    ensures var r := Heading(here, prev);
            if forall nb :: nb in list ==> SameHeading(r, Heading(here, nb.pos)) then
              chosen == list[0]
            else
              && !SameHeading(r, Heading(here, chosen.pos))
              && forall nb :: nb in list && !SameHeading(r, Heading(here, nb.pos)) ==>
                   !Ccw(r, Heading(here, nb.pos), Heading(here, chosen.pos))
    ensures InAddressOrder(list) ==>
              forall nb :: nb in list && SeenAlike(here, nb, chosen) ==> chosen.id <= nb.id
  {
    var r := Heading(here, prev);
    FirstTurnIsLeast(r, here, list);
    if InAddressOrder(list) {
      FirstTurnIsFirst(r, here, list);
    }
    match FirstTurn(r, here, list)
    case None =>
      chosen := list[0];
    case Some(best) =>
      chosen := best;
      forall nb | nb in list && !SameHeading(r, Heading(here, nb.pos))
        ensures !Ccw(r, Heading(here, nb.pos), Heading(here, chosen.pos))
      {
        TurnLessIsCcw(r, Heading(here, nb.pos), Heading(here, chosen.pos));
      }
  }

  /** A co-located point is seen due east, among the points that lie there. */
  lemma CoLocatedIsEast(here: Point, p: Point)
    requires p != here
    ensures SameHeading(Heading(here, here), Heading(here, p)) <==> p.y == here.y && p.x > here.x
  {
    CrossIs(Heading(here, here), Heading(here, p));
    DotIs(Heading(here, here), Heading(here, p));
  }

  /** What the graph types mean, by their numbers: 0 keeps everyone; 1 those elsewhere whose circle holds nobody
      else; 2 those elsewhere to whom nobody else is closer than the farther of the two is to this node; any
      other number nobody. */
  lemma GraphTypes(graph: U8, list: seq<Neighbor>, here: Point, a: Neighbor)
    ensures graph == 0 ==> Keeps(graph, list, here, a)
    ensures graph == 1 ==>
              (Keeps(graph, list, here, a) <==>
                 a.pos != here && forall b :: b in list && b.id != a.id ==> Power(b.pos, here, a.pos) >= 0)
    ensures graph == 2 ==>
              (Keeps(graph, list, here, a) <==>
                 && a.pos != here
                 && forall b :: b in list && b.id != a.id ==>
                      Dist2(a.pos, b.pos) >= Dist2(here, a.pos) && Dist2(a.pos, b.pos) >= Dist2(here, b.pos))
    ensures graph > 2 ==> !Keeps(graph, list, here, a)
  {
    assert forall b :: Witness(1, here, a.pos, b) <==> Power(b, here, a.pos) < 0;
    assert forall b :: Witness(2, here, a.pos, b) <==> RngWitness(here, a.pos, b);
  }
}
