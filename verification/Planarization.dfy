/** The two planarisation tests as the code writes them, with square roots and a tolerance of 1e-6. */
module Planarization {
  import opened Types
  import opened Geometry
  import opened Neighbors

  const TOLERANCE: real := 0.000001

  /** root is the distance whose square is given. */
  ghost predicate IsRoot(root: real, square: real) {
    root >= 0.0 && root * root == square
  }

  /** Squared distance from the midpoint of here-a to b, in real coordinates. */
  function MidpointDist2(here: Point, a: Point, b: Point): real {
    var mx, my := (here.x + a.x) as real / 2.0, (here.y + a.y) as real / 2.0;
    (mx - b.x as real) * (mx - b.x as real) + (my - b.y as real) * (my - b.y as real)
  }

  lemma MidpointPower(here: Point, a: Point, b: Point)
    ensures MidpointDist2(here, a, b) == Dist2(here, a) as real / 4.0 + Power(b, here, a) as real
  {
    var sx, sy := here.x + a.x - 2 * b.x, here.y + a.y - 2 * b.y;
    FourTimesPower(here, a, b);
    var mx, my := (here.x + a.x) as real / 2.0 - b.x as real, (here.y + a.y) as real / 2.0 - b.y as real;
    assert mx == sx as real / 2.0 && my == sy as real / 2.0;
  }

  lemma FourTimesPower(here: Point, a: Point, b: Point)
    ensures var sx, sy := here.x + a.x - 2 * b.x, here.y + a.y - 2 * b.y;
            sx * sx + sy * sy == Dist2(here, a) + 4 * Power(b, here, a)
  {
    DotIs(Between(here, a), Between(here, a));
    DotIs(Between(b, here), Between(b, a));
  }

  lemma RootsCompare(p: real, q: real)
    requires p >= 0.0 && q >= 0.0
    ensures p < q <==> p * p < q * q
    ensures p == q <==> p * p == q * q
  {
    if p < q {
      SmallerSquare(p, q);
    } else if q < p {
      SmallerSquare(q, p);
    }
  }

  lemma SmallerSquare(p: real, q: real)
    requires 0.0 <= p < q
    ensures p * p < q * q
  {
    var d, e := q - p, q + p;
    PositiveProduct(d, e);
    assert d * e == q * q - p * p;
  }

  lemma PositiveProduct(d: real, e: real)
    requires d > 0.0 && e > 0.0
    ensures d * e > 0.0
  {
  }

  /** A witness by this much, in squared distance, is hidden from a comparison with a root of this size. */
  predicate Hidden(gap: real, root: real) {
    0.0 < gap <= 2.0 * TOLERANCE * root - TOLERANCE * TOLERANCE
  }

  /** On bare numbers: the comparison of two roots with the tolerance is the exact one on their squares
      unless the first square is smaller by no more than the tolerance can hide. */
  lemma ToleranceIff(p: real, q: real)
    requires p >= 0.0 && q >= TOLERANCE
    ensures (p < q - TOLERANCE <==> p * p < q * q) <==> !Hidden(q * q - p * p, q)
  {
    RootsCompare(p, q - TOLERANCE);
    assert (q - TOLERANCE) * (q - TOLERANCE) == q * q - 2.0 * TOLERANCE * q + TOLERANCE * TOLERANCE;
    assert 2.0 * TOLERANCE * q >= 2.0 * TOLERANCE * TOLERANCE;
  }

  /** Exactly when the Gabriel test with its tolerance and the exact test disagree, for edges of any length:
      the witness is inside the circle, but its power is too small for the radius. */
  lemma GabrielToleranceIsExactIff(here: Point, a: Point, b: Point, distMidB: real, radius: real)
    requires a != here
    requires IsRoot(distMidB, MidpointDist2(here, a, b))
    requires IsRoot(radius, Dist2(here, a) as real / 4.0)
    ensures (distMidB < radius - TOLERANCE <==> GabrielWitness(here, a, b))
            <==> !Hidden(-(Power(b, here, a) as real), radius)
  {
    DistanceBasics(here, a);
    MidpointPower(here, a, b);
    RootsCompare(0.5, radius);
    ToleranceIff(distMidB, radius);
  }

  /** So up to an edge length of a million the tolerance never changes the graph. */
  lemma GabrielToleranceIsExact(here: Point, a: Point, b: Point, distMidB: real, radius: real)
    requires a != here && Dist2(here, a) <= 1_000_000 * 1_000_000
    requires IsRoot(distMidB, MidpointDist2(here, a, b))
    requires IsRoot(radius, Dist2(here, a) as real / 4.0)
    ensures distMidB < radius - TOLERANCE <==> GabrielWitness(here, a, b)
  {
    DistanceBasics(here, a);
    GabrielToleranceIsExactIff(here, a, b, distMidB, radius);
  }

  /** Beyond, it can: on an edge of length 4000002 it hides a witness. */
  lemma GabrielToleranceHidesWitness(here: Point, a: Point, b: Point, distMidB: real, radius: real)
    requires here == Point(0, 0) && a == Point(4_000_002, 0) && b == Point(1, 2_000)
    requires IsRoot(distMidB, MidpointDist2(here, a, b))
    requires IsRoot(radius, Dist2(here, a) as real / 4.0)
    ensures GabrielWitness(here, a, b) && !(distMidB < radius - TOLERANCE)
  {
    FarEdge(here, a, b);
    RootAtLeast(radius, Dist2(here, a) as real / 4.0);
    GabrielMisses(here, a, b, distMidB, radius);
  }

  lemma GabrielMisses(here: Point, a: Point, b: Point, distMidB: real, radius: real)
    requires a != here && Power(b, here, a) == -1 && radius >= 500_001.0
    requires IsRoot(distMidB, MidpointDist2(here, a, b))
    requires IsRoot(radius, Dist2(here, a) as real / 4.0)
    ensures GabrielWitness(here, a, b) && !(distMidB < radius - TOLERANCE)
  {
    GabrielToleranceIsExactIff(here, a, b, distMidB, radius);
  }

  lemma RootAtLeast(root: real, square: real)
    requires IsRoot(root, square) && square >= 250_001_000_001.0
    ensures root >= 500_001.0
  {
    RootsCompare(500_001.0, root);
  }

  lemma FarEdge(here: Point, a: Point, b: Point)
    requires here == Point(0, 0) && a == Point(4_000_002, 0) && b == Point(1, 2_000)
    ensures Power(b, here, a) == -1 && Dist2(here, a) == 16_000_016_000_004
  {
    OnTheAxis(here, a, b);
  }

  lemma OnTheAxis(here: Point, a: Point, b: Point)
    requires here.y == a.y == 0 && here.x == 0
    ensures Dist2(here, a) == a.x * a.x && Dist2(here, b) == b.x * b.x + b.y * b.y
    ensures Dist2(a, b) == (b.x - a.x) * (b.x - a.x) + b.y * b.y
    ensures Power(b, here, a) == b.x * (b.x - a.x) + b.y * b.y
  {
    DotIs(Between(here, a), Between(here, a));
    DotIs(Between(here, b), Between(here, b));
    DotIs(Between(a, b), Between(a, b));
    DotIs(Between(b, here), Between(b, a));
  }

  /** The larger of the two squared distances that the relative-neighbourhood test of the code looks at. */
  ghost function Longer(here: Point, a: Point, b: Point): int {
    if Dist2(here, a) < Dist2(here, b) then Dist2(here, b) else Dist2(here, a)
  }

  /** Exactly when the tolerance of the relative-neighbourhood test matters, for any distances. */
  lemma RngToleranceIsExactIff(here: Point, a: Point, b: Point, dNA: real, dNB: real, dAB: real)
    requires a != here
    requires IsRoot(dNA, Dist2(here, a) as real) && IsRoot(dNB, Dist2(here, b) as real)
    requires IsRoot(dAB, Dist2(a, b) as real)
    ensures var longest := if dNA < dNB then dNB else dNA;
            (dAB < longest - TOLERANCE <==> RngWitness(here, a, b))
            <==> !Hidden((Longer(here, a, b) - Dist2(a, b)) as real, longest)
  {
    DistanceBasics(here, a);
    RootsCompare(dNA, dNB);
    RootsCompare(1.0, dNA);
    ToleranceIff(dAB, if dNA < dNB then dNB else dNA);
  }

  /** So up to a distance of half a million it does not. */
  lemma RngToleranceIsExact(here: Point, a: Point, b: Point, dNA: real, dNB: real, dAB: real)
    requires a != here
    requires Dist2(here, a) <= 500_000 * 500_000 && Dist2(here, b) <= 500_000 * 500_000
    requires IsRoot(dNA, Dist2(here, a) as real) && IsRoot(dNB, Dist2(here, b) as real)
    requires IsRoot(dAB, Dist2(a, b) as real)
    ensures dAB < (if dNA < dNB then dNB else dNA) - TOLERANCE <==> RngWitness(here, a, b)
  {
    RngToleranceIsExactIff(here, a, b, dNA, dNB, dAB);
    RootsCompare(dNA, 500_000.0);
    RootsCompare(dNB, 500_000.0);
  }

  /** Just beyond, it can. */
  lemma RngToleranceHidesWitness(here: Point, a: Point, b: Point, dNA: real, dNB: real, dAB: real)
    requires here == Point(0, 0) && a == Point(500_001, 0) && b == Point(1, 1_000)
    requires IsRoot(dNA, Dist2(here, a) as real) && IsRoot(dNB, Dist2(here, b) as real)
    requires IsRoot(dAB, Dist2(a, b) as real)
    ensures RngWitness(here, a, b) && !(dAB < (if dNA < dNB then dNB else dNA) - TOLERANCE)
  {
    FarNeighbors(here, a, b);
    RootAtLeast(dNA, Dist2(here, a) as real);
    RngMisses(here, a, b, dNA, dNB, dAB);
  }

  lemma RngMisses(here: Point, a: Point, b: Point, dNA: real, dNB: real, dAB: real)
    requires a != here && Longer(here, a, b) - Dist2(a, b) == 1 && dNA >= 500_001.0
    requires IsRoot(dNA, Dist2(here, a) as real) && IsRoot(dNB, Dist2(here, b) as real)
    requires IsRoot(dAB, Dist2(a, b) as real)
    ensures RngWitness(here, a, b) && !(dAB < (if dNA < dNB then dNB else dNA) - TOLERANCE)
  {
    RngToleranceIsExactIff(here, a, b, dNA, dNB, dAB);
    RngWitnessIsMutual(here, a, b);
  }

  lemma FarNeighbors(here: Point, a: Point, b: Point)
    requires here == Point(0, 0) && a == Point(500_001, 0) && b == Point(1, 1_000)
    ensures Dist2(here, a) == 250_001_000_001 && Dist2(here, b) == 1_000_001 && Dist2(a, b) == 250_001_000_000
  {
    OnTheAxis(here, a, b);
  }

  // ---------- the relative-neighbourhood graph ----------

  /** The textbook test: b is closer to both ends than they are to each other. */
  ghost predicate TextbookRngWitness(here: Point, a: Point, b: Point) {
    Dist2(here, b) < Dist2(here, a) && Dist2(a, b) < Dist2(here, a)
  }

  ghost predicate TextbookRngKeeps(list: seq<Neighbor>, here: Point, a: Neighbor) {
    a.pos != here && forall b :: b in list && b.id != a.id ==> !TextbookRngWitness(here, a.pos, b.pos)
  }

  /** Whatever the code's test keeps, the textbook test keeps, and so does the Gabriel test. */
  lemma RngWithinTextbookWithinGabriel(list: seq<Neighbor>, here: Point, a: Neighbor)
    ensures Keeps(GRAPH_RNG, list, here, a) ==> TextbookRngKeeps(list, here, a)
    ensures TextbookRngKeeps(list, here, a) ==> Keeps(GRAPH_GABRIEL, list, here, a)
  {
    if Keeps(GRAPH_RNG, list, here, a) {
      forall b | b in list && b.id != a.id
        ensures !TextbookRngWitness(here, a.pos, b.pos)
      {
        assert !Witness(GRAPH_RNG, here, a.pos, b.pos);
      }
    }
    if TextbookRngKeeps(list, here, a) && Pruned(GRAPH_GABRIEL, list, here, a) {
      var b :| b in list && b.id != a.id && Witness(GRAPH_GABRIEL, here, a.pos, b.pos);
      InsideIsCloser(b.pos, here, a.pos);
      DistanceBasics(b.pos, here);
      DistanceBasics(b.pos, a.pos);
      assert TextbookRngWitness(here, a.pos, b.pos);
      assert false;
    }
  }

  /** Witnessing is mutual. */
  lemma RngWitnessIsMutual(here: Point, a: Point, b: Point)
    ensures RngWitness(here, a, b) <==> RngWitness(here, b, a)
    ensures RngWitness(here, a, b) <==> Dist2(a, b) < Longer(here, a, b)
    ensures RngWitness(here, a, b) ==> b != here
  {
    DistanceBasics(a, b);
    DistanceBasics(here, b);
    DistanceBasics(here, a);
    DistanceBasics(b, here);
    DistanceBasics(a, here);
  }

  /** So the code prunes both of two neighbours or lets both be, as far as they are concerned; and if it keeps
      either, they are at least as far from each other as each is from here. */
  lemma RngPruningIsMutual(list: seq<Neighbor>, here: Point, a: Neighbor, b: Neighbor)
    requires a in list && b in list && a.id != b.id
    ensures RngWitness(here, a.pos, b.pos) ==> !Keeps(GRAPH_RNG, list, here, a) && !Keeps(GRAPH_RNG, list, here, b)
    ensures Keeps(GRAPH_RNG, list, here, a) || Keeps(GRAPH_RNG, list, here, b) ==>
              Dist2(a.pos, b.pos) >= Dist2(here, a.pos) && Dist2(a.pos, b.pos) >= Dist2(here, b.pos)
  {
    RngWitnessIsMutual(here, a.pos, b.pos);
    if RngWitness(here, a.pos, b.pos) {
      assert Witness(GRAPH_RNG, here, a.pos, b.pos) && Witness(GRAPH_RNG, here, b.pos, a.pos);
    }
  }

  /** Every pruned neighbour elsewhere loses its place to one that is elsewhere and is pruned itself. */
  lemma RngPrunesInPairs(list: seq<Neighbor>, here: Point, a: Neighbor) returns (b: Neighbor)
    requires a in list && a.pos != here && !Keeps(GRAPH_RNG, list, here, a)
    ensures b in list && b.id != a.id && b.pos != here && RngWitness(here, a.pos, b.pos)
    ensures !Keeps(GRAPH_RNG, list, here, b)
  {
    b :| b in list && b.id != a.id && Witness(GRAPH_RNG, here, a.pos, b.pos);
    RngWitnessIsMutual(here, a.pos, b.pos);
    RngPruningIsMutual(list, here, a, b);
  }

  /** The code keeps a link exactly when the textbook test keeps it and no other neighbour is closer
      to its far end than to this node. */
  lemma RngBeyondTextbook(list: seq<Neighbor>, here: Point, a: Neighbor)
    ensures Keeps(GRAPH_RNG, list, here, a) <==>
              && TextbookRngKeeps(list, here, a)
              && forall b :: b in list && b.id != a.id ==> Dist2(here, b.pos) <= Dist2(a.pos, b.pos)
  {
    RngWithinTextbookWithinGabriel(list, here, a);
    if Keeps(GRAPH_RNG, list, here, a) {
      forall b | b in list && b.id != a.id
        ensures Dist2(here, b.pos) <= Dist2(a.pos, b.pos)
      {
        assert !Witness(GRAPH_RNG, here, a.pos, b.pos);
      }
    } else if a.pos != here {
      var b :| b in list && b.id != a.id && Witness(GRAPH_RNG, here, a.pos, b.pos);
      assert RngWitness(here, a.pos, b.pos);
    }
  }

  /** Another neighbour is closer to a than the farther of the two is to here. */
  ghost predicate Outdone(list: seq<Neighbor>, here: Point, a: Neighbor) {
    exists b :: b in list && b.id != a.id && Dist2(a.pos, b.pos) < Longer(here, a.pos, b.pos)
  }

  /** Exactly when the code's test leaves recovery without a next hop, for every list: each neighbour
      elsewhere is outdone by another. */
  lemma RngStrandsIff(list: seq<Neighbor>, here: Point)
    requires InAddressOrder(list)
    ensures PlanarNeighbors(GRAPH_RNG, list, here) == [] <==>
              forall a :: a in list && a.pos != here ==> Outdone(list, here, a)
  {
    PlanarNeighborsAreTheKept(GRAPH_RNG, list, here, |list|);
    assert list[..|list|] == list;
    forall a | a in list && a.pos != here
      ensures Outdone(list, here, a) <==> !Keeps(GRAPH_RNG, list, here, a)
    {
    }
    var kept := PlanarNeighbors(GRAPH_RNG, list, here);
    if kept != [] {
      assert kept[0] in kept;
    }
  }

  /** The Gabriel test keeps somebody whenever somebody is elsewhere. Not so this one: whenever one of two
      neighbours lies inside the circle on the link to the other, as on a straight line, it prunes both while
      the Gabriel test keeps the nearer. */
  lemma RngCanStrand(here: Point, a: Neighbor, b: Neighbor)
    requires a.id < b.id && a.pos != here && GabrielWitness(here, b.pos, a.pos)
    ensures PlanarNeighbors(GRAPH_RNG, [a, b], here) == []
    ensures PlanarNeighbors(GRAPH_GABRIEL, [a, b], here) == [a]
  {
    StrandingWitnesses(here, a.pos, b.pos);
    TwoNeighbors(GRAPH_RNG, here, a, b);
    TwoNeighbors(GRAPH_GABRIEL, here, a, b);
  }

  lemma StrandingWitnesses(here: Point, a: Point, b: Point)
    requires GabrielWitness(here, b, a)
    ensures Witness(GRAPH_RNG, here, a, b) && Witness(GRAPH_RNG, here, b, a)
    ensures Witness(GRAPH_GABRIEL, here, b, a) && !Witness(GRAPH_GABRIEL, here, a, b)
    ensures b != here
  {
    InsideIsCloser(a, here, b);
    DistanceBasics(a, here);
    DistanceBasics(a, b);
    DistanceBasics(b, here);
    if Power(b, here, a) < 0 {
      InsideIsCloser(b, here, a);
    }
  }

  lemma TwoNeighbors(graph: U8, here: Point, a: Neighbor, b: Neighbor)
    requires graph == GRAPH_GABRIEL || graph == GRAPH_RNG
    requires a.id != b.id && a.pos != here && b.pos != here
    ensures PlanarNeighbors(graph, [a, b], here)
            == (if Witness(graph, here, a.pos, b.pos) then [] else [a])
               + (if Witness(graph, here, b.pos, a.pos) then [] else [b])
  {
    ListOfTwo(graph, a, b, here);
  }

  lemma ListOfTwo(graph: U8, a: Neighbor, b: Neighbor, here: Point)
    ensures PlanarNeighbors(graph, [a, b], here)
            == (if Keeps(graph, [a, b], here, a) then [a] else []) + (if Keeps(graph, [a, b], here, b) then [b] else [])
  {
    var list := [a, b];
    assert KeptUpTo(graph, list, here, 0) == [];
    assert KeptUpTo(graph, list, here, 1) == if Keeps(graph, list, here, a) then [a] else [];
  }
}
