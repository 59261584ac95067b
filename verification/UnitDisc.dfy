/** A static unit-disc network, and the global shape of the graph that the local Gabriel test leaves. */
module UnitDisc {
  import opened Types
  import opened Veils
  import opened Geometry
  import opened Neighbors

  datatype Network = Network(pos: map<Addr, Point>, range2: int)

  ghost predicate Valid(net: Network) {
    && NO_ADDR !in net.pos
    && forall a, b :: a in net.pos && b in net.pos && a != b ==> net.pos[a] != net.pos[b]
  }

  /** The live neighbour positions at node a. */
  ghost function View(net: Network, a: Addr): map<Addr, Point>
    requires a in net.pos
  {
    map b | b in net.pos && b != a && Dist2(net.pos[a], net.pos[b]) <= net.range2 :: net.pos[b]
  }

  ghost predicate Linked(net: Network, a: Addr, b: Addr) {
    a in net.pos && b in net.pos && a != b && Dist2(net.pos[a], net.pos[b]) <= net.range2
  }

  /** Node a keeps its neighbour b when planarising its own table. */
  ghost predicate KeptLink(net: Network, graph: U8, a: Addr, b: Addr) {
    Linked(net, a, b) && KeptBy(net, graph, a)(b)
  }

  ghost predicate KeepsNode(net: Network, graph: U8, a: Addr, b: Addr) {
    a in net.pos && b in net.pos && Keeps(graph, Listed(View(net, a)), net.pos[a], Neighbor(b, net.pos[b]))
  }

  /** The neighbours that node a keeps; what that means is known through KeptByTest. */
  ghost function KeptBy(net: Network, graph: U8, a: Addr): Addr -> bool {
    Veiled<Addr, bool>((b: Addr) => KeepsNode(net, graph, a, b))
  }

  lemma KeptByTest(net: Network, graph: U8, a: Addr, b: Addr)
    requires Linked(net, a, b)
    ensures KeptLink(net, graph, a, b) <==> Keeps(graph, Listed(View(net, a)), net.pos[a], Neighbor(b, net.pos[b]))
  {
    LookUp<Addr, bool>((x: Addr) => KeepsNode(net, graph, a, x), b);
  }

  /** No third node of the whole network lies strictly inside the circle on a-b. */
  ghost predicate EmptyDisc(net: Network, a: Addr, b: Addr)
    requires a in net.pos && b in net.pos
  {
    forall c :: c in net.pos && c != a && c != b ==> Power(net.pos[c], net.pos[a], net.pos[b]) >= 0
  }

  /** A node that is a Gabriel witness anywhere in the network is in both end points' tables. */
  lemma WitnessIsLocal(net: Network, a: Addr, b: Addr, c: Addr)
    requires Valid(net) && Linked(net, a, b) && c in net.pos
    requires Power(net.pos[c], net.pos[a], net.pos[b]) < 0
    ensures c != a && c != b
    ensures Linked(net, a, c) && Linked(net, b, c)
    ensures Dist2(net.pos[a], net.pos[c]) < Dist2(net.pos[a], net.pos[b])
    ensures Dist2(net.pos[c], net.pos[b]) < Dist2(net.pos[a], net.pos[b])
    ensures Neighbor(c, net.pos[c]) in Listed(View(net, a))
  {
    InsideIsCloser(net.pos[c], net.pos[a], net.pos[b]);
    DistanceBasics(net.pos[c], net.pos[a]);
    DistanceBasics(net.pos[c], net.pos[b]);
  }

  /** Although each side consults only its own table, a link is kept exactly when its disc is empty
      of the whole network's nodes. */
  lemma KeptIsGloballyEmpty(net: Network, a: Addr, b: Addr)
    requires Valid(net) && Linked(net, a, b)
    ensures KeptLink(net, GRAPH_GABRIEL, a, b) <==> EmptyDisc(net, a, b)
  {
    var list, nb := Listed(View(net, a)), Neighbor(b, net.pos[b]);
    KeptByTest(net, GRAPH_GABRIEL, a, b);
    if !EmptyDisc(net, a, b) {
      var c :| c in net.pos && c != a && c != b && Power(net.pos[c], net.pos[a], net.pos[b]) < 0;
      WitnessIsLocal(net, a, b, c);
      assert Witness(GRAPH_GABRIEL, net.pos[a], nb.pos, Neighbor(c, net.pos[c]).pos);
      assert Pruned(GRAPH_GABRIEL, list, net.pos[a], nb);
    } else {
      assert forall c :: c in list ==> c.id in View(net, a);
    }
  }

  /** Symmetry: each side keeps the link exactly when the other does. */
  lemma GabrielIsSymmetric(net: Network, a: Addr, b: Addr)
    requires Valid(net)
    ensures KeptLink(net, GRAPH_GABRIEL, a, b) <==> KeptLink(net, GRAPH_GABRIEL, b, a)
  {
    if a in net.pos && b in net.pos {
      DistanceBasics(net.pos[a], net.pos[b]);
      if Linked(net, a, b) {
        KeptIsGloballyEmpty(net, a, b);
        KeptIsGloballyEmpty(net, b, a);
        forall c | c in net.pos
          ensures Power(net.pos[c], net.pos[a], net.pos[b]) == Power(net.pos[c], net.pos[b], net.pos[a])
        {
          PowerIsCosine(net.pos[c], net.pos[a], net.pos[b]);
        }
      }
    }
  }

  // ---------- planarity ----------

  /** a, c, b, d are the corners of a rectangle with diagonals a-b and c-d: the diagonals bisect each
      other and have the same nonzero length, and the corners are not all on one line. */
  ghost predicate RectangleWithDiagonals(a: Point, b: Point, c: Point, d: Point) {
    && a.x + b.x == c.x + d.x && a.y + b.y == c.y + d.y
    && Dist2(a, b) == Dist2(c, d)
    && Orient(a, b, c) != 0
  }

  /** Any three plane vectors are dependent; seen through the scalar product with a fourth. */
  lemma CrossExpansion(u: Vec, v: Vec, w: Vec, x: Vec)
    ensures Dot(u, x) * Cross(v, w) == Dot(v, x) * Cross(u, w) - Dot(w, x) * Cross(u, v)
  {
    DotIs(u, x);
    DotIs(v, x);
    DotIs(w, x);
    CrossIs(v, w);
    CrossIs(u, w);
    CrossIs(u, v);
    ExpansionArithmetic(u, v, w, x);
  }

  lemma ExpansionArithmetic(u: Vec, v: Vec, w: Vec, x: Vec)
    ensures DotProduct(u, x) * CrossProduct(v, w)
            == DotProduct(v, x) * CrossProduct(u, w) - DotProduct(w, x) * CrossProduct(u, v)
  {
  }

  /** The powers of the four end points, each with respect to the other segment's circle and weighted
      by the opposite orientation, cancel: both circles give the crossing point the same power. */
  lemma PowersCancel(a: Point, b: Point, c: Point, d: Point)
    ensures Orient(c, d, a) * Power(b, c, d) - Orient(c, d, b) * Power(a, c, d)
            == Orient(a, b, c) * Power(d, a, b) - Orient(a, b, d) * Power(c, a, b)
  {
    var u, v, w := Between(a, b), Between(a, c), Between(a, d);
    OrientationsFromOrigin(a, b, c, d);
    PowersFromOrigin(a, b, c, d);
    CrossExpansion(u, v, w, u);
    CrossExpansion(u, v, w, v);
    CrossExpansion(u, v, w, w);
    CrossFlips(u, v);
    CrossFlips(u, w);
    CrossFlips(v, w);
    CancelProducts(Cross(u, v), Cross(u, w), Cross(v, w),
                   Dot(u, u), Dot(v, v), Dot(w, w), Dot(u, v), Dot(u, w), Dot(v, w));
  }

  lemma OrientationsFromOrigin(a: Point, b: Point, c: Point, d: Point)
    ensures var u, v, w := Between(a, b), Between(a, c), Between(a, d);
            && Orient(a, b, c) == Cross(u, v) && Orient(a, b, d) == Cross(u, w)
            && Orient(c, d, a) == Cross(v, w)
            && Orient(c, d, b) == Cross(u, v) + Cross(v, w) - Cross(u, w)
  {
    var u, v, w := Between(a, b), Between(a, c), Between(a, d);
    BetweenIsDifference(a, c, d);
    BetweenIsDifference(a, c, b);
    ProductsOfOpposite(v, Minus(w, v));
    ProductsOfMinus(v, w, v);
    ProductsOfMinus(Minus(w, v), u, v);
    ProductsOfMinus(u, w, v);
    CrossFlips(v, w);
    CrossFlips(u, v);
    CrossFlips(Minus(w, v), u);
    CrossFlips(Minus(w, v), v);
  }

  lemma PowersFromOrigin(a: Point, b: Point, c: Point, d: Point)
    ensures var u, v, w := Between(a, b), Between(a, c), Between(a, d);
            && Power(a, c, d) == Dot(v, w)
            && Power(b, c, d) == Dot(v, w) - Dot(u, v) - Dot(u, w) + Dot(u, u)
            && Power(c, a, b) == Dot(v, v) - Dot(u, v)
            && Power(d, a, b) == Dot(w, w) - Dot(u, w)
  {
    var u, v, w := Between(a, b), Between(a, c), Between(a, d);
    PowerFromEnd(c, a, b);
    PowerFromEnd(d, a, b);
    BetweenIsDifference(a, b, c);
    BetweenIsDifference(a, b, d);
    ProductsOfMinus(Minus(v, u), w, u);
    ProductsOfMinus(w, v, u);
    ProductsOfMinus(u, v, u);
    CrossFlips(u, v);
    CrossFlips(u, w);
    CrossFlips(v, w);
  }

  lemma CancelProducts(uv: int, uw: int, vw: int, duu: int, dvv: int, dww: int, duv: int, duw: int, dvw: int)
    requires duu * vw == duv * uw - duw * uv
    requires duv * vw == dvv * uw - dvw * uv
    requires duw * vw == dvw * uw - dww * uv
    ensures vw * (dvw - duv - duw + duu) - (uv + vw - uw) * dvw == uv * (dww - duw) - uw * (dvv - duv)
  {
  }

  /** If both circles exclude the other segment's end points and the segments cross, all four end
      points lie on both circles. */
  lemma CrossingPowersVanish(a: Point, b: Point, c: Point, d: Point)
    requires CrossProperly(a, b, c, d)
    requires Power(c, a, b) >= 0 && Power(d, a, b) >= 0 && Power(a, c, d) >= 0 && Power(b, c, d) >= 0
    ensures Power(c, a, b) == Power(d, a, b) == Power(a, c, d) == Power(b, c, d) == 0
  {
    PowersCancel(a, b, c, d);
    OrientationsBalance(a, b, c, d);
    BalancedWeightsVanish(Orient(c, d, a), Power(b, c, d), Orient(c, d, b), Power(a, c, d),
                          Orient(a, b, c), Power(d, a, b), Orient(a, b, d), Power(c, a, b));
  }

  /** The crossing argument on bare numbers: p, q, s, t are orientations, the rest powers. */
  lemma BalancedWeightsVanish(p: int, x: int, q: int, y: int, s: int, z: int, t: int, w: int)
    requires p * x - q * y == s * z - t * w
    requires p - q == t - s
    requires (p > 0 && q < 0) || (p < 0 && q > 0)
    requires (s > 0 && t < 0) || (s < 0 && t > 0)
    requires x >= 0 && y >= 0 && z >= 0 && w >= 0
    ensures x == y == z == w == 0
  {
    SignOfProduct(p, x);
    SignOfProduct(q, y);
    SignOfProduct(s, z);
    SignOfProduct(t, w);
  }

  lemma SignOfProduct(k: int, x: int)
    requires k != 0 && x >= 0
    ensures k > 0 ==> k * x >= 0
    ensures k < 0 ==> k * x <= 0
    ensures k * x == 0 <==> x == 0
  {
  }

  lemma OrientationsBalance(a: Point, b: Point, c: Point, d: Point)
    ensures Orient(c, d, a) - Orient(c, d, b) == Orient(a, b, d) - Orient(a, b, c)
  {
    OrientationsFromOrigin(a, b, c, d);
  }

  lemma RightAnglesMakeRectangle(a: Point, b: Point, c: Point, d: Point)
    requires Power(c, a, b) == Power(d, a, b) == Power(a, c, d) == Power(b, c, d) == 0
    ensures a.x + b.x == c.x + d.x && a.y + b.y == c.y + d.y
    ensures Dist2(a, b) == Dist2(c, d)
  {
    var ex, ey := a.x + b.x - c.x - d.x, a.y + b.y - c.y - d.y;
    FourPowersAreASquare(a, b, c, d);
    SquareIsNonNegative(ex);
    SquareIsNonNegative(ey);
    DiagonalsAndPower(a, b, c, d, c);
  }

  lemma FourPowersAreASquare(a: Point, b: Point, c: Point, d: Point)
    ensures var ex, ey := a.x + b.x - c.x - d.x, a.y + b.y - c.y - d.y;
            Power(c, a, b) + Power(d, a, b) + Power(a, c, d) + Power(b, c, d) == ex * ex + ey * ey
  {
    DotIs(Between(c, a), Between(c, b));
    DotIs(Between(d, a), Between(d, b));
    DotIs(Between(a, c), Between(a, d));
    DotIs(Between(b, c), Between(b, d));
  }

  /** Diagonals that bisect each other: the two circles are concentric. */
  lemma DiagonalsAndPower(a: Point, b: Point, c: Point, d: Point, p: Point)
    requires a.x + b.x == c.x + d.x && a.y + b.y == c.y + d.y
    ensures 4 * Power(p, a, b) + Dist2(a, b) == 4 * Power(p, c, d) + Dist2(c, d)
    ensures Power(c, c, d) == 0
  {
    PowerAboutMidpoint(p, a, b);
    PowerAboutMidpoint(p, c, d);
    OwnPowerIsZero(c, d);
  }

  lemma PowerAboutMidpoint(p: Point, a: Point, b: Point)
    ensures var mx, my := a.x + b.x - 2 * p.x, a.y + b.y - 2 * p.y;
            4 * Power(p, a, b) + Dist2(a, b) == mx * mx + my * my
  {
    DotIs(Between(p, a), Between(p, b));
    DotIs(Between(a, b), Between(a, b));
  }

  lemma RectangleDiagonalsCross(a: Point, b: Point, c: Point, d: Point)
    requires RectangleWithDiagonals(a, b, c, d)
    ensures CrossProperly(a, b, c, d)
  {
    ParallelogramOrientations(a, b, c, d);
  }

  lemma ParallelogramOrientations(a: Point, b: Point, c: Point, d: Point)
    requires a.x + b.x == c.x + d.x && a.y + b.y == c.y + d.y
    ensures Orient(a, b, d) == Orient(c, d, a) == -Orient(a, b, c)
    ensures Orient(c, d, b) == Orient(a, b, c)
  {
    var u, v := Between(a, b), Between(a, c);
    assert Between(a, d) == Minus(u, v);
    OrientationsFromOrigin(a, b, c, d);
    ProductsOfMinus(u, u, v);
    ProductsOfMinus(v, u, v);
    CrossFlips(u, v);
    CrossFlips(v, u);
  }

  /** Planarity up to rectangles: two kept links cross exactly when their end points are the corners
      of a rectangle whose circumscribed disc holds no other node. */
  lemma CrossingKeptLinksAreRectangles(net: Network, a: Addr, b: Addr, c: Addr, d: Addr)
    requires Valid(net) && Linked(net, a, b) && Linked(net, c, d)
    requires a != c && a != d && b != c && b != d
    ensures var (pa, pb, pc, pd) := (net.pos[a], net.pos[b], net.pos[c], net.pos[d]);
            KeptLink(net, GRAPH_GABRIEL, a, b) && KeptLink(net, GRAPH_GABRIEL, c, d) && CrossProperly(pa, pb, pc, pd)
            <==> RectangleWithDiagonals(pa, pb, pc, pd) && EmptyDisc(net, a, b)
  {
    var pa, pb, pc, pd := net.pos[a], net.pos[b], net.pos[c], net.pos[d];
    KeptIsGloballyEmpty(net, a, b);
    KeptIsGloballyEmpty(net, c, d);
    if EmptyDisc(net, a, b) && EmptyDisc(net, c, d) && CrossProperly(pa, pb, pc, pd) {
      CrossingPowersVanish(pa, pb, pc, pd);
      RightAnglesMakeRectangle(pa, pb, pc, pd);
    }
    if RectangleWithDiagonals(pa, pb, pc, pd) && EmptyDisc(net, a, b) {
      RectangleDiagonalsCross(pa, pb, pc, pd);
      RectangleSharesDisc(net, a, b, c, d);
    }
  }

  lemma RectangleSharesDisc(net: Network, a: Addr, b: Addr, c: Addr, d: Addr)
    requires a in net.pos && b in net.pos && c in net.pos && d in net.pos
    requires RectangleWithDiagonals(net.pos[a], net.pos[b], net.pos[c], net.pos[d])
    requires EmptyDisc(net, a, b)
    ensures EmptyDisc(net, c, d)
  {
    forall e | e in net.pos && e != c && e != d
      ensures Power(net.pos[e], net.pos[c], net.pos[d]) >= 0
    {
      DiagonalsAndPower(net.pos[a], net.pos[b], net.pos[c], net.pos[d], net.pos[e]);
      OwnPowerIsZero(net.pos[a], net.pos[b]);
    }
  }

  lemma OwnPowerIsZero(a: Point, b: Point)
    ensures Power(a, a, b) == 0 && Power(b, a, b) == 0
  {
    DotIs(Between(a, a), Between(a, b));
    DotIs(Between(b, a), Between(b, b));
  }

  ghost predicate FormRectangle(net: Network, a: Addr, b: Addr, c: Addr, d: Addr) {
    && a in net.pos && b in net.pos && c in net.pos && d in net.pos
    && RectangleWithDiagonals(net.pos[a], net.pos[b], net.pos[c], net.pos[d])
  }

  ghost predicate HasRectangle(net: Network) {
    exists a, b, c, d :: FormRectangle(net, a, b, c, d)
  }

  /** With no four nodes at the corners of a rectangle, the kept graph is planar. */
  lemma GabrielIsPlanar(net: Network, a: Addr, b: Addr, c: Addr, d: Addr)
    requires Valid(net) && !HasRectangle(net)
    requires KeptLink(net, GRAPH_GABRIEL, a, b) && KeptLink(net, GRAPH_GABRIEL, c, d)
    ensures !CrossProperly(net.pos[a], net.pos[b], net.pos[c], net.pos[d])
  {
    if a != c && a != d && b != c && b != d {
      CrossingKeptLinksAreRectangles(net, a, b, c, d);
      assert !FormRectangle(net, a, b, c, d);
    } else {
      SharedEndpointNeverCrosses(net.pos[a], net.pos[b], net.pos[c], net.pos[d]);
    }
  }

  lemma SharedEndpointNeverCrosses(a: Point, b: Point, c: Point, d: Point)
    requires a == c || a == d || b == c || b == d
    ensures !CrossProperly(a, b, c, d)
  {
    EndsAreOnTheLine(a, b);
  }

  lemma EndsAreOnTheLine(a: Point, b: Point)
    ensures Orient(a, b, a) == 0 && Orient(a, b, b) == 0
  {
    CrossIs(Between(a, b), Between(a, a));
    CrossFlips(Between(a, b), Between(a, b));
  }

  // ---------- connectivity ----------

  /** A path whose every hop is a link of the unit-disc graph. */
  ghost predicate LinkedPath(net: Network, p: seq<Addr>) {
    && p != []
    && (forall i :: 0 <= i < |p| ==> p[i] in net.pos)
    && (forall i :: 0 <= i < |p| - 1 ==> LinkedAt(net, p, i))
  }

  ghost predicate LinkedAt(net: Network, p: seq<Addr>, i: nat)
    requires i + 1 < |p|
  {
    Linked(net, p[i], p[i + 1])
  }

  /** A path whose every hop is a link kept by the Gabriel test. */
  ghost predicate KeptPath(net: Network, p: seq<Addr>) {
    && p != []
    && (forall i :: 0 <= i < |p| ==> p[i] in net.pos)
    && (forall i :: 0 <= i < |p| - 1 ==> KeptAt(net, p, i))
  }

  ghost predicate KeptAt(net: Network, p: seq<Addr>, i: nat)
    requires i + 1 < |p|
  {
    KeptLink(net, GRAPH_GABRIEL, p[i], p[i + 1])
  }

  ghost predicate Joins(p: seq<Addr>, a: Addr, b: Addr) {
    p != [] && p[0] == a && p[|p| - 1] == b
  }

  ghost predicate Reachable(net: Network, a: Addr, b: Addr) {
    exists p :: LinkedPath(net, p) && Joins(p, a, b)
  }

  ghost predicate KeptReachable(net: Network, a: Addr, b: Addr) {
    exists p :: KeptPath(net, p) && Joins(p, a, b)
  }

  lemma KeptPathsConcatenate(net: Network, p: seq<Addr>, q: seq<Addr>)
    requires KeptPath(net, p) && KeptPath(net, q) && p[|p| - 1] == q[0]
    ensures KeptPath(net, p + q[1..]) && Joins(p + q[1..], p[0], q[|q| - 1])
  {
    var r := p + q[1..];
    forall i | 0 <= i < |r| - 1
      ensures KeptAt(net, r, i)
    {
      if i < |p| - 1 {
        assert KeptAt(net, p, i);
      } else {
        assert KeptAt(net, q, i - (|p| - 1));
        assert r[i] == q[i - (|p| - 1)] && r[i + 1] == q[i + 1 - (|p| - 1)];
      }
    }
  }

  lemma LinkedPathRest(net: Network, p: seq<Addr>)
    requires LinkedPath(net, p) && |p| > 1
    ensures LinkedPath(net, p[1..]) && Linked(net, p[0], p[1])
  {
    assert LinkedAt(net, p, 0);
    forall i | 0 <= i < |p[1..]| - 1
      ensures LinkedAt(net, p[1..], i)
    {
      assert LinkedAt(net, p, i + 1);
    }
  }

  /** Every unit-disc link, kept or pruned, is replaced by a path of kept links: a pruned one is split
      at a witness into two strictly shorter links. */
  lemma {:induction false} LinkBecomesKeptPath(net: Network, a: Addr, b: Addr) returns (p: seq<Addr>)
    requires Valid(net) && Linked(net, a, b)
    ensures KeptPath(net, p) && Joins(p, a, b)
    decreases Dist2(net.pos[a], net.pos[b])
  {
    DistanceBasics(net.pos[a], net.pos[b]);
    KeptIsGloballyEmpty(net, a, b);
    if KeptLink(net, GRAPH_GABRIEL, a, b) {
      p := [a, b];
      assert KeptAt(net, p, 0);
    } else {
      var c :| c in net.pos && c != a && c != b && Power(net.pos[c], net.pos[a], net.pos[b]) < 0;
      WitnessIsLocal(net, a, b, c);
      DistanceBasics(net.pos[c], net.pos[b]);
      var left := LinkBecomesKeptPath(net, a, c);
      var right := LinkBecomesKeptPath(net, c, b);
      KeptPathsConcatenate(net, left, right);
      p := left + right[1..];
    }
  }

  lemma {:induction false} PathBecomesKeptPath(net: Network, p: seq<Addr>) returns (q: seq<Addr>)
    requires Valid(net) && LinkedPath(net, p)
    ensures KeptPath(net, q) && Joins(q, p[0], p[|p| - 1])
    decreases |p|
  {
    if |p| == 1 {
      q := p;
    } else {
      LinkedPathRest(net, p);
      var first := LinkBecomesKeptPath(net, p[0], p[1]);
      var rest := PathBecomesKeptPath(net, p[1..]);
      KeptPathsConcatenate(net, first, rest);
      q := first + rest[1..];
    }
  }

  /** Planarising loses no connectivity. */
  lemma GabrielPreservesConnectivity(net: Network, a: Addr, b: Addr)
    requires Valid(net)
    ensures Reachable(net, a, b) <==> KeptReachable(net, a, b)
  {
    if Reachable(net, a, b) {
      var p :| LinkedPath(net, p) && Joins(p, a, b);
      var q := PathBecomesKeptPath(net, p);
    }
    if KeptReachable(net, a, b) {
      var p :| KeptPath(net, p) && Joins(p, a, b);
      forall i | 0 <= i < |p| - 1
        ensures LinkedAt(net, p, i)
      {
        assert KeptAt(net, p, i);
      }
      assert LinkedPath(net, p);
    }
  }
}
