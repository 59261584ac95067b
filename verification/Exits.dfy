/** The segment from a local minimum to the destination: a Gabriel link that crosses it, or a node on it,
    offers a way out of recovery. Everything here follows from the circle test on the two ends of one link
    and from distances. */
module Exits {
  import opened Geometry
  import opened Directions
  import opened UnitDisc
  import opened Sweep

  lemma AlignedRightwards(u: Vec, v: Vec)
    requires Rightward(u) && Rightward(v) && Cross(u, v) == 0
    ensures Dot(u, v) > 0
  {
    CollinearNotOrthogonal(u, v);
    DotIs(u, v);
    CrossIs(u, v);
    if u.x == 0 {
      SteepestSigns(v, u);
      CrossFlips(u, v);
      PositiveFactor(u.y, v.y);
    } else if v.x == 0 {
      SteepestSigns(u, v);
    } else {
      PositiveFactor(u.x, v.x);
    }
  }

  /** Directions as the walk sees them, and as the sweep sees them. */
  lemma SameDirectionIsSameHeading(v: Point, p: Point, q: Point)
    requires p != v && q != v
    ensures SameDirection(v, p, q) <==> SameHeading(Heading(v, p), Heading(v, q))
  {
    SignedSlopes(v, p, q);
    SignedSlopes(v, q, p);
    if Cross(Between(v, p), Between(v, q)) == 0 {
      AlignedRightwards(Rightwards(v, p), Rightwards(v, q));
      OppositeDots(v, p, q);
    }
  }

  lemma OppositeDots(v: Point, p: Point, q: Point)
    ensures Dot(Between(p, v), Between(v, q)) == Dot(Between(v, p), Between(q, v)) == -Dot(Between(v, p), Between(v, q))
    ensures Dot(Between(p, v), Between(q, v)) == Dot(Between(v, p), Between(v, q))
  {
    BetweenIsDifference(v, p, p);
    BetweenIsDifference(v, q, q);
    ProductsOfOpposite(Between(v, p), Between(v, q));
    ProductsOfOpposite(Between(v, q), Between(v, p));
    ProductsOfOpposite(Between(v, p), Between(q, v));
    CrossFlips(Between(v, p), Between(v, q));
  }

  /** A point on the open segment a-b is strictly inside the circle on a-b. */
  lemma InsideIsInCircle(p: Point, a: Point, b: Point)
    requires Inside(p, a, b)
    ensures Power(p, a, b) < 0
  {
    OrientAlternates(a, b, p);
    SignedSlopes(p, a, b);
    AlignedRightwards(Rightwards(p, a), Rightwards(p, b));
    OppositeDots(p, a, b);
  }

  /** A link whose circle does not hold x, crossed by the segment x-d, has an end closer to d than x is. */
  lemma CrossedLinkHasCloserEnd(x: Point, d: Point, a: Point, b: Point)
    requires CrossProperly(x, d, a, b) && Power(x, a, b) >= 0
    ensures Dist2(a, d) < Dist2(x, d) || Dist2(b, d) < Dist2(x, d)
  {
    OrientationsFromOrigin(x, d, a, b);
    OrientAlternates(x, a, b);
    var u, v, w := Between(x, a), Between(x, b), Between(x, d);
    CloserMeansAhead(x, a, d);
    CloserMeansAhead(x, b, d);
    CrossFlips(u, v);
    CrossFlips(w, u);
    CrossFlips(w, v);
    if Cross(w, u) < 0 {
      OneReachesAhead(u, v, w);
    } else {
      OneReachesAhead(v, u, w);
    }
  }

  /** Seen from x, being closer to d than x is means reaching ahead by more than half one's own length. */
  lemma CloserMeansAhead(x: Point, a: Point, d: Point)
    ensures Dist2(a, d) < Dist2(x, d) <==> ReachesAhead(Between(x, a), Between(x, d))
  {
    PowerIsCosine(x, a, d);
  }

  ghost predicate ReachesAhead(u: Vec, w: Vec) {
    2 * Dot(u, w) > Dot(u, u)
  }

  /** Of two vectors at no obtuse angle whose ends straddle the vector w, one reaches ahead. */
  lemma OneReachesAhead(u: Vec, v: Vec, w: Vec)
    requires Cross(w, u) < 0 < Cross(w, v)
    requires 0 < Cross(u, v) < Cross(w, v) - Cross(w, u)
    requires Dot(u, v) >= 0
    ensures ReachesAhead(u, w) || ReachesAhead(v, w)
  {
    if !ReachesAhead(u, w) && !ReachesAhead(v, w) {
      CrossedIsNonZero(w, u);
      CrossedIsNonZero(w, v);
      NormPositive(u);
      NormPositive(v);
      CrossFlips(u, v);
      CrossFlips(v, w);
      CrossFlips(u, w);
      CrossExpansion(w, u, v, u);
      CrossExpansion(w, u, v, v);
      OneSideShorter(Cross(w, v), Dot(u, u), -Cross(w, u), Dot(u, v), Cross(u, v), Dot(w, u));
      OneSideShorter(-Cross(w, u), Dot(v, v), Cross(w, v), Dot(u, v), Cross(u, v), Dot(w, v));
    }
  }

  lemma CrossedIsNonZero(w: Vec, u: Vec)
    ensures Cross(w, u) != 0 ==> NonZero(u)
  {
    CrossIs(w, u);
  }

  lemma OneSideShorter(m: int, uu: int, l: int, uv: int, k: int, uw: int)
    requires m > 0 && l > 0 && uu > 0 && uv >= 0 && 0 < k < l + m
    requires 2 * uw <= uu
    requires m * uu + l * uv == k * uw
    ensures m < l
  {
    ProductSign(l, uv);
    ProductSign(k, uu - 2 * uw);
    PositiveFactor(uu, l + m - k);
    assert 2 * (m * uu) <= k * uu < (l + m) * uu;
    PositiveFactor(uu, l - m);
  }

  /** A point in the direction of d, but not closer to it than x is, is beyond d. */
  lemma AheadButFarIsBeyond(x: Point, a: Point, d: Point)
    requires x != d && x != a && SameHeading(Between(x, d), Between(x, a))
    requires Dist2(a, d) >= Dist2(x, d)
    ensures Power(d, x, a) < 0
  {
    var u, w := Between(x, a), Between(x, d);
    CloserMeansAhead(x, a, d);
    CrossFlips(u, w);
    InFrame(w, u, u);
    NormPositive(w);
    NormPositive(u);
    PowerFromEnd(d, x, a);
    FarAlongIsTwice(Dot(w, w), Dot(u, u), Dot(u, w));
  }

  lemma FarAlongIsTwice(ww: int, uu: int, uw: int)
    requires ww > 0 && uw > 0 && uu >= 2 * uw && ww * uu == uw * uw
    ensures ww < uw
  {
    ProductSign(ww, uu - 2 * uw);
    PositiveFactor(uw, uw - 2 * ww);
  }

  /** A node on the way to d is closer to it. */
  lemma OnTheWayIsCloser(p: Point, x: Point, d: Point)
    requires Inside(p, x, d)
    ensures Dist2(p, d) < Dist2(x, d)
  {
    InsideIsInCircle(p, x, d);
    InsideIsCloser(p, x, d);
  }
}
