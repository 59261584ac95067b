/** Plane geometry modulo two: above which links of a closed walk a point lies, seen from a node in the
    direction of another point, and how that changes when the point moves or turns. Everything comes
    down to the signs of the cross products of three directions. */
module Sweep {
  import opened Geometry
  import opened Directions

  // ---------- left to right ----------

  /** Left to right, and upwards within a column: a strict total order of the points. */
  predicate Lex(p: Point, q: Point) {
    p.x < q.x || (p.x == q.x && p.y < q.y)
  }

  predicate Rightward(v: Vec) {
    v.x > 0 || (v.x == 0 && v.y > 0)
  }

  /** The sign of z is that of x and y where those do not contradict each other. */
  predicate Composes(x: int, y: int, z: int) {
    && (x >= 0 && y >= 0 ==> z >= 0 && (x > 0 || y > 0 ==> z > 0))
    && (x <= 0 && y <= 0 ==> z <= 0 && (x < 0 || y < 0 ==> z < 0))
  }

  /** Directions that lead to the right are ordered by slope. */
  lemma SlopesCompose(u: Vec, v: Vec, w: Vec)
    requires Rightward(u) && Rightward(v) && Rightward(w)
    ensures Composes(Cross(u, v), Cross(v, w), Cross(u, w))
  {
    XFrame(u, v, w);
    if v.x == 0 {
      SteepestSigns(u, v);
      SteepestSigns(w, v);
      SteepestSigns(u, w);
      CrossFlips(v, w);
      CrossFlips(u, w);
      SteepestSigns(w, u);
    } else {
      WeightedSigns(u.x, Cross(v, w), w.x, Cross(u, v), v.x, Cross(u, w));
      if u.x == 0 {
        SteepestSigns(v, u);
        CrossFlips(u, v);
      }
      if w.x == 0 {
        SteepestSigns(v, w);
      }
    }
  }

  lemma XFrame(u: Vec, v: Vec, w: Vec)
    ensures v.x * Cross(u, w) == u.x * Cross(v, w) + w.x * Cross(u, v)
  {
    CrossIs(u, w);
    CrossIs(v, w);
    CrossIs(u, v);
  }

  /** Straight up is the steepest direction to the right. */
  lemma SteepestSigns(u: Vec, v: Vec)
    requires Rightward(u) && Rightward(v)
    ensures v.x == 0 ==> (Cross(u, v) > 0 <==> u.x > 0) && Cross(u, v) >= 0
  {
    if v.x == 0 {
      PositiveFactor(v.y, u.x);
      CrossIs(u, v);
      assert Cross(u, v) == v.y * u.x;
    }
  }

  lemma WeightedSigns(a: int, x: int, b: int, y: int, c: int, z: int)
    requires a >= 0 && b >= 0 && c > 0 && c * z == a * x + b * y
    ensures x >= 0 && y >= 0 ==> z >= 0
    ensures x <= 0 && y <= 0 ==> z <= 0
    ensures x >= 0 && y >= 0 && ((x > 0 && a > 0) || (y > 0 && b > 0)) ==> z > 0
    ensures x <= 0 && y <= 0 && ((x < 0 && a > 0) || (y < 0 && b > 0)) ==> z < 0
  {
    ProductSign(a, x);
    ProductSign(b, y);
    PositiveFactor(c, z);
  }

  lemma ProductSign(a: int, x: int)
    requires a >= 0
    ensures x >= 0 ==> a * x >= 0
    ensures x <= 0 ==> a * x <= 0
    ensures a > 0 && x > 0 ==> a * x > 0
    ensures a > 0 && x < 0 ==> a * x < 0
  {
  }

  // ---------- orientations ----------

  lemma OrientAlternates(p: Point, q: Point, r: Point)
    ensures Orient(q, r, p) == Orient(r, p, q) == Orient(p, q, r)
    ensures Orient(q, p, r) == Orient(p, r, q) == Orient(r, q, p) == -Orient(p, q, r)
  {
    OrientTurns(p, q, r);
    OrientTurns(q, r, p);
    CrossFlips(Between(p, q), Between(p, r));
    CrossFlips(Between(q, r), Between(q, p));
    CrossFlips(Between(r, p), Between(r, q));
  }

  lemma OrientTurns(p: Point, q: Point, r: Point)
    ensures Orient(q, r, p) == Orient(p, q, r)
  {
    var u, v := Between(p, q), Between(p, r);
    BetweenIsDifference(p, q, r);
    ProductsOfOpposite(u, Minus(v, u));
    ProductsOfMinus(u, v, u);
    CrossFlips(u, u);
    CrossFlips(Minus(v, u), Opposite(u));
  }

  /** Four points from left to right: how their orientations go together. */
  lemma FourPoints(p: Point, q: Point, r: Point, s: Point)
    requires Lex(p, q) && Lex(q, r) && Lex(r, s)
    ensures Composes(Orient(p, q, r), Orient(p, r, s), Orient(p, q, s))
    ensures Composes(Orient(p, q, s), Orient(q, r, s), Orient(p, r, s))
    ensures Composes(Orient(p, q, r), Orient(q, r, s), Orient(p, q, s))
    ensures Composes(Orient(p, q, r), Orient(q, r, s), Orient(p, r, s))
  {
    SlopesCompose(Between(p, q), Between(p, r), Between(p, s));
    SlopesCompose(Between(p, s), Between(q, s), Between(r, s));
    SlopesCompose(Between(p, q), Between(q, r), Between(q, s));
    SlopesCompose(Between(p, r), Between(q, r), Between(r, s));
    OrientOfSides(p, q, r);
    OrientOfSides(p, q, s);
    OrientOfSides(p, r, s);
    OrientOfSides(q, r, s);
  }

  lemma OrientOfSides(p: Point, q: Point, r: Point)
    ensures Cross(Between(p, q), Between(q, r)) == Orient(p, q, r)
    ensures Cross(Between(p, r), Between(q, r)) == Orient(p, q, r)
  {
    var u, v := Between(p, q), Between(p, r);
    BetweenIsDifference(p, q, r);
    ProductsOfMinus(u, v, u);
    ProductsOfMinus(v, v, u);
    CrossFlips(u, v);
    CrossFlips(v, u);
  }

  // ---------- a point and a link ----------

  /** p lies on the open segment a-b. */
  ghost predicate Inside(p: Point, a: Point, b: Point) {
    Orient(a, b, p) == 0 && ((Lex(a, p) && Lex(p, b)) || (Lex(b, p) && Lex(p, a)))
  }

  /** The segments v-t and a-b have at most end points in common, or are the same. */
  ghost predicate Apart(v: Point, t: Point, a: Point, b: Point) {
    && !CrossProperly(v, t, a, b)
    && !Inside(v, a, b) && !Inside(t, a, b) && !Inside(a, v, t) && !Inside(b, v, t)
  }

  /** A traveller who has just left v for t, keeping to the right or to the left of the segment v-t, has
      the link v-b straight above. */
  ghost predicate OverAt(v: Point, t: Point, right: bool, b: Point) {
    || (Lex(v, t) && Lex(v, b) && (Orient(v, t, b) > 0 || (Orient(v, t, b) == 0 && right)))
    || (Lex(t, v) && Lex(b, v) && (Orient(v, t, b) < 0 || (Orient(v, t, b) == 0 && !right)))
  }

  /** ... has the link a-b straight above. */
  ghost predicate Over(v: Point, t: Point, right: bool, a: Point, b: Point) {
    if a == v then OverAt(v, t, right, b)
    else if b == v then OverAt(v, t, right, a)
    else Above(v, a, b)
  }

  ghost predicate Above(v: Point, a: Point, b: Point) {
    (Lex(a, v) && Lex(v, b) && Orient(a, b, v) < 0) || (Lex(b, v) && Lex(v, a) && Orient(b, a, v) < 0)
  }

  /** On the way between v and t, the point a is straight above. */
  ghost predicate High(v: Point, t: Point, a: Point) {
    (Lex(v, a) && Lex(a, t) && Orient(v, t, a) > 0) || (Lex(t, a) && Lex(a, v) && Orient(t, v, a) > 0)
  }

  /** Going from v to t past a link that is not in the way, one changes from being under the link to not
      being under it as often as one passes under one of its ends. */
  lemma PassingOneLink(v: Point, t: Point, a: Point, b: Point)
    requires v != t && a != b && Apart(v, t, a, b)
    ensures (Over(v, t, true, a, b) != Over(t, v, false, a, b)) == (High(v, t, a) != High(v, t, b))
  {
    if v == a || v == b || t == a || t == b {
      PassingAdjacentLink(v, t, a, b);
    } else {
      PassingDistantLink(v, t, a, b);
    }
  }

  lemma PassingAdjacentLink(v: Point, t: Point, a: Point, b: Point)
    requires v != t && a != b && Apart(v, t, a, b)
    requires v == a || v == b || t == a || t == b
    ensures (Over(v, t, true, a, b) != Over(t, v, false, a, b)) == (High(v, t, a) != High(v, t, b))
  {
    OrientAlternates(v, t, a);
    OrientAlternates(v, t, b);
    OrientAlternates(v, a, b);
    OrientAlternates(t, a, b);
  }

  lemma PassingDistantLink(v: Point, t: Point, a: Point, b: Point)
    requires v != t && a != b && Apart(v, t, a, b)
    requires v != a && v != b && t != a && t != b
    ensures (Over(v, t, true, a, b) != Over(t, v, false, a, b)) == (High(v, t, a) != High(v, t, b))
  {
    OrientAlternates(v, t, a);
    OrientAlternates(v, t, b);
    OrientAlternates(v, a, b);
    OrientAlternates(t, a, b);
    PassingSorted(if Lex(v, t) then v else t, if Lex(v, t) then t else v,
                  if Lex(a, b) then a else b, if Lex(a, b) then b else a);
  }

  lemma PassingSorted(v: Point, t: Point, a: Point, b: Point)
    requires Lex(v, t) && Lex(a, b) && Apart(v, t, a, b)
    requires v != a && v != b && t != a && t != b
    ensures (Above(v, a, b) != Above(t, a, b)) == (High(v, t, a) != High(v, t, b))
  {
    OrientAlternates(v, t, a);
    OrientAlternates(v, t, b);
    OrientAlternates(v, a, b);
    OrientAlternates(t, a, b);
    if Lex(v, a) {
      PassingFromTheLeft(v, t, a, b);
    } else if Lex(v, b) {
      if Lex(b, t) {
        FourPoints(a, v, b, t);
      } else {
        FourPoints(a, v, t, b);
      }
    }
  }

  lemma PassingFromTheLeft(v: Point, t: Point, a: Point, b: Point)
    requires Lex(v, t) && Lex(a, b) && Lex(v, a) && Apart(v, t, a, b)
    requires t != a && t != b
    ensures (Above(v, a, b) != Above(t, a, b)) == (High(v, t, a) != High(v, t, b))
  {
    OrientAlternates(v, t, a);
    OrientAlternates(v, t, b);
    OrientAlternates(v, a, b);
    OrientAlternates(t, a, b);
    if Lex(a, t) {
      if Lex(b, t) {
        FourPoints(v, a, b, t);
      } else {
        FourPoints(v, a, t, b);
      }
    }
  }

  // ---------- turning at a point ----------

  /** Turning clockwise at v, from straight up, one meets the direction of p before that of q. */
  ghost predicate Before(v: Point, p: Point, q: Point) {
    (Lex(v, p) && Lex(q, v)) || (SameHalf(v, p, q) && Orient(v, p, q) < 0)
  }

  ghost predicate SameHalf(v: Point, p: Point, q: Point) {
    (Lex(v, p) && Lex(v, q)) || (Lex(p, v) && Lex(q, v))
  }

  ghost predicate SameDirection(v: Point, p: Point, q: Point) {
    SameHalf(v, p, q) && Orient(v, p, q) == 0
  }

  /** The direction of p comes before that of the traveller to the right, or left, of v-t. */
  ghost predicate Passed(v: Point, p: Point, t: Point, right: bool) {
    Before(v, p, t) || (SameDirection(v, p, t) && right)
  }

  /** The traveller is in the sector that a counter-clockwise turn at v from u to w covers; if u and w are the same
      this is a full turn. */
  ghost predicate InSector(v: Point, u: Point, w: Point, t: Point, right: bool) {
    if u == w then true
    else if Before(v, w, u) then Passed(v, w, t, right) && !Passed(v, u, t, right)
    else Passed(v, w, t, right) || !Passed(v, u, t, right)
  }

  /** The vector from v to p, or its opposite, whichever leads to the right. */
  ghost function Rightwards(v: Point, p: Point): Vec {
    if Lex(v, p) then Between(v, p) else Between(p, v)
  }

  lemma SignedSlopes(v: Point, p: Point, q: Point)
    requires p != v && q != v
    ensures Cross(Rightwards(v, p), Rightwards(v, q)) == if SameHalf(v, p, q) then Orient(v, p, q) else -Orient(v, p, q)
    ensures Rightward(Rightwards(v, p))
  {
    OppositeVectors(v, p, q);
  }

  lemma OppositeVectors(v: Point, p: Point, q: Point)
    ensures Cross(Between(p, v), Between(v, q)) == Cross(Between(v, p), Between(q, v)) == -Orient(v, p, q)
    ensures Cross(Between(p, v), Between(q, v)) == Orient(v, p, q)
  {
    BetweenIsDifference(v, p, p);
    BetweenIsDifference(v, q, q);
    ProductsOfOpposite(Between(v, p), Between(v, q));
    ProductsOfOpposite(Between(v, q), Between(v, p));
    ProductsOfOpposite(Between(v, p), Between(q, v));
    CrossFlips(Between(v, p), Between(v, q));
  }

  ghost function Slope(v: Point, p: Point, q: Point): int {
    if SameHalf(v, p, q) then Orient(v, p, q) else -Orient(v, p, q)
  }

  lemma SlopesAtPoint(v: Point, p: Point, q: Point, r: Point)
    requires p != v && q != v && r != v
    ensures Composes(Slope(v, p, q), Slope(v, q, r), Slope(v, p, r))
  {
    SlopesCompose(Rightwards(v, p), Rightwards(v, q), Rightwards(v, r));
    SignedSlopes(v, p, q);
    SignedSlopes(v, q, r);
    SignedSlopes(v, p, r);
  }

  lemma AllSlopes(v: Point, p: Point, q: Point, r: Point)
    requires p != v && q != v && r != v
    ensures Composes(Slope(v, p, q), Slope(v, q, r), Slope(v, p, r))
    ensures Composes(Slope(v, q, r), Slope(v, r, p), Slope(v, q, p))
    ensures Composes(Slope(v, r, p), Slope(v, p, q), Slope(v, r, q))
    ensures Orient(v, q, p) == -Orient(v, p, q) && Orient(v, r, q) == -Orient(v, q, r)
    ensures Orient(v, r, p) == -Orient(v, p, r)
  {
    SlopesAtPoint(v, p, q, r);
    SlopesAtPoint(v, q, r, p);
    SlopesAtPoint(v, r, p, q);
    OrientAlternates(v, p, q);
    OrientAlternates(v, q, r);
    OrientAlternates(v, p, r);
  }

  /** Where a walk comes from u to v and goes on to w: turning the traveller at v into or out of the
      sector between the two links is what puts exactly one of them more, or less, above. */
  lemma TurningAtOnePassage(v: Point, u: Point, w: Point, t: Point, right: bool)
    requires u != v && w != v && t != v
    requires u == w || !SameDirection(v, u, w)
    ensures ((OverAt(v, t, right, u) != OverAt(v, t, right, w)) != InSector(v, u, w, t, right)) == !Before(v, w, u)
  {
    AllSlopes(v, u, w, t);
  }

  /** For three different directions, the sector is the cyclic order. */
  lemma SectorIsCcw(v: Point, u: Point, w: Point, t: Point, right: bool)
    requires u != v && w != v && t != v
    requires !SameDirection(v, u, w) && !SameDirection(v, u, t) && !SameDirection(v, t, w)
    ensures InSector(v, u, w, t, right) <==> Ccw(Between(v, u), Between(v, t), Between(v, w))
  {
    AllSlopes(v, u, w, t);
  }
}
