/** Exact plane geometry on the coordinates that the HELLO and position headers carry. Distances are
    compared squared; circles are tested with a scalar product. Products of vectors are veiled: a proof gets
    at the coordinates through DotIs and CrossIs, and otherwise needs only the laws of products stated here. */
module Geometry {
  import opened Types
  import opened Veils

  datatype Point = Point(x: U64, y: U64)

  datatype Vec = Vec(x: int, y: int)

  function Between(from: Point, to: Point): Vec {
    Vec(to.x - from.x, to.y - from.y)
  }

  // ---------- products ----------

  function DotProduct(u: Vec, v: Vec): int {
    u.x * v.x + u.y * v.y
  }

  function CrossProduct(u: Vec, v: Vec): int {
    u.x * v.y - u.y * v.x
  }

  ghost function ScalarProduct(): ((Vec, Vec)) -> int {
    Veiled((p: (Vec, Vec)) => DotProduct(p.0, p.1))
  }

  ghost function VectorProduct(): ((Vec, Vec)) -> int {
    Veiled((p: (Vec, Vec)) => CrossProduct(p.0, p.1))
  }

  /** The scalar product, as a quantity that is mostly just compared: a proof gets at the coordinates only
      where it asks for DotIs, and is spared the arithmetic everywhere else. */
  ghost function Dot(u: Vec, v: Vec): int {
    ScalarProduct()((u, v))
  }

  /** The cross product, likewise. */
  ghost function Cross(u: Vec, v: Vec): int {
    VectorProduct()((u, v))
  }

  lemma DotIs(u: Vec, v: Vec)
    ensures Dot(u, v) == u.x * v.x + u.y * v.y == DotProduct(u, v)
  {
    LookUp((p: (Vec, Vec)) => DotProduct(p.0, p.1), (u, v));
  }

  lemma CrossIs(u: Vec, v: Vec)
    ensures Cross(u, v) == u.x * v.y - u.y * v.x == CrossProduct(u, v)
  {
    LookUp((p: (Vec, Vec)) => CrossProduct(p.0, p.1), (u, v));
  }

  function Minus(u: Vec, v: Vec): Vec {
    Vec(u.x - v.x, u.y - v.y)
  }

  function Opposite(u: Vec): Vec {
    Vec(-u.x, -u.y)
  }

  lemma CrossFlips(u: Vec, v: Vec)
    ensures Cross(u, v) == -Cross(v, u) && Dot(u, v) == Dot(v, u)
    ensures Cross(u, u) == 0
  {
    DotIs(u, v);
    DotIs(v, u);
    CrossIs(u, v);
    CrossIs(v, u);
    CrossIs(u, u);
  }

  /** Both products are linear. */
  lemma ProductsOfMinus(w: Vec, u: Vec, v: Vec)
    ensures Dot(w, Minus(u, v)) == Dot(Minus(u, v), w) == Dot(w, u) - Dot(w, v)
    ensures Cross(w, Minus(u, v)) == -Cross(Minus(u, v), w) == Cross(w, u) - Cross(w, v)
  {
    DotIs(w, u);
    DotIs(w, v);
    DotIs(w, Minus(u, v));
    CrossIs(w, u);
    CrossIs(w, v);
    CrossIs(w, Minus(u, v));
    CrossFlips(w, Minus(u, v));
  }

  lemma ProductsOfOpposite(u: Vec, v: Vec)
    ensures Dot(Opposite(u), v) == Dot(v, Opposite(u)) == -Dot(u, v)
    ensures Cross(Opposite(u), v) == -Cross(u, v) && Cross(v, Opposite(u)) == Cross(u, v)
  {
    DotIs(u, v);
    DotIs(Opposite(u), v);
    DotIs(v, Opposite(u));
    CrossIs(u, v);
    CrossIs(Opposite(u), v);
    CrossIs(v, Opposite(u));
  }

  lemma BetweenIsDifference(p: Point, q: Point, r: Point)
    ensures Between(q, r) == Minus(Between(p, r), Between(p, q))
    ensures Between(q, p) == Opposite(Between(p, q))
  {
  }

  // ---------- distances, circles, orientations ----------

  ghost function Dist2(p: Point, q: Point): int {
    Dot(Between(p, q), Between(p, q))
  }

  /** The power of point p with respect to the circle on diameter a-b:
      negative strictly inside, zero on the circle, positive outside. */
  ghost function Power(p: Point, a: Point, b: Point): int {
    Dot(Between(p, a), Between(p, b))
  }

  /** Twice the signed area of the triangle p, q, r. */
  ghost function Orient(p: Point, q: Point, r: Point): int {
    Cross(Between(p, q), Between(p, r))
  }

  /** The open segments a-b and c-d meet in a single point. */
  ghost predicate CrossProperly(a: Point, b: Point, c: Point, d: Point) {
    && ((Orient(a, b, c) > 0 && Orient(a, b, d) < 0) || (Orient(a, b, c) < 0 && Orient(a, b, d) > 0))
    && ((Orient(c, d, a) > 0 && Orient(c, d, b) < 0) || (Orient(c, d, a) < 0 && Orient(c, d, b) > 0))
  }

  lemma SquareIsNonNegative(t: int)
    ensures t * t >= 0
    ensures t * t == 0 <==> t == 0
  {
  }

  predicate NonZero(v: Vec) {
    v != Vec(0, 0)
  }

  lemma NormPositive(r: Vec)
    ensures Dot(r, r) >= 0
    ensures Dot(r, r) > 0 <==> NonZero(r)
  {
    DotIs(r, r);
    SquareIsNonNegative(r.x);
    SquareIsNonNegative(r.y);
  }

  lemma DistancePositive(p: Point, q: Point)
    ensures Dist2(p, q) >= 0
    ensures Dist2(p, q) == 0 <==> p == q
  {
    NormPositive(Between(p, q));
  }

  lemma DistanceSymmetric(p: Point, q: Point)
    ensures Dist2(p, q) == Dist2(q, p)
  {
    BetweenIsDifference(p, q, q);
    ProductsOfOpposite(Between(p, q), Between(p, q));
    ProductsOfOpposite(Between(p, q), Between(q, p));
  }

  lemma DistanceBasics(p: Point, q: Point)
    ensures Dist2(p, q) == Dist2(q, p) >= 0
    ensures Dist2(p, q) == 0 <==> p == q
  {
    DistancePositive(p, q);
    DistanceSymmetric(p, q);
  }

  /** The law of cosines at p. */
  lemma PowerIsCosine(p: Point, a: Point, b: Point)
    ensures Dist2(p, a) + Dist2(p, b) == Dist2(a, b) + 2 * Power(p, a, b)
    ensures Power(p, a, b) == Power(p, b, a)
  {
    var u, v := Between(p, a), Between(p, b);
    BetweenIsDifference(p, a, b);
    ProductsOfMinus(Minus(v, u), v, u);
    ProductsOfMinus(u, v, u);
    ProductsOfMinus(v, v, u);
    CrossFlips(u, v);
  }

  /** A point strictly inside the circle on a-b is strictly closer to both ends than they are to each other. */
  lemma InsideIsCloser(p: Point, a: Point, b: Point)
    requires Power(p, a, b) < 0
    ensures Dist2(p, a) < Dist2(a, b) && Dist2(p, b) < Dist2(a, b)
    ensures p != a && p != b
  {
    PowerIsCosine(p, a, b);
    DistanceBasics(p, a);
    DistanceBasics(p, b);
    DistanceBasics(a, b);
    DistanceBasics(b, a);
  }

  /** The power of d with respect to the circle on x-a, seen from x. */
  lemma PowerFromEnd(d: Point, x: Point, a: Point)
    ensures Power(d, x, a) == Dot(Between(x, d), Between(x, d)) - Dot(Between(x, a), Between(x, d))
  {
    var w, u := Between(x, d), Between(x, a);
    BetweenIsDifference(x, d, a);
    ProductsOfOpposite(w, Minus(u, w));
    ProductsOfMinus(w, u, w);
    CrossFlips(u, w);
  }

  // ---------- what a node computes ----------

  function SquaredDistance(p: Point, q: Point): (d: int)
    ensures d == Dist2(p, q)
  {
    DotIs(Between(p, q), Between(p, q));
    DotProduct(Between(p, q), Between(p, q))
  }

  function PowerOf(p: Point, a: Point, b: Point): (d: int)
    ensures d == Power(p, a, b)
  {
    DotIs(Between(p, a), Between(p, b));
    DotProduct(Between(p, a), Between(p, b))
  }
}
