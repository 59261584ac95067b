/** The exact angular order behind GetAngle: turns between integer vectors, compared without atan2. */
module Directions {
  import opened Geometry

  /** atan2(0, 0) is 0, so a co-located point counts as lying in direction +x. */
  function Heading(from: Point, to: Point): (v: Vec)
    ensures NonZero(v)
  {
    if from == to then Vec(1, 0) else Between(from, to)
  }

  /** The turn between the two directions is 0 degrees. */
  ghost predicate SameHeading(u: Vec, v: Vec) {
    Cross(u, v) == 0 && Dot(u, v) > 0
  }

  /** From the products of two directions, the turn from one to the other.
      0: no turn; 1: less than 180 degrees; 2: exactly 180; 3: more than 180. */
  function SectorOf(cross: int, dot: int): int {
    if cross > 0 then 1
    else if cross < 0 then 3
    else if dot > 0 then 0
    else 2
  }

  ghost function Sector(r: Vec, d: Vec): int {
    SectorOf(Cross(r, d), Dot(r, d))
  }

  /** From the sectors of two directions and their cross product, which comes first. */
  predicate Precedes(sectorU: int, sectorV: int, cross: int) {
    sectorU < sectorV || (sectorU == sectorV && cross > 0)
  }

  /** The counter-clockwise turn from r to u is smaller than the one from r to v. */
  ghost predicate TurnLess(r: Vec, u: Vec, v: Vec) {
    Precedes(Sector(r, u), Sector(r, v), Cross(u, v))
  }

  /** What a node computes of a turn, and of two turns. */
  function TurnSector(r: Vec, d: Vec): (sector: int)
    ensures sector == Sector(r, d)
    ensures sector == 0 <==> SameHeading(r, d)
  {
    CrossIs(r, d);
    DotIs(r, d);
    SectorOf(CrossProduct(r, d), DotProduct(r, d))
  }

  predicate IsSmallerTurn(r: Vec, u: Vec, v: Vec)
    ensures IsSmallerTurn(r, u, v) <==> TurnLess(r, u, v)
  {
    CrossIs(u, v);
    Precedes(TurnSector(r, u), TurnSector(r, v), CrossProduct(u, v))
  }

  /** Reference notion, without a distinguished reference direction: turning counter-clockwise
      from a, one meets b strictly before c and both strictly before a again. */
  ghost predicate Ccw(a: Vec, b: Vec, c: Vec) {
    || (Cross(a, b) > 0 && Cross(b, c) > 0)
    || (Cross(b, c) > 0 && Cross(c, a) > 0)
    || (Cross(c, a) > 0 && Cross(a, b) > 0)
  }

  /** The three-term relation between the cross products of four plane vectors. */
  lemma Pluecker(r: Vec, u: Vec, v: Vec, w: Vec)
    ensures Cross(r, v) * Cross(u, w) == Cross(r, u) * Cross(v, w) + Cross(r, w) * Cross(u, v)
  {
    CrossIs(r, v);
    CrossIs(u, w);
    CrossIs(r, u);
    CrossIs(v, w);
    CrossIs(r, w);
    CrossIs(u, v);
    PlueckerArithmetic(r, u, v, w);
  }

  lemma PlueckerArithmetic(r: Vec, u: Vec, v: Vec, w: Vec)
    ensures CrossProduct(r, v) * CrossProduct(u, w)
            == CrossProduct(r, u) * CrossProduct(v, w) + CrossProduct(r, w) * CrossProduct(u, v)
  {
  }

  /** Cross and scalar products of u and v, seen in the frame of r. */
  lemma InFrame(r: Vec, u: Vec, v: Vec)
    ensures Dot(r, r) * Cross(u, v) == Dot(r, u) * Cross(r, v) - Cross(r, u) * Dot(r, v)
    ensures Dot(r, r) * Dot(u, v) == Dot(r, u) * Dot(r, v) + Cross(r, u) * Cross(r, v)
  {
    DotIs(r, r);
    DotIs(r, u);
    DotIs(r, v);
    DotIs(u, v);
    CrossIs(r, u);
    CrossIs(r, v);
    CrossIs(u, v);
    CrossArithmetic(r, u, v);
    DotArithmetic(r, u, v);
  }

  lemma CrossArithmetic(r: Vec, u: Vec, v: Vec)
    ensures DotProduct(r, r) * CrossProduct(u, v)
            == DotProduct(r, u) * CrossProduct(r, v) - CrossProduct(r, u) * DotProduct(r, v)
  {
  }

  lemma DotArithmetic(r: Vec, u: Vec, v: Vec)
    ensures DotProduct(r, r) * DotProduct(u, v)
            == DotProduct(r, u) * DotProduct(r, v) + CrossProduct(r, u) * CrossProduct(r, v)
  {
  }

  lemma PositiveFactor(k: int, x: int)
    requires k > 0
    ensures k * x > 0 <==> x > 0
    ensures k * x < 0 <==> x < 0
  {
  }

  /** Vectors of one heading are interchangeable: every product with a third vector has the same sign. */
  lemma SameHeadingSameSigns(u: Vec, v: Vec, w: Vec)
    requires NonZero(u) && SameHeading(u, v)
    ensures Cross(w, u) > 0 <==> Cross(w, v) > 0
    ensures Cross(w, u) < 0 <==> Cross(w, v) < 0
    ensures Dot(w, u) > 0 <==> Dot(w, v) > 0
  {
    InFrame(u, w, v);
    NormPositive(u);
    CrossFlips(u, w);
    PositiveFactor(Dot(u, u), Cross(w, v));
    PositiveFactor(Dot(u, u), Dot(w, v));
    PositiveFactor(Dot(u, v), Cross(w, u));
    PositiveFactor(Dot(u, v), Dot(w, u));
  }

  /** Opposite directions: crossing with the first is crossing backwards with the second. */
  lemma OppositeFlipsSigns(r: Vec, o: Vec, w: Vec)
    requires NonZero(r) && NonZero(o) && Sector(r, o) == 2
    ensures Cross(r, w) > 0 <==> Cross(w, o) > 0
    ensures Cross(r, w) < 0 <==> Cross(w, o) < 0
  {
    InFrame(r, w, o);
    NormPositive(r);
    CollinearNotOrthogonal(r, o);
    PositiveFactor(Dot(r, r), Cross(w, o));
    PositiveFactor(-Dot(r, o), Cross(r, w));
  }

  lemma CollinearNotOrthogonal(u: Vec, v: Vec)
    requires NonZero(u) && NonZero(v) && Cross(u, v) == 0
    ensures Dot(u, v) != 0
  {
    // |u|^2 |v|^2 = (u.v)^2 + (u x v)^2
    InFrame(u, v, v);
    NormPositive(u);
    NormPositive(v);
    PositiveFactor(Dot(u, u), Dot(v, v));
    assert Dot(u, u) * Dot(v, v) == Dot(u, v) * Dot(u, v) + Cross(u, v) * Cross(u, v);
  }

  lemma {:induction false} TurnLessTransitive(r: Vec, u: Vec, v: Vec, w: Vec)
    requires NonZero(r) && NonZero(u) && NonZero(v) && NonZero(w)
    requires TurnLess(r, u, v) && TurnLess(r, v, w)
    ensures TurnLess(r, u, w)
  {
    if Sector(r, u) == Sector(r, v) == Sector(r, w) {
      if Cross(r, u) == 0 {
        SectorIsCollinear(r, u, v);
        assert false;
      }
      Pluecker(r, u, v, w);
      // r x v times u x w is a sum of two terms, each with the sign of r x v
      if Sector(r, v) == 1 {
        PositiveFactor(Cross(r, u), Cross(v, w));
        PositiveFactor(Cross(r, w), Cross(u, v));
        PositiveFactor(Cross(r, v), Cross(u, w));
      } else {
        PositiveFactor(-Cross(r, u), Cross(v, w));
        PositiveFactor(-Cross(r, w), Cross(u, v));
        PositiveFactor(-Cross(r, v), Cross(u, w));
      }
    }
  }

  /** Within sectors 0 and 2 there is only one direction, so nothing there is less than anything else. */
  lemma SectorIsCollinear(r: Vec, u: Vec, v: Vec)
    requires NonZero(r) && Cross(r, u) == 0 && Cross(r, v) == 0
    ensures Cross(u, v) == 0
  {
    InFrame(r, u, v);
    NormPositive(r);
  }

  /** The order of turns is total: two directions that neither precedes are the same direction. */
  lemma TurnLessTotal(r: Vec, u: Vec, v: Vec)
    requires NonZero(r) && NonZero(u) && NonZero(v)
    ensures TurnLess(r, u, v) || TurnLess(r, v, u) || SameHeading(u, v)
    ensures !(TurnLess(r, u, v) && TurnLess(r, v, u))
    ensures SameHeading(u, v) ==> !TurnLess(r, u, v) && !TurnLess(r, v, u)
  {
    CrossFlips(u, v);
    if SameHeading(u, v) {
      SameHeadingSameSigns(u, v, r);
    } else if Sector(r, u) == Sector(r, v) && Cross(u, v) == 0 {
      // collinear and on the same side of r, yet not the same heading: impossible
      CollinearNotOrthogonal(u, v);
      InFrame(u, r, v);
      CrossFlips(u, r);
      NormPositive(u);
      if Cross(r, u) != 0 {
        PositiveFactor(Dot(u, u), Cross(r, v));
        PositiveFactor(-Dot(u, v), Cross(r, u));
        assert false;
      } else {
        CollinearNotOrthogonal(r, u);
        CollinearNotOrthogonal(r, v);
        PositiveFactor(Dot(u, u), Dot(r, v));
        PositiveFactor(-Dot(u, v), Dot(u, r));
        assert false;
      }
    }
  }

  /** The order of turns sees only headings. */
  lemma TurnLessSeesHeading(r: Vec, u: Vec, v: Vec, w: Vec)
    requires NonZero(r) && NonZero(u) && NonZero(v) && NonZero(w) && SameHeading(u, v)
    ensures TurnLess(r, u, w) <==> TurnLess(r, v, w)
    ensures SameHeading(r, u) <==> SameHeading(r, v)
  {
    SameHeadingSameSigns(u, v, r);
    SameHeadingSameSigns(u, v, w);
    CrossFlips(u, w);
    CrossFlips(v, w);
  }

  /** The order of turns from r is the cyclic order started at r: a nonzero turn to u is smaller
      than the turn to v exactly when u lies strictly inside the counter-clockwise sector r..v. */
  lemma TurnLessIsCcw(r: Vec, u: Vec, v: Vec)
    requires NonZero(r) && NonZero(u) && NonZero(v)
    requires !SameHeading(r, u) && !SameHeading(r, v)
    ensures TurnLess(r, u, v) <==> Ccw(r, u, v)
  {
    CrossFlips(r, v);
    if Sector(r, u) == 2 {
      OppositeFlipsSigns(r, u, v);
      CrossFlips(u, v);
    }
    if Sector(r, v) == 2 {
      OppositeFlipsSigns(r, v, u);
    }
    if Sector(r, u) == 2 && Sector(r, v) == 2 {
      SectorIsCollinear(r, u, v);
    }
  }

}
