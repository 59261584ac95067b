/** A graph drawn in the plane, with crossings, and the two sides of a walk that a rule makes in it. */
module PlaneGraphs {
  import opened Types
  import opened Veils
  import opened Geometry
  import opened Cycles
  import opened FaceWalk
  import opened Sweep
  import opened ClosedWalks

  datatype PlaneGraph = PlaneGraph(pos: map<Addr, Point>, edges: set<Edge>, next: Edge -> Edge)

  // ---------- what makes it well drawn ----------

  ghost predicate Placed(g: PlaneGraph, a: Addr, b: Addr) {
    a in g.pos && b in g.pos && a != b ==> g.pos[a] != g.pos[b]
  }

  /** A link joins two nodes, and the walk goes on from its head. */
  ghost predicate Joined(g: PlaneGraph, e: Edge) {
    && e.tail in g.pos && e.head in g.pos && e.tail != e.head
    && g.next(e) in g.edges && g.next(e).tail == e.head && g.next(e).head in g.pos
  }

  ghost predicate Untouched(g: PlaneGraph, e: Edge, f: Edge)
    requires Joined(g, e) && Joined(g, f)
  {
    Apart(g.pos[e.tail], g.pos[e.head], g.pos[f.tail], g.pos[f.head])
  }

  /** The walk goes back, or turns into another direction. */
  ghost predicate Turns(g: PlaneGraph, e: Edge)
    requires Joined(g, e)
  {
    || g.pos[e.tail] == g.pos[g.next(e).head]
    || !SameDirection(g.pos[e.head], g.pos[e.tail], g.pos[g.next(e).head])
  }

  /** Of the links that leave the head of e, only the next one is in the sector, seen from its right. */
  ghost predicate ExitRule(g: PlaneGraph, e: Edge, f: Edge)
    requires Joined(g, e) && Joined(g, f)
  {
    e.head == f.tail ==>
      (InSector(g.pos[e.head], g.pos[e.tail], g.pos[g.next(e).head], g.pos[f.head], true) <==> g.next(e) == f)
  }

  /** Of the links that enter the head of e, only e itself is in the sector, seen from its left. */
  ghost predicate EntryRule(g: PlaneGraph, e: Edge, f: Edge)
    requires Joined(g, e) && Joined(g, f)
  {
    e.head == f.head ==>
      (InSector(g.pos[e.head], g.pos[e.tail], g.pos[g.next(e).head], g.pos[f.tail], false) <==> e == f)
  }

  ghost predicate LinkFits(g: PlaneGraph, e: Edge) {
    e in g.edges ==> Joined(g, e) && Turns(g, e)
  }

  ghost predicate PairFits(g: PlaneGraph, e: Edge, f: Edge) {
    e in g.edges && f in g.edges && Joined(g, e) && Joined(g, f) ==>
      ExitRule(g, e, f) && EntryRule(g, e, f)
  }

  ghost predicate WellDrawn(g: PlaneGraph) {
    && (forall a, b :: Placed(g, a, b))
    && (forall e :: LinkFits(g, e))
    && (forall e, f :: PairFits(g, e, f))
  }

  // ---------- a walk around a face ----------

  /** The links of the walk that starts with e. */
  ghost function Trail(g: PlaneGraph, e: Edge): nat -> Edge {
    Veiled<nat, Edge>((i: nat) => Iterate(g.next, e, i))
  }

  lemma TrailIsIterate(g: PlaneGraph, e: Edge, i: nat)
    ensures Trail(g, e)(i) == Iterate(g.next, e, i)
  {
    LookUp<nat, Edge>((i: nat) => Iterate(g.next, e, i), i);
  }

  lemma {:induction false} TrailGoesOn(g: PlaneGraph, e: Edge, i: nat)
    requires WellDrawn(g) && e in g.edges
    ensures Trail(g, e)(0) == e && Trail(g, e)(i) in g.edges
    ensures Trail(g, e)(i + 1) == g.next(Trail(g, e)(i))
    ensures Joined(g, Trail(g, e)(i))
  {
    TrailIsIterate(g, e, 0);
    TrailIsIterate(g, e, i);
    TrailIsIterate(g, e, i + 1);
    IterateStep(g.next, e, i);
    if i > 0 {
      TrailGoesOn(g, e, i - 1);
    }
    assert LinkFits(g, Trail(g, e)(i));
  }

  lemma TailIsHeadBefore(g: PlaneGraph, e: Edge, i: nat)
    requires WellDrawn(g) && e in g.edges
    ensures Trail(g, e)(i).tail == if i == 0 then e.tail else Trail(g, e)(i - 1).head
  {
    if i == 0 {
      TrailGoesOn(g, e, 0);
    } else {
      TrailGoesOn(g, e, i - 1);
    }
  }

  ghost function Place(g: PlaneGraph, a: Addr): Point {
    if a in g.pos then g.pos[a] else Point(0, 0)
  }

  /** The places that the walk passes. */
  ghost function Course(g: PlaneGraph, e: Edge): nat -> Point {
    (i: nat) => Place(g, Trail(g, e)(i).tail)
  }

  lemma AlongCourse(g: PlaneGraph, e: Edge, i: nat)
    requires WellDrawn(g) && e in g.edges
    ensures var f := Trail(g, e)(i);
            && f in g.edges && Joined(g, f) && Trail(g, e)(i + 1) == g.next(f)
            && Course(g, e)(i) == g.pos[f.tail] && Course(g, e)(i + 1) == g.pos[f.head]
            && Course(g, e)(i + 2) == g.pos[g.next(f).head]
  {
    TrailGoesOn(g, e, i);
    TrailGoesOn(g, e, i + 1);
    TrailGoesOn(g, e, i + 2);
  }

  /** The walk is back at its first link after n steps. */
  ghost predicate Round(g: PlaneGraph, e: Edge, n: nat) {
    WellDrawn(g) && e in g.edges && Joined(g, e) && n > 0 && Trail(g, e)(n) == e
  }

  lemma CourseIsClosed(g: PlaneGraph, e: Edge, n: nat)
    requires Round(g, e, n)
    ensures IsClosed(Course(g, e), n)
  {
    AlongCourse(g, e, n);
    AlongCourse(g, e, 0);
    TrailGoesOn(g, e, 0);
    forall i | 0 <= i < n
      ensures Moves(Course(g, e), i)
    {
      AlongCourse(g, e, i);
      assert Placed(g, Trail(g, e)(i).tail, Trail(g, e)(i).head);
    }
  }

  lemma CourseTurns(g: PlaneGraph, e: Edge, v: Point, i: nat)
    requires WellDrawn(g) && e in g.edges
    ensures TurnsAt(Course(g, e), v, i)
  {
    AlongCourse(g, e, i);
    assert LinkFits(g, Trail(g, e)(i));
  }

  /** Where the walk leaves v, from how many sectors t is seen, and what is left is a matter of v alone. */
  lemma CourseAtNode(g: PlaneGraph, e: Edge, n: nat, v: Point, t: Point, right: bool)
    requires Round(g, e, n) && v != t
    ensures (Under(Course(g, e), n, v, t, right) != WithinSectors(Course(g, e), n, v, t, right))
            == Outside(Course(g, e), n, v)
  {
    CourseIsClosed(g, e, n);
    forall i | 0 <= i < n
      ensures TurnsAt(Course(g, e), v, i)
    {
      CourseTurns(g, e, v, i);
    }
    TurningFollowsSectors(Course(g, e), n, v, t, right);
  }

  // ---------- along a link ----------

  /** The i-th link of the walk is f. */
  ghost predicate IsUse(g: PlaneGraph, e: Edge, f: Edge, i: nat) {
    Trail(g, e)(i) == f
  }

  ghost function Uses(g: PlaneGraph, e: Edge, f: Edge): nat -> bool {
    Veiled<nat, bool>((i: nat) => IsUse(g, e, f, i))
  }

  lemma UseAt(g: PlaneGraph, e: Edge, f: Edge, i: nat)
    ensures Uses(g, e, f)(i) == (Trail(g, e)(i) == f)
  {
    LookUp<nat, bool>((i: nat) => IsUse(g, e, f, i), i);
  }

  lemma SectorOnRight(g: PlaneGraph, e: Edge, f: Edge, i: nat)
    requires WellDrawn(g) && e in g.edges && f in g.edges && Joined(g, f)
    ensures IsWithin(Course(g, e), g.pos[f.tail], g.pos[f.head], true, i) <==> Trail(g, e)(i + 1) == f
  {
    AlongCourse(g, e, i);
    assert Placed(g, Trail(g, e)(i).head, f.tail);
    assert PairFits(g, Trail(g, e)(i), f);
  }

  lemma SectorOnLeft(g: PlaneGraph, e: Edge, f: Edge, i: nat)
    requires WellDrawn(g) && e in g.edges && f in g.edges && Joined(g, f)
    ensures IsWithin(Course(g, e), g.pos[f.head], g.pos[f.tail], false, i) <==> Trail(g, e)(i) == f
  {
    AlongCourse(g, e, i);
    assert Placed(g, Trail(g, e)(i).head, f.head);
    assert PairFits(g, Trail(g, e)(i), f);
  }

  lemma SectorsAtEnds(g: PlaneGraph, e: Edge, f: Edge, i: nat)
    requires WellDrawn(g) && e in g.edges && f in g.edges && Joined(g, f)
    ensures SameAt(Sectors(Course(g, e), g.pos[f.tail], g.pos[f.head], true), Shifted(Uses(g, e, f)), i)
    ensures SameAt(Sectors(Course(g, e), g.pos[f.head], g.pos[f.tail], false), Uses(g, e, f), i)
  {
    SectorAt(Course(g, e), g.pos[f.tail], g.pos[f.head], true, i);
    SectorOnRight(g, e, f, i);
    UseAt(g, e, f, i + 1);
    SectorAt(Course(g, e), g.pos[f.head], g.pos[f.tail], false, i);
    SectorOnLeft(g, e, f, i);
    UseAt(g, e, f, i);
  }

  /** A link is in as many of the walk's sectors at its tail, seen from its right, as at its head, seen from
      its left. */
  lemma SectorsMatch(g: PlaneGraph, e: Edge, n: nat, f: Edge)
    requires Round(g, e, n) && f in g.edges && Joined(g, f)
    ensures WithinSectors(Course(g, e), n, g.pos[f.tail], g.pos[f.head], true)
            == WithinSectors(Course(g, e), n, g.pos[f.head], g.pos[f.tail], false)
  {
    var right := Sectors(Course(g, e), g.pos[f.tail], g.pos[f.head], true);
    var left := Sectors(Course(g, e), g.pos[f.head], g.pos[f.tail], false);
    var uses := Uses(g, e, f);
    forall i | 0 <= i < n
      ensures SameAt(right, Shifted(uses), i)
      ensures SameAt(left, uses, i)
    {
      SectorsAtEnds(g, e, f, i);
    }
    OddSame(right, Shifted(uses), n);
    OddSame(left, uses, n);
    TrailGoesOn(g, e, 0);
    UseAt(g, e, f, 0);
    UseAt(g, e, f, n);
    OddRound(uses, n);
  }

  ghost predicate ClearOf(g: PlaneGraph, f: Edge, e: Edge)
    requires Joined(g, f)
  {
    e in g.edges && Joined(g, e) ==> Untouched(g, f, e)
  }

  ghost predicate IsOutside(g: PlaneGraph, e: Edge, n: nat, a: Addr) {
    Outside(Course(g, e), n, Place(g, a))
  }

  /** Both ends of a link that no other link crosses are on the same side of the walk. */
  lemma LinkKeepsSide(g: PlaneGraph, e: Edge, n: nat, f: Edge)
    requires Round(g, e, n) && f in g.edges && Joined(g, f)
    requires forall h :: ClearOf(g, f, h)
    ensures IsOutside(g, e, n, f.tail) == IsOutside(g, e, n, f.head)
  {
    var w, v, t := Course(g, e), g.pos[f.tail], g.pos[f.head];
    assert Placed(g, f.tail, f.head);
    CourseIsClosed(g, e, n);
    forall i | 0 <= i < n
      ensures KeepsClear(w, v, t, i)
    {
      AlongCourse(g, e, i);
      assert ClearOf(g, f, Trail(g, e)(i));
    }
    MovingKeepsParity(w, n, v, t);
    CourseAtNode(g, e, n, v, t, true);
    CourseAtNode(g, e, n, t, v, false);
    SectorsMatch(g, e, n, f);
  }

  // ---------- towards a goal ----------

  /** y is where the walk leaves x on first turning from the direction of goal: that direction is in the
      sector of just the passage that leaves x for y. */
  ghost predicate GoalRule(g: PlaneGraph, goal: Point, first: Edge, e: Edge)
    requires Joined(g, e) && first.tail in g.pos
  {
    e.head == first.tail ==>
      (InSector(g.pos[e.head], g.pos[e.tail], g.pos[g.next(e).head], goal, true) <==> g.next(e) == first)
  }

  ghost predicate SeesGoal(g: PlaneGraph, goal: Point, first: Edge, e: Edge) {
    e in g.edges && Joined(g, e) && first.tail in g.pos ==> GoalRule(g, goal, first, e)
  }

  lemma SectorToGoal(g: PlaneGraph, first: Edge, goal: Point, i: nat)
    requires WellDrawn(g) && first in g.edges && Joined(g, first)
    requires forall e :: SeesGoal(g, goal, first, e)
    ensures Sectors(Course(g, first), g.pos[first.tail], goal, true)(i) == (Trail(g, first)(i + 1) == first)
  {
    var e := Trail(g, first)(i);
    SectorAt(Course(g, first), g.pos[first.tail], goal, true, i);
    AlongCourse(g, first, i);
    assert Placed(g, e.head, first.tail);
    assert SeesGoal(g, goal, first, e);
  }

  /** n is the first time that the walk is back at its first link. */
  ghost predicate FirstRound(g: PlaneGraph, e: Edge, n: nat) {
    Round(g, e, n) && forall i :: 1 <= i < n ==> Trail(g, e)(i) != e
  }

  lemma GoalSeenOnce(g: PlaneGraph, first: Edge, n: nat, goal: Point)
    requires FirstRound(g, first, n)
    requires forall e :: SeesGoal(g, goal, first, e)
    ensures WithinSectors(Course(g, first), n, g.pos[first.tail], goal, true)
  {
    var sectors, uses := Sectors(Course(g, first), g.pos[first.tail], goal, true), Uses(g, first, first);
    forall i | 0 <= i < n
      ensures SameAt(sectors, Shifted(uses), i)
    {
      SectorToGoal(g, first, goal, i);
      UseAt(g, first, first, i + 1);
    }
    OddSame(sectors, Shifted(uses), n);
    TrailGoesOn(g, first, 0);
    UseAt(g, first, first, 0);
    UseAt(g, first, first, n);
    OddRound(uses, n);
    forall i | 1 <= i < n
      ensures !uses(i)
    {
      UseAt(g, first, first, i);
    }
    OneIsOdd(uses, n);
  }

  ghost predicate PassesBy(g: PlaneGraph, from: Point, goal: Point, e: Edge)
    requires Joined(g, e)
  {
    Apart(from, goal, g.pos[e.tail], g.pos[e.head]) && g.pos[e.head] != goal
  }

  lemma GoalIsNoStop(g: PlaneGraph, first: Edge, n: nat, goal: Point)
    requires Round(g, first, n)
    requires forall i :: 0 <= i < n ==> g.pos[Joining(g, first, i).head] != goal
    ensures !WithinSectors(Course(g, first), n, goal, g.pos[first.tail], false)
  {
    var sectors := Sectors(Course(g, first), goal, g.pos[first.tail], false);
    forall i | 0 <= i < n
      ensures !sectors(i)
    {
      SectorAt(Course(g, first), goal, g.pos[first.tail], false, i);
      AlongCourse(g, first, i);
      assert g.pos[Joining(g, first, i).head] != goal;
    }
    NoneIsEven(sectors, n);
  }

  ghost function Joining(g: PlaneGraph, e: Edge, i: nat): (f: Edge)
    requires WellDrawn(g) && e in g.edges
    ensures f == Trail(g, e)(i) && f in g.edges && Joined(g, f)
  {
    TrailGoesOn(g, e, i);
    Trail(g, e)(i)
  }

  /** If neither a link nor a stop of the walk comes between its start and the goal, and the walk started by
      turning from the goal's direction, then the goal is on the other side of the walk from its start. */
  lemma GoalIsAcross(g: PlaneGraph, first: Edge, n: nat, goal: Point)
    requires FirstRound(g, first, n) && goal != g.pos[first.tail]
    requires forall e :: SeesGoal(g, goal, first, e)
    requires forall i :: 0 <= i < n ==> PassesBy(g, g.pos[first.tail], goal, Joining(g, first, i))
    ensures Outside(Course(g, first), n, g.pos[first.tail]) != Outside(Course(g, first), n, goal)
  {
    var w, x := Course(g, first), g.pos[first.tail];
    CourseIsClosed(g, first, n);
    forall i | 0 <= i < n
      ensures KeepsClear(w, x, goal, i)
      ensures g.pos[Joining(g, first, i).head] != goal
    {
      AlongCourse(g, first, i);
      assert PassesBy(g, x, goal, Joining(g, first, i));
    }
    MovingKeepsParity(w, n, x, goal);
    CourseAtNode(g, first, n, x, goal, true);
    CourseAtNode(g, first, n, goal, x, false);
    GoalSeenOnce(g, first, n, goal);
    GoalIsNoStop(g, first, n, goal);
  }
}
