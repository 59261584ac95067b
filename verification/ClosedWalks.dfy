/** A closed walk in the plane, modulo two: whether an odd number of its links lies straight above a point,
    seen from a node. Moving along a segment that keeps clear of the walk does not change this; turning at a
    node changes it as often as one passes from inside to outside a sector that the walk sweeps over. */
module ClosedWalks {
  import opened Geometry
  import opened Veils
  import opened Sweep

  // ---------- odd numbers of cases ----------

  /** An odd number of the first n cases holds. */
  ghost function Odd(f: nat -> bool, n: nat): bool {
    if n == 0 then false else Odd(f, n - 1) != f(n - 1)
  }

  ghost predicate SumAt(f: nat -> bool, g: nat -> bool, h: nat -> bool, i: nat) {
    h(i) == (f(i) != g(i))
  }

  ghost predicate Sums(f: nat -> bool, g: nat -> bool, h: nat -> bool, n: nat) {
    forall i :: 0 <= i < n ==> SumAt(f, g, h, i)
  }

  lemma {:induction false} OddSum(f: nat -> bool, g: nat -> bool, h: nat -> bool, n: nat)
    requires Sums(f, g, h, n)
    ensures Odd(h, n) == (Odd(f, n) != Odd(g, n))
  {
    if n > 0 {
      OddSum(f, g, h, n - 1);
      assert SumAt(f, g, h, n - 1);
    }
  }

  ghost function Shifted(f: nat -> bool): nat -> bool {
    (i: nat) => f(i + 1)
  }

  lemma {:induction false} OddShift(f: nat -> bool, n: nat)
    ensures Odd(Shifted(f), n) == ((Odd(f, n) != f(n)) != f(0))
  {
    if n > 0 {
      OddShift(f, n - 1);
    }
  }

  /** Round a closed walk it does not matter where one starts to count. */
  lemma OddRound(f: nat -> bool, n: nat)
    requires f(n) == f(0)
    ensures Odd(Shifted(f), n) == Odd(f, n)
  {
    OddShift(f, n);
  }

  ghost predicate SameAt(f: nat -> bool, g: nat -> bool, i: nat) {
    f(i) == g(i)
  }

  lemma {:induction false} OddSame(f: nat -> bool, g: nat -> bool, n: nat)
    requires forall i :: 0 <= i < n ==> SameAt(f, g, i)
    ensures Odd(f, n) == Odd(g, n)
  {
    if n > 0 {
      OddSame(f, g, n - 1);
      assert SameAt(f, g, n - 1);
    }
  }

  /** No case holds. */
  lemma {:induction false} NoneIsEven(f: nat -> bool, n: nat)
    requires forall i :: 0 <= i < n ==> !f(i)
    ensures !Odd(f, n)
  {
    if n > 0 {
      NoneIsEven(f, n - 1);
    }
  }

  /** Exactly the first case holds. */
  lemma {:induction false} OneIsOdd(f: nat -> bool, n: nat)
    requires n > 0 && f(0) && forall i :: 1 <= i < n ==> !f(i)
    ensures Odd(f, n)
  {
    if n > 1 {
      OneIsOdd(f, n - 1);
    } else {
      assert !Odd(f, 0);
    }
  }

  // ---------- the walk ----------

  /** The links of the walk join its i-th point to the next; after n of them it starts over. */
  ghost predicate IsClosed(w: nat -> Point, n: nat) {
    && n > 0 && w(n) == w(0) && w(n + 1) == w(1)
    && forall i :: 0 <= i < n ==> Moves(w, i)
  }

  ghost predicate Moves(w: nat -> Point, i: nat) {
    w(i) != w(i + 1)
  }

  ghost predicate IsOver(w: nat -> Point, v: Point, t: Point, right: bool, i: nat) {
    Over(v, t, right, w(i), w(i + 1))
  }

  ghost function OverLinks(w: nat -> Point, v: Point, t: Point, right: bool): nat -> bool {
    Veiled<nat, bool>((i: nat) => IsOver(w, v, t, right, i))
  }

  lemma OverLink(w: nat -> Point, v: Point, t: Point, right: bool, i: nat)
    ensures OverLinks(w, v, t, right)(i) == IsOver(w, v, t, right, i)
  {
    LookUp<nat, bool>((i: nat) => IsOver(w, v, t, right, i), i);
  }

  /** The traveller who has just left v for t is under an odd number of the walk's links. */
  ghost predicate Under(w: nat -> Point, n: nat, v: Point, t: Point, right: bool) {
    Odd(OverLinks(w, v, t, right), n)
  }

  ghost predicate IsWithin(w: nat -> Point, v: Point, t: Point, right: bool, i: nat) {
    w(i + 1) == v && InSector(v, w(i), w(i + 2), t, right)
  }

  ghost function Sectors(w: nat -> Point, v: Point, t: Point, right: bool): nat -> bool {
    Veiled<nat, bool>((i: nat) => IsWithin(w, v, t, right, i))
  }

  lemma SectorAt(w: nat -> Point, v: Point, t: Point, right: bool, i: nat)
    ensures Sectors(w, v, t, right)(i) == IsWithin(w, v, t, right, i)
  {
    LookUp<nat, bool>((i: nat) => IsWithin(w, v, t, right, i), i);
  }

  /** ... and in the sectors of an odd number of the walk's passages through v. */
  ghost predicate WithinSectors(w: nat -> Point, n: nat, v: Point, t: Point, right: bool) {
    Odd(Sectors(w, v, t, right), n)
  }

  // ---------- moving ----------

  ghost predicate KeepsClear(w: nat -> Point, v: Point, t: Point, i: nat) {
    Apart(v, t, w(i), w(i + 1))
  }

  ghost predicate IsHigh(w: nat -> Point, v: Point, t: Point, i: nat) {
    High(v, t, w(i))
  }

  ghost function HighPoints(w: nat -> Point, v: Point, t: Point): nat -> bool {
    Veiled<nat, bool>((i: nat) => IsHigh(w, v, t, i))
  }

  lemma HighPoint(w: nat -> Point, v: Point, t: Point, i: nat)
    ensures HighPoints(w, v, t)(i) == IsHigh(w, v, t, i)
  {
    LookUp<nat, bool>((i: nat) => IsHigh(w, v, t, i), i);
  }

  /** Between f and g the i-th case changes exactly if it does from h to the next case of h. */
  ghost predicate ChangesWith(f: nat -> bool, g: nat -> bool, h: nat -> bool, i: nat) {
    (f(i) != g(i)) == (h(i) != h(i + 1))
  }

  lemma ChangesEvenly(f: nat -> bool, g: nat -> bool, h: nat -> bool, n: nat)
    requires forall i :: 0 <= i < n ==> ChangesWith(f, g, h, i)
    requires h(n) == h(0)
    ensures Odd(f, n) == Odd(g, n)
  {
    var changes := (i: nat) => f(i) != g(i);
    OddSum(f, g, changes, n);
    forall i | 0 <= i < n
      ensures SumAt(h, Shifted(h), changes, i)
    {
      assert ChangesWith(f, g, h, i);
    }
    OddSum(h, Shifted(h), changes, n);
    OddRound(h, n);
  }

  lemma PassingLink(w: nat -> Point, v: Point, t: Point, i: nat)
    requires v != t && Moves(w, i) && KeepsClear(w, v, t, i)
    ensures ChangesWith(OverLinks(w, v, t, true), OverLinks(w, t, v, false), HighPoints(w, v, t), i)
  {
    OverLink(w, v, t, true, i);
    OverLink(w, t, v, false, i);
    HighPoint(w, v, t, i);
    HighPoint(w, v, t, i + 1);
    PassingOneLink(v, t, w(i), w(i + 1));
  }

  /** From one end to the other of a segment that keeps clear of the walk, one stays under an odd, or
      under an even, number of its links. */
  lemma MovingKeepsParity(w: nat -> Point, n: nat, v: Point, t: Point)
    requires IsClosed(w, n) && v != t
    requires forall i :: 0 <= i < n ==> KeepsClear(w, v, t, i)
    ensures Under(w, n, v, t, true) == Under(w, n, t, v, false)
  {
    forall i | 0 <= i < n
      ensures ChangesWith(OverLinks(w, v, t, true), OverLinks(w, t, v, false), HighPoints(w, v, t), i)
    {
      assert Moves(w, i) && KeepsClear(w, v, t, i);
      PassingLink(w, v, t, i);
    }
    HighPoint(w, v, t, n);
    HighPoint(w, v, t, 0);
    ChangesEvenly(OverLinks(w, v, t, true), OverLinks(w, t, v, false), HighPoints(w, v, t), n);
  }

  // ---------- turning ----------

  /** The walk never passes v between two different links in the same direction. */
  ghost predicate TurnsAt(w: nat -> Point, v: Point, i: nat) {
    w(i + 1) == v ==> w(i) == w(i + 2) || !SameDirection(v, w(i), w(i + 2))
  }

  ghost predicate IsDistant(w: nat -> Point, v: Point, i: nat) {
    w(i) != v && w(i + 1) != v && Above(v, w(i), w(i + 1))
  }

  ghost function Distant(w: nat -> Point, v: Point): nat -> bool {
    Veiled<nat, bool>((i: nat) => IsDistant(w, v, i))
  }

  ghost predicate IsLeaving(w: nat -> Point, v: Point, t: Point, right: bool, i: nat) {
    w(i) == v && OverAt(v, t, right, w(i + 1))
  }

  ghost function Leaving(w: nat -> Point, v: Point, t: Point, right: bool): nat -> bool {
    Veiled<nat, bool>((i: nat) => IsLeaving(w, v, t, right, i))
  }

  ghost predicate IsEntering(w: nat -> Point, v: Point, t: Point, right: bool, i: nat) {
    w(i + 1) == v && OverAt(v, t, right, w(i))
  }

  ghost function Entering(w: nat -> Point, v: Point, t: Point, right: bool): nat -> bool {
    Veiled<nat, bool>((i: nat) => IsEntering(w, v, t, right, i))
  }

  ghost predicate IsFlip(w: nat -> Point, v: Point, i: nat) {
    w(i + 1) == v && !Before(v, w(i + 2), w(i))
  }

  ghost function Flips(w: nat -> Point, v: Point): nat -> bool {
    Veiled<nat, bool>((i: nat) => IsFlip(w, v, i))
  }

  lemma DistantAt(w: nat -> Point, v: Point, i: nat)
    ensures Distant(w, v)(i) == IsDistant(w, v, i)
  {
    LookUp<nat, bool>((i: nat) => IsDistant(w, v, i), i);
  }

  lemma LeavingAt(w: nat -> Point, v: Point, t: Point, right: bool, i: nat)
    ensures Leaving(w, v, t, right)(i) == IsLeaving(w, v, t, right, i)
  {
    LookUp<nat, bool>((i: nat) => IsLeaving(w, v, t, right, i), i);
  }

  lemma EnteringAt(w: nat -> Point, v: Point, t: Point, right: bool, i: nat)
    ensures Entering(w, v, t, right)(i) == IsEntering(w, v, t, right, i)
  {
    LookUp<nat, bool>((i: nat) => IsEntering(w, v, t, right, i), i);
  }

  lemma FlipAt(w: nat -> Point, v: Point, i: nat)
    ensures Flips(w, v)(i) == IsFlip(w, v, i)
  {
    LookUp<nat, bool>((i: nat) => IsFlip(w, v, i), i);
  }

  /** What the parity at v comes to, whatever the direction one looks in. */
  ghost predicate Outside(w: nat -> Point, n: nat, v: Point) {
    Odd(Distant(w, v), n) != Odd(Flips(w, v), n)
  }

  /** A link above is a distant one, or one that leaves v, or one that enters it. */
  ghost predicate SplitsAt(over: nat -> bool, distant: nat -> bool, leaving: nat -> bool, entering: nat -> bool,
                           i: nat)
  {
    over(i) == ((distant(i) != leaving(i)) != entering(i))
  }

  lemma LinkAtNode(w: nat -> Point, v: Point, t: Point, right: bool, i: nat)
    requires Moves(w, i)
    ensures SplitsAt(OverLinks(w, v, t, right), Distant(w, v), Leaving(w, v, t, right), Entering(w, v, t, right), i)
  {
    OverLink(w, v, t, right, i);
    DistantAt(w, v, i);
    LeavingAt(w, v, t, right, i);
    EnteringAt(w, v, t, right, i);
  }

  /** Of the two links at a passage, the leaving one is counted one step later than the entering one. */
  ghost predicate TurnsWith(leaving: nat -> bool, entering: nat -> bool, sectors: nat -> bool, flips: nat -> bool,
                            i: nat)
  {
    ((entering(i) != leaving(i + 1)) != sectors(i)) == flips(i)
  }

  lemma PassageAt(w: nat -> Point, v: Point, t: Point, right: bool, i: nat)
    requires v != t && Moves(w, i) && w(i + 1) != w(i + 2) && TurnsAt(w, v, i)
    ensures TurnsWith(Leaving(w, v, t, right), Entering(w, v, t, right), Sectors(w, v, t, right), Flips(w, v), i)
  {
    LeavingAt(w, v, t, right, i + 1);
    EnteringAt(w, v, t, right, i);
    SectorAt(w, v, t, right, i);
    FlipAt(w, v, i);
    if w(i + 1) == v {
      TurningAtOnePassage(v, w(i), w(i + 2), t, right);
    }
  }

  lemma OddTurns(over: nat -> bool, distant: nat -> bool, leaving: nat -> bool, entering: nat -> bool,
                 sectors: nat -> bool, flips: nat -> bool, n: nat)
    requires forall i :: 0 <= i < n ==> SplitsAt(over, distant, leaving, entering, i)
    requires forall i :: 0 <= i < n ==> TurnsWith(leaving, entering, sectors, flips, i)
    requires leaving(n) == leaving(0)
    ensures (Odd(over, n) != Odd(sectors, n)) == (Odd(distant, n) != Odd(flips, n))
  {
    var apart := (i: nat) => distant(i) != leaving(i);
    OddSum(distant, leaving, apart, n);
    forall i | 0 <= i < n
      ensures SumAt(apart, entering, over, i)
    {
      assert SplitsAt(over, distant, leaving, entering, i);
    }
    OddSum(apart, entering, over, n);
    var passing := (i: nat) => entering(i) != leaving(i + 1);
    OddSum(entering, Shifted(leaving), passing, n);
    OddRound(leaving, n);
    forall i | 0 <= i < n
      ensures SumAt(passing, sectors, flips, i)
    {
      assert TurnsWith(leaving, entering, sectors, flips, i);
    }
    OddSum(passing, sectors, flips, n);
  }

  /** Turning at v, one changes parity as often as one enters or leaves a sector of the walk. */
  lemma TurningFollowsSectors(w: nat -> Point, n: nat, v: Point, t: Point, right: bool)
    requires IsClosed(w, n) && v != t
    requires forall i :: 0 <= i < n ==> TurnsAt(w, v, i)
    ensures (Under(w, n, v, t, right) != WithinSectors(w, n, v, t, right)) == Outside(w, n, v)
  {
    var over, distant, leaving := OverLinks(w, v, t, right), Distant(w, v), Leaving(w, v, t, right);
    var entering, sectors, flips := Entering(w, v, t, right), Sectors(w, v, t, right), Flips(w, v);
    forall i | 0 <= i < n
      ensures SplitsAt(over, distant, leaving, entering, i)
      ensures TurnsWith(leaving, entering, sectors, flips, i)
    {
      assert Moves(w, i) && TurnsAt(w, v, i);
      assert Moves(w, if i < n - 1 then i + 1 else 0);
      LinkAtNode(w, v, t, right, i);
      PassageAt(w, v, t, right, i);
    }
    LeavingAt(w, v, t, right, n);
    LeavingAt(w, v, t, right, 0);
    OddTurns(over, distant, leaving, entering, sectors, flips, n);
  }
}
