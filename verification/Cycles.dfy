/** Iterating a map that is injective on a finite set it maps into itself. */
module Cycles {
  import opened Veils

  ghost function Repeated<T(!new)>(f: T -> T, x: T, k: nat): T {
    if k == 0 then x else f(Repeated(f, x, k - 1))
  }

  ghost function Iterates<T(!new)>(f: T -> T, x: T): nat -> T {
    Veiled<nat, T>((k: nat) => Repeated(f, x, k))
  }

  /** The k-th iterate of f on x, known step by step through IterateStep. */
  ghost function Iterate<T(!new)>(f: T -> T, x: T, k: nat): T {
    Iterates(f, x)(k)
  }

  lemma IterateStep<T(!new)>(f: T -> T, x: T, k: nat)
    ensures Iterate(f, x, 0) == x
    ensures Iterate(f, x, k + 1) == f(Iterate(f, x, k))
  {
    LookUp<nat, T>((i: nat) => Repeated(f, x, i), 0);
    LookUp<nat, T>((i: nat) => Repeated(f, x, i), k);
    LookUp<nat, T>((i: nat) => Repeated(f, x, i), k + 1);
  }

  /** The map takes the j-th of the given states to the next. */
  ghost predicate LeadsOn<T(!new)>(f: T -> T, state: nat -> T, j: nat) {
    f(state(j)) == state(j + 1)
  }

  lemma {:induction false} IterateFollows<T(!new)>(f: T -> T, state: nat -> T, k: nat)
    requires forall j :: 0 <= j < k ==> LeadsOn(f, state, j)
    ensures Iterate(f, state(0), k) == state(k)
  {
    IterateStep(f, state(0), if k == 0 then 0 else k - 1);
    if k > 0 {
      IterateFollows(f, state, k - 1);
      assert LeadsOn(f, state, k - 1);
    }
  }

  ghost predicate Closed<T(!new)>(f: T -> T, s: set<T>) {
    forall x :: x in s ==> f(x) in s
  }

  ghost predicate InjectiveOn<T(!new)>(f: T -> T, s: set<T>) {
    forall x, y :: x in s && y in s && f(x) == f(y) ==> x == y
  }

  lemma {:induction false} IterateStaysInside<T(!new)>(f: T -> T, s: set<T>, x: T, k: nat)
    requires Closed(f, s) && x in s
    ensures Iterate(f, x, k) in s
  {
    IterateStep(f, x, if k == 0 then 0 else k - 1);
    if k > 0 {
      IterateStaysInside(f, s, x, k - 1);
    }
  }

  lemma {:induction false} IterateAdds<T(!new)>(f: T -> T, x: T, j: nat, k: nat)
    ensures Iterate(f, Iterate(f, x, j), k) == Iterate(f, x, j + k)
  {
    IterateStep(f, Iterate(f, x, j), if k == 0 then 0 else k - 1);
    if k > 0 {
      IterateStep(f, x, j + k - 1);
      IterateAdds(f, x, j, k - 1);
    }
  }

  ghost function FirstIterates<T(!new)>(f: T -> T, x: T, n: nat): set<T> {
    set i | 0 <= i < n :: Iterate(f, x, i)
  }

  /** If the first n iterates are all different, they are n members of the set. */
  lemma {:induction false} DifferentIteratesCount<T(!new)>(f: T -> T, s: set<T>, x: T, n: nat)
    requires Closed(f, s) && x in s
    requires forall i, j :: 0 <= i < j < n ==> Iterate(f, x, i) != Iterate(f, x, j)
    ensures FirstIterates(f, x, n) <= s && |FirstIterates(f, x, n)| == n
  {
    if n > 0 {
      DifferentIteratesCount(f, s, x, n - 1);
      IterateStaysInside(f, s, x, n - 1);
      OneMoreIterate(f, x, n);
    }
  }

  lemma OneMoreIterate<T(!new)>(f: T -> T, x: T, n: nat)
    requires n > 0
    requires forall i :: 0 <= i < n - 1 ==> Iterate(f, x, i) != Iterate(f, x, n - 1)
    ensures |FirstIterates(f, x, n)| == |FirstIterates(f, x, n - 1)| + 1
    ensures FirstIterates(f, x, n) == FirstIterates(f, x, n - 1) + {Iterate(f, x, n - 1)}
  {
    assert FirstIterates(f, x, n) == FirstIterates(f, x, n - 1) + {Iterate(f, x, n - 1)};
    assert Iterate(f, x, n - 1) !in FirstIterates(f, x, n - 1);
  }

  lemma SubsetIsNoLarger<T(!new)>(a: set<T>, b: set<T>)
    requires a <= b
    ensures |a| <= |b|
  {
    assert b == a + (b - a);
  }

  /** Injectivity carries a coincidence back to the start. */
  lemma {:induction false} PeelBack<T(!new)>(f: T -> T, s: set<T>, x: T, i: nat, p: nat)
    requires Closed(f, s) && InjectiveOn(f, s) && x in s
    requires Iterate(f, x, i) == Iterate(f, x, i + p)
    ensures Iterate(f, x, p) == x
  {
    IterateStep(f, x, if i == 0 then 0 else i - 1);
    if i > 0 {
      IterateStep(f, x, i - 1 + p);
      IterateStaysInside(f, s, x, i - 1);
      IterateStaysInside(f, s, x, i - 1 + p);
      PeelBack(f, s, x, i - 1, p);
    }
  }

  /** Every orbit is purely periodic: the walk returns to where it started, within |s| steps. */
  lemma OrbitCloses<T(!new)>(f: T -> T, s: set<T>, x: T) returns (p: nat)
    requires Closed(f, s) && InjectiveOn(f, s) && x in s
    ensures 1 <= p <= |s| && Iterate(f, x, p) == x
  {
    var n := |s| + 1;
    if forall i, j :: 0 <= i < j < n ==> Iterate(f, x, i) != Iterate(f, x, j) {
      DifferentIteratesCount(f, s, x, n);
      SubsetIsNoLarger(FirstIterates(f, x, n), s);
      assert false;
    }
    var i, j :| 0 <= i < j < n && Iterate(f, x, i) == Iterate(f, x, j);
    PeelBack(f, s, x, i, j - i);
    p := j - i;
  }

  /** A closed orbit keeps repeating, from any of its points. */
  lemma {:induction false} OrbitRepeats<T(!new)>(f: T -> T, x: T, p: nat, k: nat)
    requires Iterate(f, x, p) == x
    ensures Iterate(f, x, k + p) == Iterate(f, x, k)
  {
    IterateStep(f, x, if k == 0 then 0 else k - 1);
    if k > 0 {
      IterateStep(f, x, k - 1 + p);
      OrbitRepeats(f, x, p, k - 1);
    }
  }

  /** Every point of a closed orbit is still to come, wherever on it one is. */
  lemma {:induction false} ComesAround<T(!new)>(f: T -> T, x: T, p: nat, j: nat, i: nat) returns (m: nat)
    requires p >= 1 && Iterate(f, x, p) == x
    ensures Iterate(f, Iterate(f, x, j), m) == Iterate(f, x, i)
  {
    IterateStep(f, x, if j == 0 then 0 else j - 1);
    if j == 0 {
      m := i;
    } else {
      var before := ComesAround(f, x, p, j - 1, i);
      var y := Iterate(f, x, j - 1);
      IterateAdds(f, x, j - 1, p);
      OrbitRepeats(f, x, p, j - 1);
      OrbitRepeats(f, y, p, before);
      m := before + p - 1;
      IterateStep(f, y, 0);
      IterateAdds(f, y, 1, m);
    }
  }

  // ---------- runs that must end ----------

  /** After i steps the run is done, or at a lower level; either way the steps are within the budget. */
  ghost predicate Improves<T(!new)>(f: T -> T, good: T -> bool, done: T -> bool, level: T -> nat, budget: T -> nat,
                                    x: T, i: nat)
  {
    var y := Iterate(f, x, i);
    || (done(y) && i <= budget(x))
    || (good(y) && level(y) < level(x) && i + budget(y) <= budget(x))
  }

  ghost predicate Progresses<T(!new)>(f: T -> T, good: T -> bool, done: T -> bool, level: T -> nat, budget: T -> nat,
                                      x: T)
  {
    exists i :: Improves(f, good, done, level, budget, x, i)
  }

  /** If every good state that is not done improves, a run from a good state is done within its budget. */
  lemma {:induction false} DoneWithinBudget<T(!new)>(f: T -> T, good: T -> bool, done: T -> bool, level: T -> nat,
                                                     budget: T -> nat, x: T) returns (k: nat)
    requires good(x)
    requires forall y :: good(y) && !done(y) ==> Progresses(f, good, done, level, budget, y)
    ensures k <= budget(x) && done(Iterate(f, x, k))
    decreases level(x)
  {
    IterateStep(f, x, 0);
    if done(x) {
      k := 0;
    } else {
      var i: nat :| Improves(f, good, done, level, budget, x, i);
      var y := Iterate(f, x, i);
      if done(y) && i <= budget(x) {
        k := i;
      } else {
        var j := DoneWithinBudget(f, good, done, level, budget, y);
        IterateAdds(f, x, i, j);
        k := i + j;
      }
    }
  }
}
