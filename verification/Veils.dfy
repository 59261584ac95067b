/** Hiding a definition from the places that do not need it. */
module Veils {

  ghost predicate AgreeAt<A(!new), B(!new)>(f: A -> B, g: A -> B, x: A) {
    f(x) == g(x)
  }

  ghost predicate Agree<A(!new), B(!new)>(f: A -> B, g: A -> B) {
    forall x: A :: AgreeAt(f, g, x)
  }

  lemma AgreementExists<A(!new), B(!new)>(f: A -> B)
    ensures exists g: A -> B :: Agree(f, g)
  {
    assert Agree(f, f);
  }

  /** The function f, known argument by argument through LookUp alone: a proof meets the definition only
      where it asks for it. */
  ghost function Veiled<A(!new), B(!new)>(f: A -> B): A -> B {
    AgreementExists(f);
    var g: A -> B :| Agree(f, g);
    g
  }

  lemma LookUp<A(!new), B(!new)>(f: A -> B, x: A)
    ensures Veiled(f)(x) == f(x)
  {
    AgreementExists(f);
    assert AgreeAt(f, Veiled(f), x);
  }
}
