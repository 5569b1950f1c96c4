/** The exponential as a parameter: the laws the code's algebra uses, and nothing else. */
module Exponential {

  ghost predicate SumLaw(exp: real -> real, a: real, b: real) { exp(a + b) == exp(a) * exp(b) }

  ghost predicate Positive(exp: real -> real, a: real) { exp(a) > 0.0 }

  ghost predicate Monotone(exp: real -> real, a: real, b: real) { a <= b ==> exp(a) <= exp(b) }

  ghost predicate IsExp(exp: real -> real) {
    && exp(0.0) == 1.0
    && (forall a, b :: SumLaw(exp, a, b))
    && (forall a :: Positive(exp, a))
    && (forall a, b :: Monotone(exp, a, b))
  }

  /** Nothing more is assumed of the exponential than these four laws. */
  lemma IsExpFrom(exp: real -> real)
    requires exp(0.0) == 1.0 && (forall a :: exp(a) > 0.0) && (forall a, b | a <= b :: exp(a) <= exp(b))
    requires forall a, b, c | c == a + b :: exp(c) == exp(a) * exp(b)
    ensures IsExp(exp)
  {
    forall a, b ensures SumLaw(exp, a, b) { var c := a + b; assert exp(c) == exp(a) * exp(b); }
    forall a, b ensures Monotone(exp, a, b) { }
    forall a ensures Positive(exp, a) { }
  }

  lemma ExpSum(exp: real -> real, a: real, b: real)
    requires IsExp(exp)
    ensures exp(a + b) == exp(a) * exp(b)
  {
    assert SumLaw(exp, a, b);
  }

  /** exp(a - b) * exp(b - c) == exp(a - c). */
  lemma ExpChain(exp: real -> real, a: real, b: real, c: real)
    requires IsExp(exp)
    ensures exp(a - b) * exp(b - c) == exp(a - c)
  {
    assert SumLaw(exp, a - b, b - c);
    assert (a - b) + (b - c) == a - c;
  }

  lemma ExpPositive(exp: real -> real, a: real)
    requires IsExp(exp)
    ensures exp(a) > 0.0
  {
    assert Positive(exp, a);
  }

  /** A non-positive exponent is a decay factor in (0, 1]. */
  lemma ExpDecay(exp: real -> real, a: real)
    requires IsExp(exp) && a <= 0.0
    ensures 0.0 < exp(a) <= 1.0
  {
    assert Positive(exp, a) && Monotone(exp, a, 0.0);
  }
}
