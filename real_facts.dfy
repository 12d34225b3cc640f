/** Small facts of ordered-field arithmetic that the solver does not find on its
    own when products of variables are involved. */
module RealFacts {

  lemma MulLe(a: real, b: real, c: real)
    requires 0.0 <= a && b <= c
    ensures a * b <= a * c
  {
  }

  lemma MulLt(a: real, b: real, c: real)
    requires 0.0 < a && b < c
    ensures a * b < a * c
  {
  }

  lemma MulNonZero(a: real, b: real)
    requires a != 0.0 && b != 0.0
    ensures a * b != 0.0
  {
  }

  lemma DivLe(a: real, b: real, d: real)
    requires 0.0 < d && a <= b
    ensures a / d <= b / d
  {
  }

  lemma DivLt(a: real, b: real, d: real)
    requires 0.0 < d && a < b
    ensures a / d < b / d
  {
  }

  lemma DivMul(a: real, d: real)
    requires d != 0.0
    ensures (a / d) * d == a
  {
  }

  lemma RatioBelowOne(a: real, d: real)
    requires 0.0 <= a < d
    ensures 0.0 <= a / d < 1.0
  {
  }

  lemma SquareLe(a: real, b: real)
    requires 0.0 <= a <= b
    ensures a * a <= b * b
  {
    calc {
      a * a;
    <= { MulLe(a, a, b); }
      a * b;
    ==
      b * a;
    <= { MulLe(b, a, b); }
      b * b;
    }
  }

  lemma SquareLt(a: real, b: real)
    requires 0.0 <= a < b
    ensures a * a < b * b
  {
    calc {
      a * a;
    <= { MulLe(a, a, b); }
      a * b;
    ==
      b * a;
    < { MulLt(b, a, b); }
      b * b;
    }
  }

  /** Squaring is order-reflecting on the non-negative reals. */
  lemma RootLe(a: real, b: real)
    requires 0.0 <= a && 0.0 <= b && a * a <= b * b
    ensures a <= b
  {
    if b < a {
      SquareLt(b, a);
    }
  }

  /** A non-negative root `r` of a radicand in `[0, bound^2]` lies in
      `[0, bound]`, and equals `bound` at the top of that range. */
  lemma RootFacts(r: real, radicand: real, bound: real)
    requires 0.0 <= bound && 0.0 <= r && r * r == radicand <= bound * bound
    ensures r <= bound
    ensures radicand == bound * bound ==> r == bound
  {
    RootLe(r, bound);
    if radicand == bound * bound {
      RootLe(bound, r);
    }
  }
}
