/** Small facts about real multiplication and division, stated once so that
    the solver meets nonlinear terms one at a time. */
module RealArith {

  function Square(x: real): real {
    x * x
  }

  /** A square is non-negative, and positive unless its root is 0. */
  lemma SquareNonNegative(x: real)
    ensures Square(x) >= 0.0
    ensures x != 0.0 ==> Square(x) > 0.0
  {
    if x < 0.0 {
      ScaleOrder(0.0, -x, -x, 0.0, Square(x));
    } else if x > 0.0 {
      ScaleOrder(0.0, x, x, 0.0, Square(x));
    }
  }

  /** A square times a non-negative factor is non-negative, and positive
      when the root is non-zero and the factor positive. */
  lemma SquareTimes(c: real, e: real)
    ensures e >= 0.0 ==> Square(c) * e >= 0.0
    ensures c != 0.0 && e > 0.0 ==> Square(c) * e > 0.0
  {
    SquareNonNegative(c);
    if e >= 0.0 {
      NonNegativeProduct(Square(c), e, Square(c) * e);
    }
    if c != 0.0 && e > 0.0 {
      PositiveProduct(Square(c), e);
    }
  }

  lemma PositiveProduct(x: real, y: real)
    requires x > 0.0 && y > 0.0
    ensures x * y > 0.0
  {
  }

  /** Multiplying by a positive number keeps a strict order. */
  lemma ScaleOrder(u: real, v: real, c: real, pu: real, pv: real)
    requires u < v && c > 0.0
    requires pu == u * c && pv == v * c
    ensures pu < pv
  {
  }

  lemma NonNegativeProduct(u: real, c: real, p: real)
    requires u >= 0.0 && c >= 0.0
    requires p == u * c
    ensures p >= 0.0
  {
  }

  /** The quotient times the divisor gives back the dividend. */
  lemma QuotientTimes(x: real, d: real, q: real)
    requires d != 0.0
    requires q == x / d
    ensures d * q == x
  {
  }

  lemma SelfQuotient(d: real)
    requires d != 0.0
    ensures d / d == 1.0
  {
  }

  lemma PositiveQuotient(x: real, y: real)
    requires x > 0.0 && y > 0.0
    ensures x / y > 0.0
  {
  }

  /** Dividing by a positive number keeps the order, in both directions. */
  lemma QuotientOrder(x: real, y: real, d: real)
    requires d > 0.0
    ensures x < y <==> x / d < y / d
    ensures x <= y <==> x / d <= y / d
    ensures x == y <==> x / d == y / d
  {
  }

  /** Dividing by a quotient multiplies by its inverse. */
  lemma DivideByQuotient(a: real, c: real)
    requires a != 0.0 && c != 0.0
    ensures a / (a / c) == c
  {
  }

  /** Min-max normalising an affine image of a time axis that starts at 0
      gives each time over the last one. */
  lemma AffineNormalise(u: real, last: real, p: real, d: real)
    requires d != 0.0 && last != 0.0
    ensures ((u - p) / d - (0.0 - p) / d) / ((last - p) / d - (0.0 - p) / d) == u / last
  {
  }

  /** A domain step over the matching step of a scaled time axis is the rate
      that produced the step, times the scale. */
  lemma RateFromSteps(ds: real, r: real, ti: real, tprev: real, last: real)
    requires ds != 0.0 && r != 0.0 && last != 0.0
    requires ti == tprev + ds / r
    ensures ti / last - tprev / last != 0.0
    ensures ds / (ti / last - tprev / last) == r * last
  {
  }
}
