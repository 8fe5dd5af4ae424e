/** The natural exponential and logarithm that the generator takes from numpy.
    Dafny cannot evaluate them over `real`, so callers supply both functions
    and every member that needs them requires the few laws it relies on. */
module Transcendental {

  /** A pair of functions standing for numpy's `exp` and `log`. */
  datatype ExpLog = ExpLog(exp: real -> real, log: real -> real) {

    function Exp(x: real): real {
      exp(x)
    }

    function Log(y: real): real {
      log(y)
    }
  }

  /** The laws of exp and log used by the model: exp is positive, exp(0) = 1,
      and the two are mutually inverse on the positive reals. */
  ghost predicate Lawful(f: ExpLog) {
    && (forall x :: f.Exp(x) > 0.0)
    && f.Exp(0.0) == 1.0
    && (forall y {:trigger f.Exp(f.Log(y))} :: y > 0.0 ==> f.Exp(f.Log(y)) == y)
    && (forall x {:trigger f.Log(f.Exp(x))} :: f.Log(f.Exp(x)) == x)
  }
}
