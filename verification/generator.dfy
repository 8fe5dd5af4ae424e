/** The per-member trajectory pipeline of `GaussianProcessCrossSection`.

    The Python class keeps immutable configuration (domain, kernel
    parameters, covariance and its Cholesky factor) next to three attributes
    that every call overwrites: `phi`, `dsigma_dt` and `time_ratio`. Here the
    configuration is the `Generator` record and the attributes are a `State`;
    each method of the class becomes a function from one `State` to the next.
    Where numpy would silently produce NaN or infinity the model returns a
    `Failure`; where it would divide by a configuration constant that the
    class never checks, the member requires that constant to be non-zero. */
module CrossSectionGenerator {
  import opened Transcendental
  import opened Outcome
  import opened RealSeq
  import opened Matrices
  import opened RealArith

  // Defaults assigned by the constructor.
  const DomainSize: nat := 100
  const SigmaLow: real := 0.01
  const SigmaHigh: real := 1.0
  const CorrelationLength: real := 1.0
  const Amplitude: real := 10.0
  const JitterDefault: real := 0.000001
  const InitialSigma: real := 0.0
  const FinalSigma: real := 1.0
  const ProductionTime: real := 0.0
  const FormationTime: real := 1.0

  /** The configuration fixed at construction. `lMatrix` is the Cholesky
      factor of `Jittered(sigmaMatrix, xi)`, computed outside the model. */
  datatype Generator = Generator(
    sigma: seq<real>,
    ell: real,
    kappa: real,
    xi: real,
    sigma0: real,
    sigmaF: real,
    tProd: real,
    tForm: real,
    sigmaMatrix: Matrix,
    lMatrix: Matrix)

  /** The attributes each member overwrites. */
  datatype State = State(phi: seq<real>, dsigmaDt: seq<real>, timeRatio: seq<real>)

  /** The attributes before the first member: not yet assigned. */
  const Unset := State([], [], [])

  ghost predicate NonZero(s: seq<real>) {
    forall i :: 0 <= i < |s| ==> s[i] != 0.0
  }

  /** The shapes every operation relies on, and the denominators the class
      divides by without checking. */
  ghost predicate WellFormed(g: Generator) {
    && NonZero(g.sigma)
    && g.ell != 0.0
    && IsSquare(g.lMatrix, |g.sigma|)
    && g.tForm != g.tProd
  }

  /** The argument of every logarithm the class takes, A/sigma_i - B, is positive. */
  predicate InSupport(sigma: seq<real>, a: real, b: real)
    requires NonZero(sigma)
  {
    forall i :: 0 <= i < |sigma| ==> a / sigma[i] - b > 0.0
  }

  // ---------------------------------------------------------------------------
  // Construction

  /** `np.linspace(start, stop, n)`: n equally spaced points, the last one
      set to `stop` exactly. */
  function Linspace(start: real, stop: real, n: nat): (s: seq<real>)
    requires start < stop
    ensures |s| == n
    ensures n > 0 ==> s[0] == start
    ensures n > 1 ==> s[n - 1] == stop
    ensures Within(s, start, stop)
    ensures StrictlyIncreasing(s)
    ensures n > 1 ==> forall i :: 0 < i < n ==> s[i] - s[i - 1] == (stop - start) / ((n - 1) as real)
  {
    if n <= 1 then seq(n, _ => start)
    else
      var step := (stop - start) / ((n - 1) as real);
      var s := seq(n, i requires 0 <= i < n => if i == n - 1 then stop else start + (i as real) * step);
      LinspaceSteps(start, stop, n, step, s);
      s
  }

  lemma LinspaceSteps(start: real, stop: real, n: nat, step: real, s: seq<real>)
    requires start < stop && n > 1
    requires step == (stop - start) / ((n - 1) as real)
    requires |s| == n
    requires forall i :: 0 <= i < n ==> s[i] == if i == n - 1 then stop else start + (i as real) * step
    ensures Within(s, start, stop)
    ensures StrictlyIncreasing(s)
    ensures forall i :: 0 < i < n ==> s[i] - s[i - 1] == step
  {
    var m := (n - 1) as real;
    PositiveQuotient(stop - start, m);
    QuotientTimes(stop - start, m, step);
    forall i | 0 <= i < n - 1 ensures start <= s[i] < stop {
      ScaleOrder(i as real, m, step, (i as real) * step, m * step);
      NonNegativeProduct(i as real, step, (i as real) * step);
    }
    forall i | 0 < i < n ensures s[i - 1] < s[i] && s[i] - s[i - 1] == step {
      if i < n - 1 {
        ScaleOrder((i - 1) as real, i as real, step, ((i - 1) as real) * step, (i as real) * step);
        assert (i as real) * step - ((i - 1) as real) * step == step;
      } else {
        assert ((i - 1) as real) * step + step == m * step;
      }
    }
    StepwiseIsStrict(s);
  }

  /** One entry of the squared-exponential kernel,
      kappa^2 exp(-((x - y)/l)^2 / 2). */
  function Kernel(f: ExpLog, x: real, y: real, ell: real, kappa: real): (k: real)
    requires ell != 0.0
    ensures Lawful(f) ==> k >= 0.0
    ensures Lawful(f) && kappa != 0.0 ==> k > 0.0
  {
    var e := f.Exp(-0.5 * Square((x - y) / ell));
    SquareTimes(kappa, e);
    Square(kappa) * e
  }

  /** The kernel depends on its two points only through their distance. */
  lemma KernelOfDistance(f: ExpLog, x: real, y: real, u: real, v: real, ell: real, kappa: real)
    requires ell != 0.0
    requires x - y == u - v || x - y == v - u
    ensures Kernel(f, x, y, ell, kappa) == Kernel(f, u, v, ell, kappa)
  {
    var d := (x - y) / ell;
    var e := (u - v) / ell;
    if x - y == v - u {
      assert d == -e;
      assert Square(d) == Square(e);
    }
  }

  /** At zero distance the kernel is kappa^2. */
  lemma KernelAtZeroDistance(f: ExpLog, x: real, ell: real, kappa: real)
    requires Lawful(f)
    requires ell != 0.0
    ensures Kernel(f, x, x, ell, kappa) == Square(kappa)
  {
    assert -0.5 * Square((x - x) / ell) == 0.0;
  }

  /** `calculateCovarianceSigma`: the kernel over every pair of domain points. */
  function Covariance(f: ExpLog, sigma: seq<real>, ell: real, kappa: real): (k: Matrix)
    requires Lawful(f)
    requires ell != 0.0
    ensures IsSquare(k, |sigma|)
    ensures Symmetric(k)
    ensures forall i :: 0 <= i < |sigma| ==> k[i][i] == Square(kappa)
  {
    var n := |sigma|;
    var k := seq(n, i requires 0 <= i < n =>
      seq(n, j requires 0 <= j < n => Kernel(f, sigma[i], sigma[j], ell, kappa)));
    forall i, j | 0 <= i < n && 0 <= j < n
      ensures k[i][j] == k[j][i]
      ensures i == j ==> k[i][j] == Square(kappa)
    {
      KernelOfDistance(f, sigma[i], sigma[j], sigma[j], sigma[i], ell, kappa);
      if i == j {
        KernelAtZeroDistance(f, sigma[i], ell, kappa);
      }
    }
    k
  }

  /** The covariance is stationary: two entries whose point pairs lie the
      same distance apart are equal. */
  lemma CovarianceIsStationary(f: ExpLog, sigma: seq<real>, ell: real, kappa: real, i: nat, j: nat, p: nat, q: nat)
    requires Lawful(f)
    requires ell != 0.0
    requires i < |sigma| && j < |sigma| && p < |sigma| && q < |sigma|
    requires sigma[i] - sigma[j] == sigma[p] - sigma[q] || sigma[i] - sigma[j] == sigma[q] - sigma[p]
    ensures Covariance(f, sigma, ell, kappa)[i][j] == Covariance(f, sigma, ell, kappa)[p][q]
  {
    KernelOfDistance(f, sigma[i], sigma[j], sigma[p], sigma[q], ell, kappa);
  }

  /** The matrix handed to the Cholesky factorisation in `calculateCholeskyL`:
      the covariance plus xi times the identity. */
  function Jittered(k: Matrix, xi: real): (m: Matrix)
    requires IsSquare(k, |k|)
    ensures IsSquare(m, |k|)
    ensures forall i :: 0 <= i < |k| ==> m[i][i] == k[i][i] + xi
    ensures forall i, j :: 0 <= i < |k| && 0 <= j < |k| && i != j ==> m[i][j] == k[i][j]
    ensures Symmetric(k) ==> Symmetric(m)
  {
    Add(k, Scale(xi, Eye(|k|)))
  }

  /** The constructor with its default parameters. The Cholesky factor of
      `Jittered(sigmaMatrix, xi)` is supplied by the caller. */
  function Init(f: ExpLog, lMatrix: Matrix): (g: Generator)
    requires Lawful(f)
    requires IsSquare(lMatrix, DomainSize)
    ensures WellFormed(g)
    ensures |g.sigma| == DomainSize
    ensures g.sigma[0] == 0.01 && g.sigma[DomainSize - 1] == 1.0
    ensures StrictlyIncreasing(g.sigma) && Within(g.sigma, 0.01, 1.0)
    ensures g.tProd < g.tForm
    ensures IsSquare(g.sigmaMatrix, DomainSize) && Symmetric(g.sigmaMatrix)
    ensures forall i :: 0 <= i < DomainSize ==> g.sigmaMatrix[i][i] == 100.0
    ensures g.lMatrix == lMatrix
    ensures g.sigma == Linspace(0.01, 1.0, 100)
    ensures g.ell == 1.0 && g.kappa == 10.0 && g.xi == 0.000001
    ensures g.sigma0 == 0.0 && g.sigmaF == 1.0 && g.tProd == 0.0 && g.tForm == 1.0
    ensures g.sigmaMatrix == Covariance(f, g.sigma, g.ell, g.kappa)
  {
    var sigma := Linspace(SigmaLow, SigmaHigh, DomainSize);
    Generator(
      sigma,
      CorrelationLength,
      Amplitude,
      JitterDefault,
      InitialSigma,
      FinalSigma,
      ProductionTime,
      FormationTime,
      Covariance(f, sigma, CorrelationLength, Amplitude),
      lMatrix)
  }

  /** The default domain is spaced 0.01 apart, from 0.01 to 1.0. */
  lemma InitDomainSpacing(f: ExpLog, lMatrix: Matrix)
    requires Lawful(f)
    requires IsSquare(lMatrix, DomainSize)
    ensures var g := Init(f, lMatrix);
      forall i :: 0 < i < DomainSize ==> g.sigma[i] - g.sigma[i - 1] == 0.01
  {
    assert (1.0 - 0.01) / ((DomainSize - 1) as real) == 0.01;
  }

  /** The matrix the default constructor factorises: symmetric, 100 + 1e-6
      on the diagonal, and the kernel of the two domain points elsewhere. */
  lemma InitJittered(f: ExpLog, lMatrix: Matrix)
    requires Lawful(f)
    requires IsSquare(lMatrix, DomainSize)
    ensures var g := Init(f, lMatrix);
      var m := Jittered(g.sigmaMatrix, g.xi);
      && IsSquare(m, DomainSize) && Symmetric(m)
      && (forall i :: 0 <= i < DomainSize ==> m[i][i] == 100.000001)
      && (forall i, j :: 0 <= i < DomainSize && 0 <= j < DomainSize && i != j ==>
            m[i][j] == Kernel(f, g.sigma[i], g.sigma[j], 1.0, 10.0))
  {
    var g := Init(f, lMatrix);
    var m := Jittered(g.sigmaMatrix, g.xi);
    forall i, j | 0 <= i < DomainSize && 0 <= j < DomainSize && i != j
      ensures m[i][j] == Kernel(f, g.sigma[i], g.sigma[j], 1.0, 10.0)
    {
      assert m[i][j] == g.sigmaMatrix[i][j];
    }
  }

  // ---------------------------------------------------------------------------
  // Latent field and rate transform

  /** `calculatePhi`: the mean term 0 * log(A/sigma - B) plus the correlated
      noise L z. The mean term vanishes on the support and is NaN off it. */
  function CalculatePhi(f: ExpLog, sigma: seq<real>, lMatrix: Matrix, z: seq<real>, a: real, b: real): (r: Result<seq<real>>)
    requires NonZero(sigma)
    requires IsSquare(lMatrix, |sigma|) && |z| == |sigma|
    ensures r.Success? <==> InSupport(sigma, a, b)
    ensures r.Success? ==> r.value == MulVec(lMatrix, z)
  {
    var n := |sigma|;
    if !InSupport(sigma, a, b) then Failure(LogDomain)
    else
      var mu := seq(n, i requires 0 <= i < n => 0.0 * f.Log(a / sigma[i] - b));
      var noise := MulVec(lMatrix, z);
      Success(seq(n, i requires 0 <= i < n => mu[i] + noise[i]))
  }

  /** The rate at one point, A / (exp(phi) + B). */
  function RateAt(f: ExpLog, p: real, a: real, b: real): (r: real)
    requires Lawful(f)
    requires b >= 0.0
    ensures a > 0.0 ==> r > 0.0
    ensures a != 0.0 ==> r != 0.0 && a / r - b == f.Exp(p)
    ensures b == 0.0 ==> r * f.Exp(p) == a
  {
    var e := f.Exp(p);
    assert e + b > 0.0;
    var r := a / (e + b);
    assert a != 0.0 ==> a / r == e + b by {
      if a != 0.0 {
        DivideByQuotient(a, e + b);
      }
    }
    r
  }

  /** `calculateDsigmaDt`: the rate A / (exp(phi) + B), the inverse of the
      defining relation phi = log(A / rate - B). */
  function CalculateDsigmaDt(f: ExpLog, phi: seq<real>, a: real, b: real): (r: seq<real>)
    requires Lawful(f)
    requires b >= 0.0
    ensures |r| == |phi|
    ensures a > 0.0 ==> forall i :: 0 <= i < |r| ==> r[i] > 0.0
    ensures a != 0.0 ==> forall i :: 0 <= i < |r| ==> r[i] != 0.0 && a / r[i] - b == f.Exp(phi[i])
    ensures b == 0.0 ==> forall i :: 0 <= i < |r| ==> r[i] * f.Exp(phi[i]) == a
  {
    seq(|phi|, i requires 0 <= i < |phi| => RateAt(f, phi[i], a, b))
  }

  /** The defining relation phi = log(A / rate - B), from rate back to latent. */
  function Latent(f: ExpLog, rate: seq<real>, a: real, b: real): (phi: seq<real>)
    requires NonZero(rate)
    ensures |phi| == |rate|
    ensures Lawful(f) ==> forall i :: 0 <= i < |rate| && a / rate[i] - b > 0.0 ==> f.Exp(phi[i]) == a / rate[i] - b
  {
    seq(|rate|, i requires 0 <= i < |rate| => f.Log(a / rate[i] - b))
  }

  /** Latent to rate and back gives the latent field again. */
  lemma LatentOfRate(f: ExpLog, phi: seq<real>, a: real, b: real)
    requires Lawful(f)
    requires a != 0.0 && b >= 0.0
    ensures Latent(f, CalculateDsigmaDt(f, phi, a, b), a, b) == phi
  {
    var r := CalculateDsigmaDt(f, phi, a, b);
    var back := Latent(f, r, a, b);
    forall i | 0 <= i < |phi| ensures back[i] == phi[i] {
      assert back[i] == f.Log(f.Exp(phi[i]));
    }
  }

  /** At one point: the rate of the latent value of a rate is that rate. */
  lemma RateAtLatent(f: ExpLog, r: real, a: real, b: real)
    requires Lawful(f)
    requires b >= 0.0
    requires r != 0.0 && a / r - b > 0.0
    ensures RateAt(f, f.Log(a / r - b), a, b) == r
  {
    var y := a / r - b;
    assert f.Exp(f.Log(y)) + b == a / r;
    assert a != 0.0;
    DivideByQuotient(a, r);
  }

  /** Rate to latent and back gives the rate again, wherever the logarithm is defined. */
  lemma RateOfLatent(f: ExpLog, rate: seq<real>, a: real, b: real)
    requires Lawful(f)
    requires b >= 0.0
    requires NonZero(rate)
    requires forall i :: 0 <= i < |rate| ==> a / rate[i] - b > 0.0
    ensures CalculateDsigmaDt(f, Latent(f, rate, a, b), a, b) == rate
  {
    var phi := Latent(f, rate, a, b);
    var back := CalculateDsigmaDt(f, phi, a, b);
    forall i | 0 <= i < |rate| ensures back[i] == rate[i] {
      RateAtLatent(f, rate[i], a, b);
    }
  }

  // ---------------------------------------------------------------------------
  // Time integration

  /** The loop of `calculateF`: t[0] = 0 and each step adds the domain
      increment divided by the rate at the step's upper end. */
  function Integrate(sigma: seq<real>, rate: seq<real>): (t: seq<real>)
    requires |rate| == |sigma|
    requires forall i :: 0 < i < |rate| ==> rate[i] != 0.0
    ensures |t| == |sigma|
    ensures |t| > 0 ==> t[0] == 0.0
    ensures forall i :: 0 < i < |t| ==> t[i] == t[i - 1] + (sigma[i] - sigma[i - 1]) / rate[i]
    decreases |sigma|
  {
    if |sigma| <= 1 then seq(|sigma|, _ => 0.0)
    else
      var n := |sigma|;
      var p := Integrate(sigma[..n - 1], rate[..n - 1]);
      p + [p[n - 2] + (sigma[n - 1] - sigma[n - 2]) / rate[n - 1]]
  }

  /** The integration never reads rate[0]. */
  lemma {:induction false} IntegrateIgnoresFirstRate(sigma: seq<real>, rate: seq<real>, x: real)
    requires |rate| == |sigma| > 0
    requires forall i :: 0 < i < |rate| ==> rate[i] != 0.0
    ensures Integrate(sigma, rate) == Integrate(sigma, rate[0 := x])
  {
    var t := Integrate(sigma, rate);
    var u := Integrate(sigma, rate[0 := x]);
    var k := 0;
    while k < |sigma|
      invariant k <= |sigma|
      invariant t[..k] == u[..k]
    {
      if k > 0 {
        assert t[k - 1] == t[..k][k - 1] && u[k - 1] == u[..k][k - 1];
        assert t[k] == u[k];
      }
      assert t[..k + 1] == t[..k] + [t[k]];
      assert u[..k + 1] == u[..k] + [u[k]];
      k := k + 1;
    }
    assert t == t[..k] && u == u[..k];
  }

  /** An increasing domain integrated with positive rates gives a strictly
      increasing, non-negative time axis. */
  lemma IntegrateIncreasing(sigma: seq<real>, rate: seq<real>)
    requires |rate| == |sigma|
    requires StrictlyIncreasing(sigma)
    requires forall i :: 0 < i < |rate| ==> rate[i] > 0.0
    ensures StrictlyIncreasing(Integrate(sigma, rate))
    ensures forall i :: 0 <= i < |sigma| ==> Integrate(sigma, rate)[i] >= 0.0
  {
    var t := Integrate(sigma, rate);
    forall i | 0 < i < |t| ensures t[i - 1] < t[i] {
      PositiveQuotient(sigma[i] - sigma[i - 1], rate[i]);
    }
    StepwiseIsStrict(t);
    if |t| > 0 {
      forall i | 0 <= i < |t| ensures t[i] >= 0.0 {
        if i > 0 {
          assert t[0] < t[i];
        }
      }
    }
  }

  /** The last line of `calculateF`: time relative to production, in units
      of the formation interval. */
  function TimeRatio(t: seq<real>, tProd: real, tForm: real): (r: seq<real>)
    requires tForm != tProd
    ensures |r| == |t|
    ensures forall i :: 0 <= i < |t| ==> tProd + r[i] * (tForm - tProd) == t[i]
  {
    seq(|t|, i requires 0 <= i < |t| => (t[i] - tProd) / (tForm - tProd))
  }

  /** With production before formation the time ratio keeps the order of
      the times, in both directions. */
  lemma TimeRatioKeepsOrder(t: seq<real>, tProd: real, tForm: real)
    requires tProd < tForm
    ensures forall i, j :: 0 <= i < |t| && 0 <= j < |t| ==>
      (t[i] < t[j] <==> TimeRatio(t, tProd, tForm)[i] < TimeRatio(t, tProd, tForm)[j])
  {
    var r := TimeRatio(t, tProd, tForm);
    var d := tForm - tProd;
    forall i, j | 0 <= i < |t| && 0 <= j < |t| ensures t[i] < t[j] <==> r[i] < r[j] {
      assert t[j] - t[i] == (r[j] - r[i]) * d;
    }
  }

  // ---------------------------------------------------------------------------
  // Renormalisation

  /** `rescaleTime`: min-max normalisation of the time axis. An empty axis
      and a zero range, where numpy raises or yields NaN, are failures. */
  function RescaleTime(x: seq<real>): (r: Result<seq<real>>)
    ensures r.Success? <==> |x| > 0 && Min(x) < Max(x)
    ensures r.Success? ==> |r.value| == |x| && Within(r.value, 0.0, 1.0)
    ensures r.Success? ==> forall i :: 0 <= i < |x| ==>
      && (r.value[i] == 0.0 <==> x[i] == Min(x))
      && (r.value[i] == 1.0 <==> x[i] == Max(x))
    ensures r.Success? ==> forall i, j :: 0 <= i < |x| && 0 <= j < |x| ==>
      (x[i] < x[j] <==> r.value[i] < r.value[j])
  {
    if |x| == 0 then Failure(EmptyRange)
    else
      var lo := Min(x);
      var hi := Max(x);
      if hi == lo then Failure(ZeroTimeRange)
      else
        var y := Scaled(x, lo, hi);
        RescaleFacts(x, lo, hi, y);
        Success(y)
  }

  /** Each entry's offset from `lo` as a fraction of the range `hi - lo`. */
  function Scaled(x: seq<real>, lo: real, hi: real): (y: seq<real>)
    requires lo != hi
    ensures |y| == |x|
  {
    seq(|x|, i requires 0 <= i < |x| => (x[i] - lo) / (hi - lo))
  }

  lemma RescaleFacts(x: seq<real>, lo: real, hi: real, y: seq<real>)
    requires lo < hi
    requires forall i :: 0 <= i < |x| ==> lo <= x[i] <= hi
    requires y == Scaled(x, lo, hi)
    ensures Within(y, 0.0, 1.0)
    ensures forall i :: 0 <= i < |x| ==> (y[i] == 0.0 <==> x[i] == lo) && (y[i] == 1.0 <==> x[i] == hi)
    ensures forall i, j :: 0 <= i < |x| && 0 <= j < |x| ==> (x[i] < x[j] <==> y[i] < y[j])
  {
    var d := hi - lo;
    SelfQuotient(d);
    forall i | 0 <= i < |x|
      ensures 0.0 <= y[i] <= 1.0
      ensures y[i] == 0.0 <==> x[i] == lo
      ensures y[i] == 1.0 <==> x[i] == hi
    {
      QuotientOrder(0.0, x[i] - lo, d);
      QuotientOrder(x[i] - lo, d, d);
    }
    forall i, j | 0 <= i < |x| && 0 <= j < |x| ensures x[i] < x[j] <==> y[i] < y[j] {
      QuotientOrder(x[i] - lo, x[j] - lo, d);
    }
  }

  /** Rescaling an already rescaled time axis changes nothing. */
  lemma RescaleTimeIdempotent(x: seq<real>)
    requires |x| > 0 && Min(x) < Max(x)
    ensures RescaleTime(RescaleTime(x).value) == RescaleTime(x)
  {
    var y := RescaleTime(x).value;
    var lo :| 0 <= lo < |x| && x[lo] == Min(x);
    var hi :| 0 <= hi < |x| && x[hi] == Max(x);
    RescaleNormalized(y, lo, hi);
  }

  /** A time axis already spanning exactly [0, 1] is left as it is. */
  lemma RescaleNormalized(y: seq<real>, lo: nat, hi: nat)
    requires lo < |y| && hi < |y|
    requires Within(y, 0.0, 1.0)
    requires y[lo] == 0.0 && y[hi] == 1.0
    ensures RescaleTime(y) == Success(y)
  {
    MinIsLowerBoundEntry(y, lo);
    MaxIsUpperBoundEntry(y, hi);
    var z := Scaled(y, 0.0, 1.0);
    assert forall i :: 0 <= i < |y| ==> z[i] == y[i];
    assert z == y;
  }

  /** `rescaleDsigmaDt`: entries 1..N-1 become finite-difference rates against
      the rescaled time axis; entry 0 keeps its earlier value. A zero time
      step, where numpy divides by zero, is a failure. */
  function RescaleDsigmaDt(sigma: seq<real>, timeRatio: seq<real>, dsigmaDt: seq<real>): (r: Result<seq<real>>)
    requires |timeRatio| == |sigma| && |dsigmaDt| == |sigma|
    ensures r.Success? <==> forall i :: 0 < i < |sigma| ==> timeRatio[i] != timeRatio[i - 1]
    ensures r.Success? ==> |r.value| == |dsigmaDt|
    ensures r.Success? && |dsigmaDt| > 0 ==> r.value[0] == dsigmaDt[0]
    ensures r.Success? ==> forall i :: 0 < i < |sigma| ==>
      r.value[i] * (timeRatio[i] - timeRatio[i - 1]) == sigma[i] - sigma[i - 1]
  {
    var n := |sigma|;
    if exists i :: 0 < i < n && timeRatio[i] == timeRatio[i - 1] then Failure(ZeroTimeStep)
    else
      Success(StepRates(sigma, timeRatio, dsigmaDt))
  }

  /** The first given rate, then each domain step over the matching time step. */
  function StepRates(sigma: seq<real>, timeRatio: seq<real>, dsigmaDt: seq<real>): (r: seq<real>)
    requires |timeRatio| == |sigma| && |dsigmaDt| == |sigma|
    requires forall i :: 0 < i < |sigma| ==> timeRatio[i] != timeRatio[i - 1]
    ensures |r| == |sigma|
  {
    seq(|sigma|, i requires 0 <= i < |sigma| =>
      if i == 0 then dsigmaDt[0] else (sigma[i] - sigma[i - 1]) / (timeRatio[i] - timeRatio[i - 1]))
  }

  /** `rescalePhi`: the latent field whose rate is the domain itself,
      log(A/sigma - B), independent of the sampled noise. */
  function RescalePhi(f: ExpLog, sigma: seq<real>, a: real, b: real): (r: Result<seq<real>>)
    requires Lawful(f)
    requires NonZero(sigma)
    ensures r.Success? <==> InSupport(sigma, a, b)
    ensures r.Success? ==> |r.value| == |sigma|
    ensures r.Success? ==> forall i :: 0 <= i < |sigma| ==> f.Exp(r.value[i]) == a / sigma[i] - b
  {
    if !InSupport(sigma, a, b) then Failure(LogDomain)
    else Success(Latent(f, sigma, a, b))
  }

  /** The rescaled latent field maps back, through the rate transform, to a
      rate equal to the domain value at every point. */
  lemma RescaledPhiRateIsSigma(f: ExpLog, sigma: seq<real>, a: real, b: real)
    requires Lawful(f)
    requires b >= 0.0
    requires NonZero(sigma)
    requires InSupport(sigma, a, b)
    ensures CalculateDsigmaDt(f, RescalePhi(f, sigma, a, b).value, a, b) == sigma
  {
    RateOfLatent(f, sigma, a, b);
  }

  // ---------------------------------------------------------------------------
  // The methods as steps on the attributes

  /** `calculatePhi` as a step: assigns `phi`. */
  function StepPhi(f: ExpLog, g: Generator, s: State, a: real, b: real, z: seq<real>): (r: Result<State>)
    requires WellFormed(g)
    requires |z| == |g.sigma|
    ensures r.Success? <==> InSupport(g.sigma, a, b)
    ensures r.Success? ==> r.value == s.(phi := MulVec(g.lMatrix, z))
  {
    var phi :- CalculatePhi(f, g.sigma, g.lMatrix, z, a, b);
    Success(s.(phi := phi))
  }

  /** `calculateF` as a step: assigns `dsigma_dt` and `time_ratio` from `phi`. */
  function StepF(f: ExpLog, g: Generator, s: State, a: real, b: real): (r: State)
    requires Lawful(f)
    requires WellFormed(g)
    requires |s.phi| == |g.sigma|
    requires a != 0.0 && b >= 0.0
    ensures r.phi == s.phi
    ensures r.dsigmaDt == CalculateDsigmaDt(f, s.phi, a, b)
    ensures |r.timeRatio| == |g.sigma|
    ensures r.timeRatio == TimeRatio(Integrate(g.sigma, r.dsigmaDt), g.tProd, g.tForm)
  {
    var rate := CalculateDsigmaDt(f, s.phi, a, b);
    var t := Integrate(g.sigma, rate);
    s.(dsigmaDt := rate, timeRatio := TimeRatio(t, g.tProd, g.tForm))
  }

  /** `rescaleTime` as a step: replaces `time_ratio` only. */
  function StepRescaleTime(s: State): (r: Result<State>)
    ensures r.Success? <==> |s.timeRatio| > 0 && Min(s.timeRatio) < Max(s.timeRatio)
    ensures r.Success? ==> r.value.phi == s.phi && r.value.dsigmaDt == s.dsigmaDt
    ensures r.Success? ==> |r.value.timeRatio| == |s.timeRatio| && Within(r.value.timeRatio, 0.0, 1.0)
    ensures r.Success? ==> r.value == s.(timeRatio := RescaleTime(s.timeRatio).value)
  {
    var tau :- RescaleTime(s.timeRatio);
    Success(s.(timeRatio := tau))
  }

  /** `rescaleDsigmaDt` as a step: replaces `dsigma_dt` only. */
  function StepRescaleDsigmaDt(g: Generator, s: State): (r: Result<State>)
    requires |s.timeRatio| == |g.sigma| && |s.dsigmaDt| == |g.sigma|
    ensures r.Success? <==> forall i :: 0 < i < |g.sigma| ==> s.timeRatio[i] != s.timeRatio[i - 1]
    ensures r.Success? ==> r.value == s.(dsigmaDt := RescaleDsigmaDt(g.sigma, s.timeRatio, s.dsigmaDt).value)
    ensures r.Success? ==> r.value.phi == s.phi && r.value.timeRatio == s.timeRatio
    ensures r.Success? ==> |r.value.dsigmaDt| == |g.sigma|
    ensures r.Success? && |g.sigma| > 0 ==> r.value.dsigmaDt[0] == s.dsigmaDt[0]
  {
    var rate :- RescaleDsigmaDt(g.sigma, s.timeRatio, s.dsigmaDt);
    Success(s.(dsigmaDt := rate))
  }

  /** `rescalePhi` as a step: replaces `phi` only. */
  function StepRescalePhi(f: ExpLog, g: Generator, s: State, a: real, b: real): (r: Result<State>)
    requires Lawful(f)
    requires WellFormed(g)
    ensures r.Success? <==> InSupport(g.sigma, a, b)
    ensures r.Success? ==> r.value.dsigmaDt == s.dsigmaDt && r.value.timeRatio == s.timeRatio
    ensures r.Success? ==> |r.value.phi| == |g.sigma|
    ensures r.Success? ==> forall i :: 0 <= i < |g.sigma| ==> f.Exp(r.value.phi[i]) == a / g.sigma[i] - b
  {
    var phi :- RescalePhi(f, g.sigma, a, b);
    Success(s.(phi := phi))
  }

  /** The methods the tabulator calls on the generator, one per call. */
  datatype Call =
    | CalculatePhiCall
    | CalculateDsigmaDtCall
    | CalculateFCall
    | RescaleTimeCall
    | RescaleDsigmaDtCall
    | RescalePhiCall

  /** The calls the tabulator makes for one member, in order. */
  const MemberCalls: seq<Call> :=
    [CalculatePhiCall, CalculateDsigmaDtCall, CalculateFCall, RescaleTimeCall, RescaleDsigmaDtCall, RescalePhiCall]

  /** The attributes the generator has after one call. A bare
      `calculateDsigmaDt` returns its value without assigning anything, so
      the attributes stay as they were. A call on attributes of the wrong
      length, which the member's calls never make, is not followed. */
  function Apply(f: ExpLog, g: Generator, call: Call, s: State, a: real, b: real, z: seq<real>): (r: Result<State>)
    requires Lawful(f)
    requires WellFormed(g)
    requires a != 0.0 && b >= 0.0
    requires |z| == |g.sigma|
    ensures call == CalculateDsigmaDtCall ==> r == Success(s)
    ensures r.Success? && !call.CalculatePhiCall? && !call.RescalePhiCall? ==> r.value.phi == s.phi
    ensures r.Success? && !call.CalculateFCall? && !call.RescaleDsigmaDtCall? ==> r.value.dsigmaDt == s.dsigmaDt
    ensures r.Success? && !call.CalculateFCall? && !call.RescaleTimeCall? ==> r.value.timeRatio == s.timeRatio
  {
    match call
    case CalculatePhiCall => StepPhi(f, g, s, a, b, z)
    case CalculateDsigmaDtCall => Success(s)
    case CalculateFCall =>
      if |s.phi| != |g.sigma| then Failure(OutsideModel) else Success(StepF(f, g, s, a, b))
    case RescaleTimeCall => StepRescaleTime(s)
    case RescaleDsigmaDtCall =>
      if |s.timeRatio| != |g.sigma| || |s.dsigmaDt| != |g.sigma| then Failure(OutsideModel) else StepRescaleDsigmaDt(g, s)
    case RescalePhiCall => StepRescalePhi(f, g, s, a, b)
  }

  /** A run of calls on one generator, stopping at the first that fails. */
  function Run(f: ExpLog, g: Generator, calls: seq<Call>, s: State, a: real, b: real, z: seq<real>): (r: Result<State>)
    requires Lawful(f)
    requires WellFormed(g)
    requires a != 0.0 && b >= 0.0
    requires |z| == |g.sigma|
    ensures (forall k :: 0 <= k < |calls| ==> calls[k] == CalculateDsigmaDtCall) ==> r == Success(s)
    ensures r.Success? && (forall k :: 0 <= k < |calls| ==> !calls[k].CalculatePhiCall? && !calls[k].RescalePhiCall?) ==>
      r.value.phi == s.phi
    decreases |calls|
  {
    if |calls| == 0 then Success(s)
    else
      var next :- Apply(f, g, calls[0], s, a, b, z);
      Run(f, g, calls[1..], next, a, b, z)
  }

  /** One member: the calls the tabulator makes, starting from whatever
      attributes the generator has. A member that succeeds had its shape in
      the support and leaves attributes of the domain's length. */
  function RunMember(f: ExpLog, g: Generator, s: State, a: real, b: real, z: seq<real>): (r: Result<State>)
    requires Lawful(f)
    requires WellFormed(g)
    requires a != 0.0 && b >= 0.0
    requires |z| == |g.sigma|
    ensures r.Success? ==> InSupport(g.sigma, a, b)
    ensures r.Success? ==> |r.value.phi| == |g.sigma| && |r.value.dsigmaDt| == |g.sigma| && |r.value.timeRatio| == |g.sigma|
  {
    MemberIsPipeline(f, g, s, a, b, z);
    Run(f, g, MemberCalls, s, a, b, z)
  }

  /** The member's calls, chained by hand: `calculatePhi`, then
      `calculateF` (the bare `calculateDsigmaDt` before it changes nothing),
      then the three rescalings. */
  function Pipeline(f: ExpLog, g: Generator, s: State, a: real, b: real, z: seq<real>): (r: Result<State>)
    requires Lawful(f)
    requires WellFormed(g)
    requires a != 0.0 && b >= 0.0
    requires |z| == |g.sigma|
    ensures r.Success? ==> InSupport(g.sigma, a, b)
    ensures r.Success? ==> |r.value.phi| == |g.sigma| && |r.value.dsigmaDt| == |g.sigma| && |r.value.timeRatio| == |g.sigma|
  {
    var s1 :- StepPhi(f, g, s, a, b, z);
    var s2 := StepF(f, g, s1, a, b);
    var s3 :- StepRescaleTime(s2);
    var s4 :- StepRescaleDsigmaDt(g, s3);
    StepRescalePhi(f, g, s4, a, b)
  }

  /** Running the member's calls one by one is the hand-chained pipeline. */
  lemma MemberIsPipeline(f: ExpLog, g: Generator, s: State, a: real, b: real, z: seq<real>)
    requires Lawful(f)
    requires WellFormed(g)
    requires a != 0.0 && b >= 0.0
    requires |z| == |g.sigma|
    ensures Run(f, g, MemberCalls, s, a, b, z) == Pipeline(f, g, s, a, b, z)
  {
    var tail := [CalculateDsigmaDtCall, CalculateFCall, RescaleTimeCall, RescaleDsigmaDtCall, RescalePhiCall];
    assert MemberCalls[1..] == tail;
    var r1 := StepPhi(f, g, s, a, b, z);
    if r1.Success? {
      assert Run(f, g, MemberCalls, s, a, b, z) == Run(f, g, tail, r1.value, a, b, z);
      RunFromRate(f, g, r1.value, a, b, z);
      RunRescalings(f, g, StepF(f, g, r1.value, a, b), a, b, z);
    }
  }

  /** The calls after `calculatePhi`: the bare `calculateDsigmaDt` and
      `calculateF`, then the rescalings. */
  lemma RunFromRate(f: ExpLog, g: Generator, s: State, a: real, b: real, z: seq<real>)
    requires Lawful(f)
    requires WellFormed(g)
    requires a != 0.0 && b >= 0.0
    requires |z| == |g.sigma| && |s.phi| == |g.sigma|
    ensures Run(f, g, [CalculateDsigmaDtCall, CalculateFCall, RescaleTimeCall, RescaleDsigmaDtCall, RescalePhiCall], s, a, b, z)
      == Run(f, g, [RescaleTimeCall, RescaleDsigmaDtCall, RescalePhiCall], StepF(f, g, s, a, b), a, b, z)
  {
    var c1 := [CalculateDsigmaDtCall, CalculateFCall, RescaleTimeCall, RescaleDsigmaDtCall, RescalePhiCall];
    var c2 := [CalculateFCall, RescaleTimeCall, RescaleDsigmaDtCall, RescalePhiCall];
    var c3 := [RescaleTimeCall, RescaleDsigmaDtCall, RescalePhiCall];
    assert c1[1..] == c2 && c2[1..] == c3;
    assert Run(f, g, c1, s, a, b, z) == Run(f, g, c2, s, a, b, z);
  }

  /** The three rescalings, chained. */
  lemma RunRescalings(f: ExpLog, g: Generator, s: State, a: real, b: real, z: seq<real>)
    requires Lawful(f)
    requires WellFormed(g)
    requires a != 0.0 && b >= 0.0
    requires |z| == |g.sigma| && |s.timeRatio| == |g.sigma| && |s.dsigmaDt| == |g.sigma|
    ensures Run(f, g, [RescaleTimeCall, RescaleDsigmaDtCall, RescalePhiCall], s, a, b, z)
      == (var s3 :- StepRescaleTime(s);
          var s4 :- StepRescaleDsigmaDt(g, s3);
          StepRescalePhi(f, g, s4, a, b))
  {
    var c3 := [RescaleTimeCall, RescaleDsigmaDtCall, RescalePhiCall];
    var c4 := [RescaleDsigmaDtCall, RescalePhiCall];
    assert c3[1..] == c4 && c4[1..] == [RescalePhiCall] && [RescalePhiCall][1..] == [];
    var r3 := StepRescaleTime(s);
    if r3.Success? {
      assert Run(f, g, c3, s, a, b, z) == Run(f, g, c4, r3.value, a, b, z);
      var r4 := StepRescaleDsigmaDt(g, r3.value);
      if r4.Success? {
        assert Run(f, g, c4, r3.value, a, b, z) == Run(f, g, [RescalePhiCall], r4.value, a, b, z);
      }
    }
  }

  /** What a successful member leaves at one domain point: a latent value
      whose exponential is A/sigma_i - B, and a time ratio in [0, 1]. */
  lemma MemberEntries(f: ExpLog, g: Generator, s: State, a: real, b: real, z: seq<real>, i: nat)
    requires Lawful(f)
    requires WellFormed(g)
    requires a != 0.0 && b >= 0.0
    requires |z| == |g.sigma| && i < |g.sigma|
    ensures var r := RunMember(f, g, s, a, b, z);
      r.Success? ==>
        && i < |r.value.phi| && i < |r.value.timeRatio|
        && f.Exp(r.value.phi[i]) == a / g.sigma[i] - b
        && 0.0 <= r.value.timeRatio[i] <= 1.0
  {
    MemberIsPipeline(f, g, s, a, b, z);
  }

  /** No state leaks from one member to the next: every attribute a member
      reports is assigned during that member's own run. */
  lemma MemberIgnoresState(f: ExpLog, g: Generator, s: State, s': State, a: real, b: real, z: seq<real>)
    requires Lawful(f)
    requires WellFormed(g)
    requires a != 0.0 && b >= 0.0
    requires |z| == |g.sigma|
    ensures RunMember(f, g, s, a, b, z) == RunMember(f, g, s', a, b, z)
  {
    MemberIsPipeline(f, g, s, a, b, z);
    MemberIsPipeline(f, g, s', a, b, z);
    if InSupport(g.sigma, a, b) {
      var p := MulVec(g.lMatrix, z);
      assert StepF(f, g, s.(phi := p), a, b) == StepF(f, g, s'.(phi := p), a, b);
    }
  }

  // ---------------------------------------------------------------------------
  // What one member reports

  /** With production before formation the time ratio of an increasing
      time axis has its minimum first and its maximum last. */
  lemma TimeRatioExtremes(t: seq<real>, tProd: real, tForm: real)
    requires |t| >= 2
    requires StrictlyIncreasing(t)
    requires tProd < tForm
    ensures var x := TimeRatio(t, tProd, tForm);
      Min(x) == x[0] && Max(x) == x[|t| - 1] && x[0] < x[|t| - 1]
  {
    var x := TimeRatio(t, tProd, tForm);
    TimeRatioKeepsOrder(t, tProd, tForm);
    MinIsLowerBoundEntry(x, 0);
    MaxIsUpperBoundEntry(x, |t| - 1);
  }

  /** Each time over the last one. */
  function Fractions(t: seq<real>): (tau: seq<real>)
    requires |t| > 0 && t[|t| - 1] != 0.0
    ensures |tau| == |t|
  {
    seq(|t|, i requires 0 <= i < |t| => t[i] / t[|t| - 1])
  }

  /** The sampled rate at index 0, the sampled rate times `last` elsewhere. */
  function ScaledRate(rate: seq<real>, last: real): (r: seq<real>)
    ensures |r| == |rate|
  {
    seq(|rate|, i requires 0 <= i < |rate| => if i == 0 then rate[0] else rate[i] * last)
  }

  /** With production before formation, rescaling the time ratio of an
      increasing time axis that starts at 0 gives each time over the total
      time: t_prod and t_form cancel out. */
  lemma RescaledTimeIsFraction(t: seq<real>, tProd: real, tForm: real)
    requires |t| >= 2 && t[0] == 0.0
    requires StrictlyIncreasing(t)
    requires tProd < tForm
    ensures t[|t| - 1] != 0.0 && RescaleTime(TimeRatio(t, tProd, tForm)) == Success(Fractions(t))
  {
    assert t[0] < t[|t| - 1];
    TimeRatioExtremes(t, tProd, tForm);
    TimeFractions(t, tProd, tForm);
  }

  lemma TimeFractions(t: seq<real>, tProd: real, tForm: real)
    requires |t| >= 2 && t[0] == 0.0 && t[|t| - 1] != 0.0
    requires tProd < tForm
    ensures var x := TimeRatio(t, tProd, tForm);
      x[|x| - 1] != x[0] && Scaled(x, x[0], x[|x| - 1]) == Fractions(t)
  {
    var n := |t|;
    var x := TimeRatio(t, tProd, tForm);
    assert x[n - 1] - x[0] != 0.0 by {
      TimeFractionEntry(t, tProd, tForm, n - 1);
    }
    var y := Scaled(x, x[0], x[n - 1]);
    var want := Fractions(t);
    forall i | 0 <= i < n ensures y[i] == want[i] {
      TimeFractionEntry(t, tProd, tForm, i);
    }
    assert y == want;
  }

  lemma TimeFractionEntry(t: seq<real>, tProd: real, tForm: real, i: nat)
    requires i < |t| && |t| >= 2 && t[0] == 0.0 && t[|t| - 1] != 0.0
    requires tProd < tForm
    ensures var x := TimeRatio(t, tProd, tForm);
      x[|t| - 1] - x[0] != 0.0 && (x[i] - x[0]) / (x[|t| - 1] - x[0]) == t[i] / t[|t| - 1]
  {
    var x := TimeRatio(t, tProd, tForm);
    var d := tForm - tProd;
    assert x[i] == (t[i] - tProd) / d;
    assert x[0] == (0.0 - tProd) / d;
    assert x[|t| - 1] == (t[|t| - 1] - tProd) / d;
    AffineNormalise(t[i], t[|t| - 1], tProd, d);
  }

  /** The rescaled rate against the time axis t/t_last is the sampled rate
      times t_last at every index but 0, which keeps the sampled rate. */
  lemma RescaledRateIsScaled(sigma: seq<real>, rate: seq<real>)
    requires |rate| == |sigma| >= 2
    requires StrictlyIncreasing(sigma)
    requires forall i :: 0 < i < |rate| ==> rate[i] > 0.0
    ensures var t := Integrate(sigma, rate);
      t[|t| - 1] > 0.0 && RescaleDsigmaDt(sigma, Fractions(t), rate) == Success(ScaledRate(rate, t[|t| - 1]))
  {
    var n := |sigma|;
    var t := Integrate(sigma, rate);
    IntegrateIncreasing(sigma, rate);
    assert t[0] < t[n - 1];
    RescaleOfIntegratedFractions(sigma, rate, t);
  }

  /** The same fact for any time axis that obeys the integration recurrence. */
  lemma RescaleOfIntegratedFractions(sigma: seq<real>, rate: seq<real>, t: seq<real>)
    requires |rate| == |sigma| == |t| >= 2
    requires forall i :: 0 < i < |rate| ==> sigma[i - 1] < sigma[i] && rate[i] > 0.0
    requires forall i {:trigger rate[i]} :: 0 < i < |t| ==> t[i] == t[i - 1] + (sigma[i] - sigma[i - 1]) / rate[i]
    requires t[|t| - 1] > 0.0
    ensures RescaleDsigmaDt(sigma, Fractions(t), rate) == Success(ScaledRate(rate, t[|t| - 1]))
  {
    var tau := Fractions(t);
    FractionSteps(sigma, rate, t, tau);
    forall i | 0 < i < |tau| ensures tau[i] - tau[i - 1] != 0.0 {
      // Mentioning rate[i] instantiates the step facts, which are keyed on it.
      assert rate[i] > 0.0;
    }
    RescaleOfScaledSteps(sigma, tau, rate, t[|t| - 1]);
  }

  lemma RescaleOfScaledSteps(sigma: seq<real>, tau: seq<real>, rate: seq<real>, last: real)
    requires |rate| == |sigma| == |tau| >= 1
    requires forall i {:trigger rate[i]} :: 0 < i < |tau| ==>
      (tau[i] - tau[i - 1] != 0.0 && (sigma[i] - sigma[i - 1]) / (tau[i] - tau[i - 1]) == rate[i] * last)
    ensures RescaleDsigmaDt(sigma, tau, rate) == Success(ScaledRate(rate, last))
  {
    var n := |sigma|;
    var want := ScaledRate(rate, last);
    assert forall i :: 0 < i < n ==> tau[i] != tau[i - 1] by {
      forall i | 0 < i < n ensures tau[i] != tau[i - 1] {
        // The step facts are keyed on rate[i]; naming it instantiates them.
        var rateHere := rate[i];
      }
    }
    var v := StepRates(sigma, tau, rate);
    forall i | 0 <= i < n ensures v[i] == want[i] {
      if i > 0 {
        // The step facts are keyed on rate[i]; this names it.
        assert (sigma[i] - sigma[i - 1]) / (tau[i] - tau[i - 1]) == rate[i] * last;
      }
    }
    assert v == want;
  }

  /** Each step of the time axis t/t_last is non-zero, and the domain step
      over it is the sampled rate times t_last. */
  lemma FractionSteps(sigma: seq<real>, rate: seq<real>, t: seq<real>, tau: seq<real>)
    requires |rate| == |sigma| == |t| == |tau| >= 2
    requires forall i :: 0 < i < |rate| ==> sigma[i - 1] < sigma[i] && rate[i] > 0.0
    requires forall i {:trigger rate[i]} :: 0 < i < |t| ==> t[i] == t[i - 1] + (sigma[i] - sigma[i - 1]) / rate[i]
    requires t[|t| - 1] > 0.0
    requires forall i :: 0 <= i < |t| ==> tau[i] == t[i] / t[|t| - 1]
    ensures forall i {:trigger rate[i]} :: 0 < i < |tau| ==>
      (tau[i] - tau[i - 1] != 0.0 && (sigma[i] - sigma[i - 1]) / (tau[i] - tau[i - 1]) == rate[i] * t[|t| - 1])
  {
    forall i | 0 < i < |tau|
      ensures tau[i] - tau[i - 1] != 0.0
      ensures (sigma[i] - sigma[i - 1]) / (tau[i] - tau[i - 1]) == rate[i] * t[|t| - 1]
    {
      RateFromSteps(sigma[i] - sigma[i - 1], rate[i], t[i], t[i - 1], t[|t| - 1]);
    }
  }

  /** The record one member reports, given production before formation, an
      increasing domain of at least two points and a support on which every
      logarithm is defined: it always succeeds; its latent field is the
      noise-free log(A/sigma - B); its time axis is the integrated time over
      the total time; its rate is the sampled rate at index 0 and the sampled
      rate times the total time elsewhere. */
  lemma MemberRecord(f: ExpLog, g: Generator, s: State, a: real, b: real, z: seq<real>)
    requires Lawful(f)
    requires WellFormed(g)
    requires |g.sigma| >= 2 && StrictlyIncreasing(g.sigma) && g.tProd < g.tForm
    requires a > 0.0 && b >= 0.0
    requires InSupport(g.sigma, a, b)
    requires |z| == |g.sigma|
    ensures var rate := CalculateDsigmaDt(f, MulVec(g.lMatrix, z), a, b);
      var t := Integrate(g.sigma, rate);
      t[|t| - 1] > 0.0 && RunMember(f, g, s, a, b, z)
        == Success(State(RescalePhi(f, g.sigma, a, b).value, ScaledRate(rate, t[|t| - 1]), Fractions(t)))
  {
    var phi := MulVec(g.lMatrix, z);
    var rate := CalculateDsigmaDt(f, phi, a, b);
    var t := Integrate(g.sigma, rate);
    MemberIsPipeline(f, g, s, a, b, z);
    IntegrateIncreasing(g.sigma, rate);
    RescaledTimeIsFraction(t, g.tProd, g.tForm);
    RescaledRateIsScaled(g.sigma, rate);
  }
}
