/** `tabulate_gp_cross_section`: draw 200 member shapes (A, B), push each
    member through the generator's pipeline on one shared generator object,
    and collect three tables with one row per member and domain point.

    The random draws are parameters: `vs` and `us` stand for the uniform
    samples behind `np.random.uniform(1, 1, n)` and `np.random.rand(n)`, and
    `zs` for the standard-normal vector each `calculatePhi` call draws.
    Writing the tables to text files is not modelled. */
module CrossSectionTabulator {
  import opened Transcendental
  import opened Outcome
  import opened RealSeq
  import opened Matrices
  import opened CrossSectionGenerator

  /** The number of members tabulated. */
  const Members: nat := 200

  /** The shape parameters of one member. */
  datatype Shape = Shape(a: real, b: real)

  /** One row of `phi_vs_dsigma_dt`. */
  datatype PhiRow = PhiRow(index: nat, phi: real, dsigmaDt: real)

  /** One row of `sigma_vs_phi_and_dsigma_dt`. */
  datatype SigmaRow = SigmaRow(index: nat, sigma: real, phi: real, dsigmaDt: real)

  /** One row of `time_ratio_vs_sigma`. */
  datatype TimeRow = TimeRow(index: nat, timeRatio: real, sigma: real)

  datatype Tables = Tables(phiRows: seq<PhiRow>, sigmaRows: seq<SigmaRow>, timeRows: seq<TimeRow>)

  const NoRows := Tables([], [], [])

  /** Samples of the half-open unit interval, as `np.random.rand` returns them. */
  ghost predicate UnitSamples(us: seq<real>) {
    forall k :: 0 <= k < |us| ==> 0.0 <= us[k] < 1.0
  }

  /** The shape draws: A is uniform on the degenerate interval [1, 1], so it is
      1 whatever the sample, and B is a unit sample times A. */
  function Draws(vs: seq<real>, us: seq<real>): (shapes: seq<Shape>)
    requires |vs| == |us|
    ensures |shapes| == |us|
    ensures forall k :: 0 <= k < |us| ==> shapes[k].a == 1.0 && shapes[k].b == us[k]
    ensures UnitSamples(us) ==> forall k :: 0 <= k < |us| ==> 0.0 <= shapes[k].b < shapes[k].a
  {
    seq(|us|, k requires 0 <= k < |us| =>
      var a := 1.0 + (1.0 - 1.0) * vs[k];
      Shape(a, us[k] * a))
  }

  /** With A = 1 and 0 <= B < 1, every domain point in (0, 1] lies in the
      support: A/sigma - B > 0. */
  lemma DrawnShapeInSupport(sigma: seq<real>, lo: real, b: real)
    requires 0.0 < lo && Within(sigma, lo, 1.0)
    requires 0.0 <= b < 1.0
    ensures NonZero(sigma) && InSupport(sigma, 1.0, b)
  {
    forall i | 0 <= i < |sigma| ensures 1.0 / sigma[i] - b > 0.0 {
      InverseAtLeastOne(sigma[i]);
    }
  }

  lemma InverseAtLeastOne(x: real)
    requires 0.0 < x <= 1.0
    ensures 1.0 / x >= 1.0
  {
  }

  /** The number of rows the first k members fill, n rows each. */
  function RowsBefore(k: nat, n: nat): nat {
    if k == 0 then 0 else RowsBefore(k - 1, n) + n
  }

  /** The rows of k members are k times the rows of one. */
  lemma {:induction false} RowsBeforeIsProduct(k: nat, n: nat)
    ensures RowsBefore(k, n) == k * n
  {
    if k > 0 {
      RowsBeforeIsProduct(k - 1, n);
      assert (k - 1) * n + n == k * n;
    }
  }

  /** The position of domain point i of member k in every table. */
  function RowKey(k: nat, i: nat, n: nat): nat {
    RowsBefore(k, n) + i
  }

  /** Members fill consecutive, disjoint blocks of n rows: the block of
      member k ends no later than the first m blocks do, for k < m. */
  lemma {:induction false} BlockBefore(k: nat, m: nat, n: nat)
    requires k < m
    ensures RowsBefore(k, n) + n <= RowsBefore(m, n)
    decreases m
  {
    if k < m - 1 {
      BlockBefore(k, m - 1, n);
    }
  }

  /** The three tables agree row by row: the same member index, the same
      field values, the same domain point. */
  ghost predicate Aligned(t: Tables) {
    && |t.phiRows| == |t.sigmaRows| == |t.timeRows|
    && forall j :: 0 <= j < |t.sigmaRows| ==>
         && t.phiRows[j].index == t.sigmaRows[j].index == t.timeRows[j].index
         && t.phiRows[j].phi == t.sigmaRows[j].phi
         && t.phiRows[j].dsigmaDt == t.sigmaRows[j].dsigmaDt
         && t.sigmaRows[j].sigma == t.timeRows[j].sigma
  }

  /** The rows one member contributes, one per domain point, read from the
      attributes it left behind. */
  function MemberRows(idx: nat, sigma: seq<real>, s: State): (t: Tables)
    requires |s.phi| == |sigma| && |s.dsigmaDt| == |sigma| && |s.timeRatio| == |sigma|
    ensures Aligned(t) && |t.sigmaRows| == |sigma|
    ensures forall i :: 0 <= i < |sigma| ==>
      && t.sigmaRows[i] == SigmaRow(idx, sigma[i], s.phi[i], s.dsigmaDt[i])
      && t.timeRows[i].timeRatio == s.timeRatio[i]
  {
    var n := |sigma|;
    Tables(
      seq(n, i requires 0 <= i < n => PhiRow(idx, s.phi[i], s.dsigmaDt[i])),
      seq(n, i requires 0 <= i < n => SigmaRow(idx, sigma[i], s.phi[i], s.dsigmaDt[i])),
      seq(n, i requires 0 <= i < n => TimeRow(idx, s.timeRatio[i], sigma[i])))
  }

  function Append(t: Tables, u: Tables): Tables {
    Tables(t.phiRows + u.phiRows, t.sigmaRows + u.sigmaRows, t.timeRows + u.timeRows)
  }

  lemma AppendAligned(t: Tables, u: Tables)
    requires Aligned(t) && Aligned(u)
    ensures Aligned(Append(t, u))
    ensures |Append(t, u).sigmaRows| == |t.sigmaRows| + |u.sigmaRows|
  {
    var w := Append(t, u);
    forall j | 0 <= j < |w.sigmaRows|
      ensures w.phiRows[j].index == w.sigmaRows[j].index == w.timeRows[j].index
      ensures w.phiRows[j].phi == w.sigmaRows[j].phi
      ensures w.phiRows[j].dsigmaDt == w.sigmaRows[j].dsigmaDt
      ensures w.sigmaRows[j].sigma == w.timeRows[j].sigma
    {
      if j >= |t.sigmaRows| {
        var q := j - |t.sigmaRows|;
        assert w.phiRows[j] == u.phiRows[q] && w.sigmaRows[j] == u.sigmaRows[q] && w.timeRows[j] == u.timeRows[q];
      }
    }
  }

  /** One member on the generator object, as the loop sees it: from the
      attributes the object has, for one shape and one noise vector, the
      attributes after the member's calls. */
  type MemberRun = (State, Shape, seq<real>) -> Result<State>

  /** A run whose outcome does not depend on the attributes it starts from. */
  ghost predicate IgnoresState(run: MemberRun) {
    forall s, shape, z :: run(s, shape, z) == run(Unset, shape, z)
  }

  /** A run that, when it succeeds, leaves attributes of length n. */
  ghost predicate KeepsLength(run: MemberRun, n: nat) {
    forall s, shape, z :: run(s, shape, z).Success? ==>
      |run(s, shape, z).value.phi| == n && |run(s, shape, z).value.dsigmaDt| == n && |run(s, shape, z).value.timeRatio| == n
  }

  /** Each of the first `count` members succeeds on its own. */
  ghost predicate FirstSucceed(run: MemberRun, shapes: seq<Shape>, zs: seq<seq<real>>, count: nat)
    requires count <= |shapes| == |zs|
  {
    count == 0 || (FirstSucceed(run, shapes, zs, count - 1) && run(Unset, shapes[count - 1], zs[count - 1]).Success?)
  }

  /** The loop over the first `count` members, on one object whose
      attributes carry over from member to member, starting from the
      attributes `s0`. It yields the tables and the attributes the last
      member left. */
  function TabulateFirst(sigma: seq<real>, run: MemberRun, s0: State, shapes: seq<Shape>, zs: seq<seq<real>>, count: nat): (r: Result<(Tables, State)>)
    requires KeepsLength(run, |sigma|)
    requires count <= |shapes| == |zs|
    ensures r.Success? ==> Aligned(r.value.0) && |r.value.0.sigmaRows| == RowsBefore(count, |sigma|)
  {
    if count == 0 then Success((NoRows, s0))
    else
      var m := count - 1;
      var (done, s) :- TabulateFirst(sigma, run, s0, shapes, zs, m);
      var member :- run(s, shapes[m], zs[m]);
      var rows := MemberRows(m, sigma, member);
      AppendAligned(done, rows);
      Success((Append(done, rows), member))
  }

  /** `tabulate_gp_cross_section`: the loop over every member. */
  function Tabulate(sigma: seq<real>, run: MemberRun, s0: State, shapes: seq<Shape>, zs: seq<seq<real>>): (r: Result<Tables>)
    requires KeepsLength(run, |sigma|)
    requires |shapes| == |zs|
    ensures r.Success? ==> Aligned(r.value) && |r.value.sigmaRows| == RowsBefore(|shapes|, |sigma|)
  {
    var (rows, _) :- TabulateFirst(sigma, run, s0, shapes, zs, |shapes|);
    Success(rows)
  }

  /** For a run that ignores its starting attributes, the loop succeeds
      exactly when every member succeeds on its own, whatever the attributes
      the object starts with. */
  lemma {:induction false} TabulateSucceeds(sigma: seq<real>, run: MemberRun, s0: State, shapes: seq<Shape>, zs: seq<seq<real>>, count: nat)
    requires KeepsLength(run, |sigma|) && IgnoresState(run)
    requires count <= |shapes| == |zs|
    ensures TabulateFirst(sigma, run, s0, shapes, zs, count).Success? <==> FirstSucceed(run, shapes, zs, count)
  {
    if count > 0 {
      TabulateSucceeds(sigma, run, s0, shapes, zs, count - 1);
    }
  }

  /** A successful loop over m + 1 members is the loop over the first m
      followed by the rows of member m, as it runs on its own. */
  lemma TabulateStep(sigma: seq<real>, run: MemberRun, s0: State, shapes: seq<Shape>, zs: seq<seq<real>>, count: nat)
    requires KeepsLength(run, |sigma|) && IgnoresState(run)
    requires 0 < count <= |shapes| == |zs|
    requires TabulateFirst(sigma, run, s0, shapes, zs, count).Success?
    ensures var previous := TabulateFirst(sigma, run, s0, shapes, zs, count - 1);
      var member := run(Unset, shapes[count - 1], zs[count - 1]);
      && previous.Success? && member.Success?
      && TabulateFirst(sigma, run, s0, shapes, zs, count).value
         == (Append(previous.value.0, MemberRows(count - 1, sigma, member.value)), member.value)
  {
  }

  /** Row RowKey(k, i) of every table holds domain point i of member k,
      with the values member k reports on its own: nothing an earlier member
      left in the shared attributes reaches a later member's rows. */
  lemma {:induction false} TabulateRows(sigma: seq<real>, run: MemberRun, s0: State, shapes: seq<Shape>, zs: seq<seq<real>>, count: nat, k: nat, i: nat)
    requires KeepsLength(run, |sigma|) && IgnoresState(run)
    requires count <= |shapes| == |zs|
    requires TabulateFirst(sigma, run, s0, shapes, zs, count).Success?
    requires k < count && i < |sigma|
    ensures run(Unset, shapes[k], zs[k]).Success?
    ensures var t := TabulateFirst(sigma, run, s0, shapes, zs, count).value.0;
      var v := run(Unset, shapes[k], zs[k]).value;
      && RowKey(k, i, |sigma|) < |t.sigmaRows|
      && t.phiRows[RowKey(k, i, |sigma|)] == PhiRow(k, v.phi[i], v.dsigmaDt[i])
      && t.sigmaRows[RowKey(k, i, |sigma|)] == SigmaRow(k, sigma[i], v.phi[i], v.dsigmaDt[i])
      && t.timeRows[RowKey(k, i, |sigma|)] == TimeRow(k, v.timeRatio[i], sigma[i])
  {
    var n := |sigma|;
    var m := count - 1;
    TabulateStep(sigma, run, s0, shapes, zs, count);
    var done := TabulateFirst(sigma, run, s0, shapes, zs, m).value.0;
    var rows := MemberRows(m, sigma, run(Unset, shapes[m], zs[m]).value);
    var t := TabulateFirst(sigma, run, s0, shapes, zs, count).value.0;
    assert t == Append(done, rows);
    var key := RowKey(k, i, n);
    if k < m {
      TabulateRows(sigma, run, s0, shapes, zs, m, k, i);
      EarlierRows(done, rows, k, i, n, m);
    } else {
      LastRows(done, sigma, run(Unset, shapes[m], zs[m]).value, m, i);
    }
  }

  /** The rows of the member appended last sit right after the earlier
      blocks, in domain order. */
  lemma LastRows(done: Tables, sigma: seq<real>, v: State, m: nat, i: nat)
    requires |done.phiRows| == |done.sigmaRows| == |done.timeRows| == RowsBefore(m, |sigma|)
    requires |v.phi| == |sigma| && |v.dsigmaDt| == |sigma| && |v.timeRatio| == |sigma|
    requires i < |sigma|
    ensures var t := Append(done, MemberRows(m, sigma, v));
      && RowKey(m, i, |sigma|) < |t.sigmaRows|
      && t.phiRows[RowKey(m, i, |sigma|)] == PhiRow(m, v.phi[i], v.dsigmaDt[i])
      && t.sigmaRows[RowKey(m, i, |sigma|)] == SigmaRow(m, sigma[i], v.phi[i], v.dsigmaDt[i])
      && t.timeRows[RowKey(m, i, |sigma|)] == TimeRow(m, v.timeRatio[i], sigma[i])
  {
    var rows := MemberRows(m, sigma, v);
    var key := RowKey(m, i, |sigma|);
    assert Append(done, rows).phiRows[key] == rows.phiRows[i];
    assert Append(done, rows).sigmaRows[key] == rows.sigmaRows[i];
    assert Append(done, rows).timeRows[key] == rows.timeRows[i];
  }

  /** Appending rows leaves the rows of the first m blocks where they were. */
  lemma EarlierRows(done: Tables, rows: Tables, k: nat, i: nat, n: nat, m: nat)
    requires |done.phiRows| == |done.sigmaRows| == |done.timeRows| == RowsBefore(m, n)
    requires k < m && i < n
    ensures RowKey(k, i, n) < |done.sigmaRows|
    ensures Append(done, rows).phiRows[RowKey(k, i, n)] == done.phiRows[RowKey(k, i, n)]
    ensures Append(done, rows).sigmaRows[RowKey(k, i, n)] == done.sigmaRows[RowKey(k, i, n)]
    ensures Append(done, rows).timeRows[RowKey(k, i, n)] == done.timeRows[RowKey(k, i, n)]
  {
    BlockBefore(k, m, n);
  }

  // ---------------------------------------------------------------------------
  // The loop on the generator

  /** The generator object as a member run: the calls the loop makes, for
      shapes and noise the model follows. */
  function GeneratorRun(f: ExpLog, g: Generator): (run: MemberRun)
    requires Lawful(f) && WellFormed(g)
    ensures forall s: State, shape: Shape, z: seq<real> :: !(shape.a != 0.0 && shape.b >= 0.0 && |z| == |g.sigma|) ==>
      run(s, shape, z) == Failure(OutsideModel)
    ensures forall s: State, shape: Shape, z: seq<real> :: run(s, shape, z).Success? ==>
      shape.a != 0.0 && shape.b >= 0.0 && InSupport(g.sigma, shape.a, shape.b)
  {
    (s: State, shape: Shape, z: seq<real>) =>
      if shape.a != 0.0 && shape.b >= 0.0 && |z| == |g.sigma| then RunMember(f, g, s, shape.a, shape.b, z)
      else Failure(OutsideModel)
  }

  /** The generator's run ignores the attributes a previous member left. */
  lemma GeneratorRunIgnoresState(f: ExpLog, g: Generator)
    requires Lawful(f) && WellFormed(g)
    ensures IgnoresState(GeneratorRun(f, g))
  {
    var run := GeneratorRun(f, g);
    forall s, shape, z ensures run(s, shape, z) == run(Unset, shape, z) {
      if shape.a != 0.0 && shape.b >= 0.0 && |z| == |g.sigma| {
        MemberIgnoresState(f, g, s, Unset, shape.a, shape.b, z);
      }
    }
  }

  /** The generator's run leaves attributes of the domain's length. */
  lemma GeneratorRunKeepsLength(f: ExpLog, g: Generator)
    requires Lawful(f) && WellFormed(g)
    ensures KeepsLength(GeneratorRun(f, g), |g.sigma|)
  {
    var run := GeneratorRun(f, g);
    forall s, shape, z | run(s, shape, z).Success?
      ensures |run(s, shape, z).value.phi| == |g.sigma|
      ensures |run(s, shape, z).value.dsigmaDt| == |g.sigma|
      ensures |run(s, shape, z).value.timeRatio| == |g.sigma|
    {
      assert run(s, shape, z) == RunMember(f, g, s, shape.a, shape.b, z);
    }
  }

  /** The tabulator on a generator object. */
  function TabulateGenerator(f: ExpLog, g: Generator, s0: State, shapes: seq<Shape>, zs: seq<seq<real>>): (r: Result<Tables>)
    requires Lawful(f) && WellFormed(g)
    requires |shapes| == |zs|
    ensures r.Success? ==> Aligned(r.value) && |r.value.sigmaRows| == RowsBefore(|shapes|, |g.sigma|)
  {
    GeneratorRunKeepsLength(f, g);
    Tabulate(g.sigma, GeneratorRun(f, g), s0, shapes, zs)
  }

  /** Every member succeeds when its shape has A = 1 and 0 <= B < 1, its
      noise has the domain's length and the generator has its default
      configuration. */
  lemma DrawnMembersSucceed(f: ExpLog, lMatrix: Matrix, shapes: seq<Shape>, zs: seq<seq<real>>)
    requires Lawful(f) && IsSquare(lMatrix, DomainSize)
    requires forall k :: 0 <= k < |shapes| ==> shapes[k].a == 1.0 && 0.0 <= shapes[k].b < 1.0
    requires |zs| == |shapes| && forall k :: 0 <= k < |zs| ==> |zs[k]| == DomainSize
    ensures FirstSucceed(GeneratorRun(f, Init(f, lMatrix)), shapes, zs, |shapes|)
  {
    var run := GeneratorRun(f, Init(f, lMatrix));
    forall k | 0 <= k < |shapes| ensures run(Unset, shapes[k], zs[k]).Success? {
      DrawnMemberSucceeds(f, lMatrix, shapes[k], zs[k]);
    }
    EachSucceeds(run, shapes, zs, |shapes|);
  }

  /** Members that each succeed on their own make `FirstSucceed` hold. */
  lemma {:induction false} EachSucceeds(run: MemberRun, shapes: seq<Shape>, zs: seq<seq<real>>, count: nat)
    requires count <= |shapes| == |zs|
    requires forall k :: 0 <= k < count ==> run(Unset, shapes[k], zs[k]).Success?
    ensures FirstSucceed(run, shapes, zs, count)
  {
    if count > 0 {
      EachSucceeds(run, shapes, zs, count - 1);
    }
  }

  /** One member with A = 1 and 0 <= B < 1 succeeds on the default generator. */
  lemma DrawnMemberSucceeds(f: ExpLog, lMatrix: Matrix, shape: Shape, z: seq<real>)
    requires Lawful(f) && IsSquare(lMatrix, DomainSize)
    requires shape.a == 1.0 && 0.0 <= shape.b < 1.0 && |z| == DomainSize
    ensures GeneratorRun(f, Init(f, lMatrix))(Unset, shape, z).Success?
  {
    var g := Init(f, lMatrix);
    DrawnShapeInSupport(g.sigma, 0.01, shape.b);
    MemberRecord(f, g, Unset, 1.0, shape.b, z);
  }

  /** The loop as `tabulate_gp_cross_section` runs it: 200 shapes drawn
      with A = 1 and B a unit sample, on the default generator. Every member succeeds, whatever
      the attributes the generator starts with, and each table has one row
      per member and domain point, 200 * 100 rows in all. */
  lemma TabulateDefault(f: ExpLog, lMatrix: Matrix, s0: State, vs: seq<real>, us: seq<real>, zs: seq<seq<real>>)
    requires Lawful(f) && IsSquare(lMatrix, DomainSize)
    requires |vs| == |us| == |zs| == Members && UnitSamples(us)
    requires forall k :: 0 <= k < |zs| ==> |zs[k]| == DomainSize
    ensures var r := TabulateGenerator(f, Init(f, lMatrix), s0, Draws(vs, us), zs);
      && r.Success?
      && |r.value.phiRows| == |r.value.sigmaRows| == |r.value.timeRows| == 20000
  {
    var g := Init(f, lMatrix);
    var shapes := Draws(vs, us);
    var run := GeneratorRun(f, g);
    DrawnMembersSucceed(f, lMatrix, shapes, zs);
    GeneratorRunKeepsLength(f, g);
    GeneratorRunIgnoresState(f, g);
    TabulateSucceeds(g.sigma, run, s0, shapes, zs, |shapes|);
    RowsBeforeIsProduct(Members, DomainSize);
  }

  /** In the loop as `tabulate_gp_cross_section` runs it, the row of
      member k at domain point i carries k, the domain point, a latent value whose exponential
      is A/sigma_i - B = 1/sigma_i - B_k, and a time ratio in [0, 1]. */
  lemma DefaultRow(f: ExpLog, lMatrix: Matrix, s0: State, vs: seq<real>, us: seq<real>, zs: seq<seq<real>>, k: nat, i: nat)
    requires Lawful(f) && IsSquare(lMatrix, DomainSize)
    requires |vs| == |us| == |zs| == Members && UnitSamples(us)
    requires forall m :: 0 <= m < |zs| ==> |zs[m]| == DomainSize
    requires k < Members && i < DomainSize
    ensures TabulateGenerator(f, Init(f, lMatrix), s0, Draws(vs, us), zs).Success?
    ensures var g := Init(f, lMatrix);
      var t := TabulateGenerator(f, g, s0, Draws(vs, us), zs).value;
      var key := RowKey(k, i, DomainSize);
      && key < |t.sigmaRows| && key < |t.phiRows| && key < |t.timeRows|
      && t.sigmaRows[key].index == k && t.sigmaRows[key].sigma == g.sigma[i]
      && f.Exp(t.sigmaRows[key].phi) == 1.0 / g.sigma[i] - us[k]
      && t.phiRows[key].phi == t.sigmaRows[key].phi
      && t.timeRows[key].sigma == g.sigma[i]
      && 0.0 <= t.timeRows[key].timeRatio <= 1.0
  {
    var g := Init(f, lMatrix);
    var shapes := Draws(vs, us);
    var run := GeneratorRun(f, g);
    TabulateDefault(f, lMatrix, s0, vs, us, zs);
    GeneratorRunKeepsLength(f, g);
    GeneratorRunIgnoresState(f, g);
    TabulateRows(g.sigma, run, s0, shapes, zs, |shapes|, k, i);
    var v := RunMember(f, g, Unset, 1.0, us[k], zs[k]).value;
    assert run(Unset, shapes[k], zs[k]) == RunMember(f, g, Unset, 1.0, us[k], zs[k]);
    MemberEntries(f, g, Unset, 1.0, us[k], zs[k], i);
  }
}
