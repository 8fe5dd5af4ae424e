# GP cross-section generator and tabulator, in Dafny

This project models the Gaussian-process cross-section generator
`GaussianProcessCrossSection` and the loop `tabulate_gp_cross_section`, which
runs the generator for an ensemble of 200 members and collects three tables.

The generator works on a fixed, increasing domain sigma of N points.
- It builds the squared-exponential covariance over that domain and adds a
  small jitter to the diagonal before the Cholesky factorisation.
- For one member with shape parameters (A, B), it draws a latent field
  phi = L z and maps it to a rate A / (exp(phi) + B).
- It integrates time by a forward sum t[i] = t[i-1] + (sigma_i - sigma_{i-1}) / rate_i,
  then converts t to a time ratio relative to production and formation times.
- It renormalises in three steps:
  - min-max rescaling of the time ratio;
  - finite-difference rates against the rescaled axis, with index 0 left as it was;
  - the latent field replaced by log(A/sigma - B).

The tabulator draws A = 1 and B uniform in [0, 1) for each member. It runs
the six calls on one shared generator object and appends N rows per member
to each of three tables.

## How the model is organised

- `transcendental.dfy`: exp and log are a caller-supplied pair `ExpLog`.
  The predicate `Lawful` holds the laws the model uses:
  - exp is positive;
  - exp(0) = 1;
  - exp and log are inverse on the positive reals.
- `outcome.dfy`: a `Result` type. Where numpy would yield NaN or infinity,
  or raise, the model returns `Failure`:
  - a logarithm of a non-positive number;
  - an empty time axis;
  - a zero time range;
  - a zero time step.

  A member the model does not follow is the failure `OutsideModel`.
- `real_seq.dfy` and `matrices.dfy`: order facts, `Min`/`Max`, and the
  numpy matrix operations used (`eye`, scaling, sum, `dot`).
- `arith.dfy`: small real-arithmetic facts, each stated once.
- `generator.dfy`: the class.
  - The configuration fixed at construction is the `Generator` record.
  - The attributes `phi`, `dsigma_dt` and `time_ratio` are a `State`.
  - Each method is a step from one `State` to the next.
  - A member is the run of the six calls the tabulator makes (`Call`, `Apply`, `Run`, `RunMember`).
- `tabulator.dfy`: the draws, the table rows and the loop.
  - The loop is written once for any member run (`MemberRun`), then
    instantiated with the generator (`GeneratorRun`).
  - The attributes carry over from member to member, as they do on the
    shared Python object.

## Model

| member | source | states |
|---|---|---|
| CrossSectionGenerator.Linspace | src/GaussianProcessCrossSectionGenerator.py:8 | The domain has n points, starts at the first end point and finishes exactly at the second, is strictly increasing, stays between the two, and every step between neighbours is (stop - start)/(n - 1). |
| CrossSectionGenerator.Init | src/GaussianProcessCrossSectionGenerator.py:4-20 | The default configuration is well formed and pins every constructor default. The domain is `Linspace(0.01, 1.0, 100)`, with l = 1, kappa = 10, xi = 1e-6, sigma_0 = 0, sigma_f = 1, t_prod = 0 and t_form = 1. The covariance is the kernel covariance of that domain: symmetric, with kappa^2 = 100 on the diagonal. The Cholesky factor is the one given. |
| CrossSectionGenerator.InitDomainSpacing | src/GaussianProcessCrossSectionGenerator.py:7-8 | Neighbouring points of the default domain are exactly 0.01 apart. |
| CrossSectionGenerator.InitJittered | src/GaussianProcessCrossSectionGenerator.py:19-32 | The matrix the default constructor factorises is 100 x 100 and symmetric. It has 100 + 1e-6 on the diagonal and the kernel of the two domain points everywhere else. |
| CrossSectionGenerator.Kernel | src/GaussianProcessCrossSectionGenerator.py:27 | A kernel entry is non-negative, and positive whenever kappa is non-zero. |
| CrossSectionGenerator.Covariance | src/GaussianProcessCrossSectionGenerator.py:22-27 | The covariance is N x N and exactly symmetric. Every diagonal entry is kappa^2, since exp(0) = 1. |
| CrossSectionGenerator.KernelOfDistance | src/GaussianProcessCrossSectionGenerator.py:27 | Two point pairs whose differences are equal or opposite give the same kernel value. |
| CrossSectionGenerator.KernelAtZeroDistance | src/GaussianProcessCrossSectionGenerator.py:27 | At zero distance the kernel is kappa^2. |
| CrossSectionGenerator.CovarianceIsStationary | src/GaussianProcessCrossSectionGenerator.py:22-27 | Two covariance entries whose point pairs lie the same distance apart are equal. |
| CrossSectionGenerator.Jittered | src/GaussianProcessCrossSectionGenerator.py:29-32 | Adding xi times the identity raises each diagonal entry by exactly xi. It leaves every off-diagonal entry unchanged and keeps a symmetric matrix symmetric. |
| Matrices.MulVec | src/GaussianProcessCrossSectionGenerator.py:37 | The product has one entry per matrix row, and multiplying a vector by the identity gives the vector back. |
| Matrices.MulVecAdditive | src/GaussianProcessCrossSectionGenerator.py:37 | The product of a sum of two vectors is the sum of their products, so the correlated noise is linear in z. |
| CrossSectionGenerator.CalculatePhi | src/GaussianProcessCrossSectionGenerator.py:34-39 | The latent field is defined exactly when A/sigma_i - B > 0 at every point, since otherwise the mean term is 0 times the NaN or -inf of the log, which is NaN. When defined, it equals L z: the mean term contributes nothing. |
| CrossSectionGenerator.RateAt | src/GaussianProcessCrossSectionGenerator.py:45 | For B >= 0 the rate at one point is positive when A > 0. It is non-zero with A/rate - B = exp(phi) when A != 0. |
| CrossSectionGenerator.CalculateDsigmaDt | src/GaussianProcessCrossSectionGenerator.py:41-45 | The rate has phi's length and is positive everywhere when A > 0. It satisfies the inverse relation A/rate_i - B = exp(phi_i) when A != 0. Being a function of its arguments, it changes no attribute. |
| CrossSectionGenerator.Latent | src/GaussianProcessCrossSectionGenerator.py:44 | The latent field has the rate's length, and at every point where A/rate_i - B > 0 its exponential is A/rate_i - B. |
| CrossSectionGenerator.LatentOfRate | src/GaussianProcessCrossSectionGenerator.py:41-45 | Round trip: taking the logarithm of A/rate - B gives back the latent field the rate came from. |
| CrossSectionGenerator.RateAtLatent | src/GaussianProcessCrossSectionGenerator.py:41-45 | At one point, the rate of log(A/r - B) is r, wherever that logarithm is defined. |
| CrossSectionGenerator.RateOfLatent | src/GaussianProcessCrossSectionGenerator.py:41-45 | Round trip the other way: the rate of the latent field log(A/r - B) is r again. |
| CrossSectionGenerator.Integrate | src/GaussianProcessCrossSectionGenerator.py:51-54 | The time axis has N entries and starts at 0. Each later entry adds the domain step divided by the rate at the step's upper end. |
| CrossSectionGenerator.IntegrateIgnoresFirstRate | src/GaussianProcessCrossSectionGenerator.py:52-54 | Changing rate[0] to any value leaves the time axis unchanged: the loop never reads it. |
| CrossSectionGenerator.IntegrateIncreasing | src/GaussianProcessCrossSectionGenerator.py:51-54 | An increasing domain with positive rates gives a strictly increasing, non-negative time axis. |
| CrossSectionGenerator.TimeRatio | src/GaussianProcessCrossSectionGenerator.py:55 | The time ratio has N entries. Mapping it back with t_prod + ratio * (t_form - t_prod) gives the times. |
| CrossSectionGenerator.TimeRatioKeepsOrder | src/GaussianProcessCrossSectionGenerator.py:55 | With production before formation, two times compare exactly as their ratios do. |
| CrossSectionGenerator.TimeRatioExtremes | src/GaussianProcessCrossSectionGenerator.py:55 | For an increasing time axis, the ratio's minimum is its first entry, its maximum is its last, and the two differ. |
| RealSeq.Min | src/GaussianProcessCrossSectionGenerator.py:58 | The minimum is an entry of the sequence and no entry is smaller. |
| RealSeq.Max | src/GaussianProcessCrossSectionGenerator.py:59 | The maximum is an entry of the sequence and no entry is larger. |
| CrossSectionGenerator.RescaleTime | src/GaussianProcessCrossSectionGenerator.py:57-62 | The rescaling succeeds exactly when the axis is non-empty and max > min. It keeps the length and every value lies in [0, 1]. An entry maps to 0 exactly when it is the minimum and to 1 exactly when it is the maximum. Order is kept in both directions. |
| CrossSectionGenerator.RescaleTimeIdempotent | src/GaussianProcessCrossSectionGenerator.py:57-62 | Rescaling an already rescaled axis changes nothing. |
| CrossSectionGenerator.RescaleNormalized | src/GaussianProcessCrossSectionGenerator.py:57-62 | An axis within [0, 1] that reaches both 0 and 1 is returned as it is. |
| CrossSectionGenerator.RescaleDsigmaDt | src/GaussianProcessCrossSectionGenerator.py:64-69 | It succeeds exactly when no two neighbouring time ratios are equal; otherwise numpy divides by zero. Entry 0 keeps its earlier value. Every later entry times its time step equals its domain step. |
| CrossSectionGenerator.RescalePhi | src/GaussianProcessCrossSectionGenerator.py:71-72 | The new latent field is defined exactly on the support. It has N entries, each satisfying exp(phi_i) = A/sigma_i - B, independent of the sampled noise. |
| CrossSectionGenerator.RescaledPhiRateIsSigma | src/GaussianProcessCrossSectionGenerator.py:71-72 | Put through the rate transform, the rescaled latent field gives back the domain itself. |
| CrossSectionGenerator.StepPhi | src/GaussianProcessCrossSectionGenerator.py:34-39 | `calculatePhi` succeeds exactly on the support. It assigns phi = L z and leaves the other attributes as they were. |
| CrossSectionGenerator.StepF | src/GaussianProcessCrossSectionGenerator.py:47-55 | `calculateF` keeps phi and assigns dsigma_dt = the rate of phi. It assigns the time ratio of the time axis integrated from that rate, which has N entries. |
| CrossSectionGenerator.StepRescaleTime | src/GaussianProcessCrossSectionGenerator.py:57-62 | `rescaleTime` succeeds exactly when the time ratio has a non-zero range. It replaces the time ratio only, with its min-max rescaling, which has the same length and lies within [0, 1]. |
| CrossSectionGenerator.StepRescaleDsigmaDt | src/GaussianProcessCrossSectionGenerator.py:64-69 | `rescaleDsigmaDt` succeeds exactly when no two neighbouring time ratios are equal. It replaces dsigma_dt only, with the finite-difference rates, keeping its length and its entry 0. |
| CrossSectionGenerator.StepRescalePhi | src/GaussianProcessCrossSectionGenerator.py:71-72 | `rescalePhi` succeeds exactly on the support. It leaves dsigma_dt and time_ratio unchanged and assigns a phi of N entries with exp(phi_i) = A/sigma_i - B. |
| CrossSectionGenerator.Apply | src/GaussianProcessCrossSectionTabulator.py:18-23 | The bare `calculateDsigmaDt` call leaves the attributes as they were. Only `calculatePhi` and `rescalePhi` change phi. Only `calculateF` and `rescaleDsigmaDt` change dsigma_dt. Only `calculateF` and `rescaleTime` change the time ratio. |
| CrossSectionGenerator.Run | src/GaussianProcessCrossSectionTabulator.py:18-23 | A run made only of bare `calculateDsigmaDt` calls changes nothing. A successful run without `calculatePhi` or `rescalePhi` leaves phi as it was. |
| CrossSectionGenerator.RunMember | src/GaussianProcessCrossSectionTabulator.py:18-23 | A member that succeeds had its shape in the support and leaves three attributes of N entries each. |
| CrossSectionGenerator.Pipeline | src/GaussianProcessCrossSectionTabulator.py:18-23 | A member that gets through the hand-chained calls had its shape in the support. It leaves three attributes of N entries each. |
| CrossSectionGenerator.MemberIsPipeline | src/GaussianProcessCrossSectionTabulator.py:18-23 | Running the six calls one by one is the hand-chained pipeline. In particular, the bare `calculateDsigmaDt` call, whose result is discarded, changes nothing. |
| CrossSectionGenerator.MemberEntries | src/GaussianProcessCrossSectionTabulator.py:18-23 | After a successful member, each latent entry satisfies exp(phi_i) = A/sigma_i - B and each time ratio lies in [0, 1]. |
| CrossSectionGenerator.MemberIgnoresState | src/GaussianProcessCrossSectionTabulator.py:17-23 | No leakage between members: a member's outcome is the same whatever attributes the object had before it. |
| CrossSectionGenerator.RescaledTimeIsFraction | src/GaussianProcessCrossSectionGenerator.py:55-62 | With production before formation, rescaling the time ratio of an increasing axis from 0 gives t_i / t_{N-1}. t_prod and t_form cancel out. |
| CrossSectionGenerator.TimeFractions | src/GaussianProcessCrossSectionGenerator.py:55-62 | Min-max scaling of the time ratio between its first and last entries equals t_i / t_{N-1}. |
| CrossSectionGenerator.RescaledRateIsScaled | src/GaussianProcessCrossSectionGenerator.py:64-69 | Against the axis t/t_{N-1}, the recomputed rate at every index i >= 1 is rate_i * t_{N-1}. Index 0 keeps rate_0. |
| CrossSectionGenerator.RescaleOfIntegratedFractions | src/GaussianProcessCrossSectionGenerator.py:64-69 | The same, for any time axis that obeys the integration recurrence and ends above 0. |
| CrossSectionGenerator.RescaleOfScaledSteps | src/GaussianProcessCrossSectionGenerator.py:64-69 | When every domain step over its time step is rate_i * c, the recomputed rate is rate_0 followed by rate_i * c. |
| CrossSectionGenerator.MemberRecord | src/GaussianProcessCrossSectionTabulator.py:18-23 | The precise record one member reports. The conditions are: production before formation, an increasing domain of at least two points, A > 0, B >= 0, and a shape in the support. Under them the member succeeds, and the total time t_{N-1} is positive. phi is log(A/sigma - B). dsigma_dt is rate_0, then rate_i * t_{N-1}. time_ratio is t_i / t_{N-1}. |
| CrossSectionTabulator.Draws | src/GaussianProcessCrossSectionTabulator.py:8-9 | One shape per sample. A is 1 whatever the sample, and B is the unit sample. Unit samples in [0, 1) give 0 <= B < A. |
| CrossSectionTabulator.DrawnShapeInSupport | src/GaussianProcessCrossSectionTabulator.py:8-9 | With A = 1 and 0 <= B < 1, every domain point in (0, 1] is non-zero and has A/sigma - B > 0, so every logarithm is defined. |
| CrossSectionTabulator.RowsBeforeIsProduct | src/GaussianProcessCrossSectionTabulator.py:25-28 | k members of n rows each fill k * n rows. |
| CrossSectionTabulator.BlockBefore | src/GaussianProcessCrossSectionTabulator.py:25-28 | Members fill consecutive, disjoint blocks: the block of an earlier member ends before a later member's block starts. |
| CrossSectionTabulator.MemberRows | src/GaussianProcessCrossSectionTabulator.py:25-28 | One member contributes N rows to each table, aligned with one another. Row i holds the member index, sigma_i, phi_i and dsigma_dt_i, and time_ratio_i. |
| CrossSectionTabulator.AppendAligned | src/GaussianProcessCrossSectionTabulator.py:25-28 | Appending aligned tables keeps the three tables aligned and adds their row counts. |
| CrossSectionTabulator.TabulateFirst | src/GaussianProcessCrossSectionTabulator.py:17-28 | After k members, the three tables are aligned row by row and hold k * N rows each, N per member. |
| CrossSectionTabulator.Tabulate | src/GaussianProcessCrossSectionTabulator.py:6-28 | The whole loop yields aligned tables of n * N rows each. |
| CrossSectionTabulator.TabulateSucceeds | src/GaussianProcessCrossSectionTabulator.py:17-23 | For a member run that ignores leftover attributes, the loop succeeds exactly when every member succeeds on its own, from any starting attributes. |
| CrossSectionTabulator.TabulateStep | src/GaussianProcessCrossSectionTabulator.py:17-28 | A successful loop over k + 1 members is the loop over k members, followed by the rows of member k as it runs on its own. |
| CrossSectionTabulator.TabulateRows | src/GaussianProcessCrossSectionTabulator.py:25-28 | Row k * N + i of every table holds member index k and domain point i, with the values member k computes on its own. Nothing an earlier member left reaches a later member's rows. |
| CrossSectionTabulator.GeneratorRun | src/GaussianProcessCrossSectionTabulator.py:17-23 | A member with A = 0, B < 0 or a noise vector of the wrong length fails as not followed. A member that succeeds had A != 0, B >= 0 and its shape in the support. |
| CrossSectionTabulator.GeneratorRunIgnoresState | src/GaussianProcessCrossSectionTabulator.py:17-23 | The generator's member run gives the same outcome whatever attributes the shared object carries. |
| CrossSectionTabulator.GeneratorRunKeepsLength | src/GaussianProcessCrossSectionTabulator.py:17-28 | A successful member leaves attributes of the domain's length, so each member adds exactly N rows. |
| CrossSectionTabulator.TabulateGenerator | src/GaussianProcessCrossSectionTabulator.py:6-28 | On the generator, a successful loop yields aligned tables of n * N rows each. |
| CrossSectionTabulator.DrawnMemberSucceeds | src/GaussianProcessCrossSectionTabulator.py:17-23 | A member with A = 1 and 0 <= B < 1 succeeds on the default generator. |
| CrossSectionTabulator.DrawnMembersSucceed | src/GaussianProcessCrossSectionTabulator.py:8-23 | Every member of a list of such shapes succeeds on the default generator. |
| CrossSectionTabulator.TabulateDefault | src/GaussianProcessCrossSectionTabulator.py:7-28 | The loop as the program runs it: 200 drawn shapes on the default generator, from any starting attributes. It succeeds, and each table has 200 * 100 = 20000 rows. |
| CrossSectionTabulator.DefaultRow | src/GaussianProcessCrossSectionTabulator.py:25-28 | In that loop, row k * 100 + i holds member index k and domain point sigma_i. Its latent value has exponential 1/sigma_i - B_k and is the same in the first two tables. Its time ratio lies in [0, 1]. |

## Left out

- The Cholesky factorisation (`np.linalg.cholesky`) needs square roots and numerical positive definiteness. The factor L is a parameter of `Init`. `Jittered` models the matrix that is factorised.
- Random draws are parameters:
  - the standard-normal vector z of each `calculatePhi`;
  - the uniform samples behind A and B.
- exp and log are not evaluated. They are the caller's `ExpLog`, constrained only by `Lawful`.
- IEEE floating point is not modelled; the model uses exact reals:
  - rounding;
  - the NaN-skipping of `nanmin`/`nanmax`;
  - 0 * NaN and 0 * -inf;
  - infinities.
  A NaN or infinity the program could produce is a `Failure`. The exception is division by a configuration constant the class never checks: a domain point of 0, a correlation length l = 0, or t_form = t_prod. `WellFormed` excludes all three, and `Kernel` and `Covariance` also require l != 0 themselves.
- The constructor's unused `sigma_0` and `sigma_f` are recorded in `Generator` but play no part.
- The kernel's upper bound kappa^2 off the diagonal is not stated: it needs exp to be increasing, which is not among the laws the model assumes.
- CrossSectionGenerator.MemberRecord: it assumes production before formation and an increasing domain. The default configuration meets both; other configurations are covered only by the weaker member lemmas.
- CrossSectionGenerator.Apply: a `calculateF` or `rescaleDsigmaDt` call on attributes of the wrong length, where Python would raise or compute something else, is the failure `OutsideModel`. The member's calls never make one.
- CrossSectionTabulator.GeneratorRun: the model follows members with A != 0, B >= 0 and a noise vector of the domain's length. Any other member is the failure `OutsideModel`. The program only draws A = 1 and 0 <= B < 1.
- CrossSectionTabulator.TabulateFirst: when one member fails, the model's loop fails as a whole and returns no tables. The program never stops its loop. For such a member it appends N rows of NaN or inf and carries on with the later members. The program's own draws never reach this case: `DrawnMembersSucceed` proves that every drawn member succeeds on the default generator.
- Writing the tables is not modelled: DataFrame construction, the five-decimal formatting and the file writes (src/GaussianProcessCrossSectionTabulator.py:31-38). The tables are the model's result.
- The script entry point (src/GaussianProcessCrossSectionTabulator.py:40-42) is not modelled. It calls `tabulate_gp_cross_section` without its output directory, so as written it stops with a missing-argument error before any member runs.
- The polynomial reference curves, the plotter, `main.py`, the OpenAPI validator, the logo script and `gp_cross-section.py` are not part of this model. The class body in `gp_cross-section.py` repeats the generator modelled here.
