# τ-field symbolic core, modelled in Dafny

This project models the numerical core of tdm-nexus-ai. The core has three parts:

- **The field stepper.** `simulate_tdm_field_4d` evolves a scalar τ field on a `T × X × Y × Z` grid. The first slice holds a small random fluctuation. Each interior point of slices 2 to T-1 is advanced by a weighted d'Alembertian minus a weighted potential force, then clamped to [-10, 10]; slice 1 is never written and keeps its allocated zeros.
- **Two symbolic encoders.**
  - `parse_tau_field` turns a τ time series into symbols. It uses a fixed slope threshold and a curvature threshold ten times larger.
  - `parse_cl_to_tau_symbols` turns a CMB power spectrum into symbols. Its thresholds are scaled to the standard deviations of the spectrum's own gradient and curvature.
- **The comparator.** `compare_symbol_sequences` scores two symbol sequences. The score is the share of positions, marked on both sides, where the two symbols agree.

Modules, one per file:

- `Outcomes`: the `Result` type. It stands in for the exceptions numpy raises.
- `Numerics`: `abs`, `np.clip`, negation and a guarded fraction.
- `Statistics`: population mean, variance, and what it means to be a standard deviation.
- `Differences`: `np.gradient` with unit spacing and first-order edges, plus the gradient of the gradient.
- `Symbols`: the alphabet `Rising | Falling | Disc | Flat` for `'τ↑'`, `'τ↓'`, `'δτ⨉'` and `None`, and the precedence rule both encoders share.
- `TdmParser`: the fixed-threshold encoder.
- `CosmologyMatcher`: the adaptive encoder and the comparator.
- `TdmSimulator`: the field stepper.

The stepper has two forms that are proved to agree:

- `Field` is a recursive reference definition, one value per grid point.
- `SimulateTdmField4D` allocates zero slices and runs the source's four loops over the interior ranges `1 .. T-2`, `1 .. X-2`, `1 .. Y-2` and `1 .. Z-2`. Each new value is read off the grid as it stands and written into slice `t + 1` at once, so later points of the same sweep see a partly written slice. The loop invariant (`Partial`) says which points of slice `t + 1` are already written. The result is proved to equal the reference slice for slice.

Points the proofs make explicit about the code as written:

- **The d'Alembertian's "next" term is always 0.** It reads `tau[t+1, x, y, z]` at the very point about to be written, which still holds its allocated zero (`NextReadIsUnwritten`). No other point of slice `t + 1` is read, so the order of the sweep does not matter (`WriteElsewhereIsInvisible`).
- **Slice 1 is never written.** The loop starts at `t = 1` and writes `t + 1`. The fluctuation in slice 0 therefore enters the evolution only as the "previous" term of the d'Alembertian at `t = 1` (`SliceOneIsZero`).
- **The force follows the code, not the docstring.** The docstring of `potential_derivative` says `m²τ + λτ³`. The code computes `4 λ c³ - 2 m c`, where `c` is the field value clamped to [-1, 1]. The model follows the code.

## Model

| member | source | states |
|---|---|---|
| Numerics.Clip | core/tdm_simulator.py:55 | `np.clip` on a scalar: the result lies in [lo, hi], equals the input inside the range and the nearer bound outside it; `ClipOdd` shows it commutes with negation on a symmetric range |
| Numerics.Abs | core/tdm_parser.py:8 | Python's `abs` on a float: the result is non-negative and is either the input or its negation |
| Numerics.Fraction | core/cosmology_matcher.py:40 | the guarded division `m / n if n else 0.0` lies in [0, 1], is 0.0 iff nothing agrees, and is 1.0 iff something was counted and everything agreed |
| Statistics.Variance | core/cosmology_matcher.py:34-35 | the population variance (divisor n) that `np.std` takes the root of, never negative; negation keeps it (`StdOfNegation`) |
| Statistics.IsStd | core/cosmology_matcher.py:34-35 | what `np.std` returns: a non-negative number whose square is the population variance |
| Statistics.StdOfNegation | core/cosmology_matcher.py:34-35 | negating a sample negates its mean and keeps its variance, so a standard deviation of one is a standard deviation of the other |
| Differences.Central | core/tdm_parser.py:5 | `np.gradient` with unit spacing on two or more samples: one value per sample, given by `GradientAt`'s formula (a one-sided difference at each end, a central difference inside); the lemmas below state properties of those values, and `CentralOfSquares` is the one only a central difference satisfies |
| Differences.Gradient | core/tdm_parser.py:5-6 | fails exactly when the sample has fewer than two points; otherwise yields one value per sample |
| Differences.Curvature | core/tdm_parser.py:6 | the gradient taken twice, one value per sample; it vanishes on a constant-step sample (`CurvatureOfConstantStep`) and is odd (`CurvatureOfNegation`) |
| Differences.GradientOfConstantStep | core/tdm_parser.py:5 | a sample rising by a constant step has that step as its gradient at every point, the one-sided ends included |
| Differences.CurvatureOfConstantStep | core/tdm_parser.py:6 | the gradient of the gradient of such a sample is 0 everywhere |
| Differences.GradientOfNegation | core/cosmology_matcher.py:32 | negating the sample negates its gradient |
| Differences.CurvatureOfNegation | core/cosmology_matcher.py:33 | negating the sample negates its curvature |
| Differences.GradientOfIncreasing | core/tdm_parser.py:5 | a strictly increasing sample has a strictly positive gradient at every point |
| Differences.CentralOfSquares | core/tdm_parser.py:5 | on the squares 0, 1, 4, 9, … the gradient at every interior point i is 2i, where a one-sided difference would give 2i ± 1 |
| Symbols.Classify | core/tdm_parser.py:8-15 | the four symbols partition the inputs: Disc iff abs(curvature) > lth; Rising iff not Disc and slope > gth; Falling iff neither and slope < -gth; Flat (None) iff abs(curvature) <= lth and slope within [-gth, gth] |
| Symbols.FallingBelowThreshold | core/tdm_parser.py:12-13 | with a non-negative slope threshold, Falling iff not Disc and slope < -gth |
| Symbols.ClassifyOfNegation | core/cosmology_matcher.py:36 | negating slope and curvature swaps Rising and Falling and keeps Disc and Flat, for gth >= 0 |
| Symbols.Encode | core/tdm_parser.py:7-15 | the `zip` loop over gradient and curvature: one symbol per aligned pair of values, each classified on its own (the lemmas below state which) |
| Symbols.EncodeSamples | core/tdm_parser.py:5-15 | one symbol per sample of a sample of two or more; mirrored under negation, and all Rising, all Falling or all None on steady samples (lemmas below) |
| Symbols.EncodeSamplesOfNegation | core/tdm_parser.py:5-15 | the encoding of a negated sample is the mirrored encoding |
| Symbols.EncodeSamplesOfSteadyRise | core/tdm_parser.py:10-11 | a sample rising by a step above gth is Rising everywhere when lth >= 0 |
| Symbols.EncodeSamplesOfSteadyFall | core/tdm_parser.py:12-13 | a sample falling by a step steeper than gth is Falling everywhere |
| Symbols.EncodeSamplesOfConstant | core/tdm_parser.py:14-15 | a constant sample is Flat (None) everywhere under non-negative thresholds |
| TdmParser.ParseTauField | core/tdm_parser.py:3-16 | fails iff fewer than two samples; otherwise one symbol per sample, equal to the pointwise classification with slope threshold `threshold` and curvature threshold `10 * threshold`; Disc exactly where abs(curvature) > 10 * threshold |
| TdmParser.DefaultThresholdOfConstant | core/tdm_parser.py:3 | at the default threshold 1e-5 a constant series carries no symbol |
| TdmParser.SpikeMarksDiscontinuities | core/tdm_parser.py:3-16 | the encoder on a steady rise with a spike at index 5, threshold 0.5: Disc at indices 3, 5 and 7, Rising just before the spike, Falling just after it, Rising elsewhere |
| CosmologyMatcher.ParseClToTauSymbols | core/cosmology_matcher.py:31-36 | fails iff fewer than two samples; otherwise one symbol per sample, Disc iff abs(curvature) > lapFactor·std(curvature), and None iff the point is neither Disc nor outside ±gradFactor·std(gradient) |
| CosmologyMatcher.ParseClMatchesFixedThresholds | core/cosmology_matcher.py:34-36 | the adaptive encoder is the shared classification with thresholds gradFactor·std(dcl) and lapFactor·std(ddcl) |
| CosmologyMatcher.ParseClOfNegation | core/cosmology_matcher.py:31-36 | negating the spectrum keeps both standard deviations and swaps Rising with Falling |
| CosmologyMatcher.ParseClOfConstant | core/cosmology_matcher.py:34-36 | a constant spectrum succeeds and is None everywhere |
| CosmologyMatcher.DefaultFactorsOfConstant | core/cosmology_matcher.py:31 | with the default factors 0.5 and 0.5 a constant spectrum is None everywhere |
| CosmologyMatcher.Paired | core/cosmology_matcher.py:39 | no longer than either input, and every surviving pair has a symbol on both sides; `ScoreByPosition` says which pairs survive |
| CosmologyMatcher.Agreements | core/cosmology_matcher.py:40 | the `sum(1 for ... if o == s)` count: at most the number of pairs; equal to it iff all pairs agree (`AllAgree`), 0 iff none does (`NoneAgree`), additive over a split (`AgreementsOfConcat`) |
| CosmologyMatcher.CompareSymbolSequences | core/cosmology_matcher.py:38-40 | the score lies in [0, 1] and is 0.0 when no pair survives |
| CosmologyMatcher.Aligned | core/cosmology_matcher.py:39 | the number of positions `zip` pairs up: at most each length and equal to one of them, i.e. the shorter length |
| CosmologyMatcher.MarkedBelowGrows | core/cosmology_matcher.py:39 | a later marked position has more marked positions before it, so distinct marked positions land on distinct pairs |
| CosmologyMatcher.PairedOfPrefix | core/cosmology_matcher.py:39-40 | on the first n positions the pairs are exactly the positions marked on both sides, in order (marked position i is pair number "marked positions below i"), and their agreements are the marked positions with equal symbols |
| CosmologyMatcher.ScoreByPosition | core/cosmology_matcher.py:38-40 | over the positions `zip` aligns, the pairs are exactly the jointly marked positions in order, and the score equals the number of jointly marked positions with equal symbols over the number of jointly marked positions (0.0 if there are none) |
| CosmologyMatcher.PairedEmpty | core/cosmology_matcher.py:39 | no pair survives iff every aligned position has None on at least one side |
| CosmologyMatcher.PerfectScore | core/cosmology_matcher.py:40 | the score is 1.0 iff some pair survives and every surviving pair agrees |
| CosmologyMatcher.PositiveScore | core/cosmology_matcher.py:40 | the score is above 0.0 iff some surviving pair agrees, and exactly 0.0 otherwise |
| CosmologyMatcher.CompareWithItself | core/cosmology_matcher.py:38-40 | a sequence with at least one symbol scores 1.0 against itself |
| CosmologyMatcher.CompareSymmetric | core/cosmology_matcher.py:38-40 | swapping the two sequences leaves the score unchanged |
| CosmologyMatcher.CompareIgnoresTail | core/cosmology_matcher.py:39 | the longer sequence's points past the end of the shorter one do not affect the score |
| CosmologyMatcher.CompareExample | core/cosmology_matcher.py:38-40 | two surviving pairs, one agreeing, give 0.5; None and the extra tail do not count |
| TdmSimulator.DAlembertian | core/tdm_simulator.py:28-50 | 0 on the first slice and from slice T-1 on |
| TdmSimulator.DAlembertianOfUniform | core/tdm_simulator.py:33-50 | a locally constant field has no d'Alembertian |
| TdmSimulator.DAlembertianOfNegation | core/tdm_simulator.py:33-50 | the operator is linear in the values it reads: negating them negates it |
| TdmSimulator.DAlembertianIgnoresEdgeNeighbours | core/tdm_simulator.py:37-47 | at a point on the grid's x, y or z edge, the neighbours along that axis do not influence the result |
| TdmSimulator.PotentialDerivative | core/tdm_simulator.py:52-56 | the force vanishes at a field value of 0 |
| TdmSimulator.PotentialDerivativeBound | core/tdm_simulator.py:52-56 | for non-negative λ and m the force never exceeds 4λ + 2m in magnitude, whatever the field value, because the value is clamped to [-1, 1] first |
| TdmSimulator.PotentialDerivativeOfNegation | core/tdm_simulator.py:52-56 | the force is odd in the field value |
| TdmSimulator.PotentialDerivativeSaturates | core/tdm_simulator.py:55 | above 1 (below -1) the force equals its value at 1 (-1) |
| TdmSimulator.DefaultForceBound | core/tdm_simulator.py:3 | with the default couplings (m = 0.1, λ = 0.05) the extents are valid and the force never exceeds 0.4 in magnitude |
| TdmSimulator.Update | core/tdm_simulator.py:70 | the unclamped update `τ + α□τ - βV'`; with no d'Alembertian and no force the value is kept |
| TdmSimulator.StepValue | core/tdm_simulator.py:70-73 | every new value lies in [-10, 10] |
| TdmSimulator.StepValueAtRest | core/tdm_simulator.py:64-73 | a point at 0 with no d'Alembertian stays at 0 |
| TdmSimulator.StepValueOfNegation | core/tdm_simulator.py:64-73 | the step commutes with negating the value and its d'Alembertian |
| TdmSimulator.Interior | core/tdm_simulator.py:60-62 | the points the spatial loops visit: 1 to X-2, 1 to Y-2 and 1 to Z-2 |
| TdmSimulator.Field | core/tdm_simulator.py:59-73 | every value from slice 1 on lies in [-10, 10] |
| TdmSimulator.FieldOfReflection | core/tdm_simulator.py:21-75 | negating the initial fluctuation negates the whole field |
| TdmSimulator.FieldAtRest | core/tdm_simulator.py:21-75 | a field that starts at 0 everywhere stays at 0 everywhere |
| TdmSimulator.SliceOneIsZero | core/tdm_simulator.py:59-73 | the loop writes only slices 2 and later, so slice 1 keeps the zeros it was allocated with |
| TdmSimulator.Put | core/tdm_simulator.py:73 | the assignment `tau[t+1, x, y, z] = v` changes exactly that point and keeps every other point and every extent |
| TdmSimulator.ZeroSlice | core/tdm_simulator.py:21 | one slice of the `np.zeros` allocation: it has the extents X × Y × Z and holds 0 everywhere |
| TdmSimulator.StencilAt | core/tdm_simulator.py:34-47 | the nine grid values `dAlembertian` reads at an interior point; `StencilAtIsReference` and `WriteElsewhereIsInvisible` state what they are and what they do not depend on |
| TdmSimulator.NextReadIsUnwritten | core/tdm_simulator.py:34 | while the loops are at (x, y, z), the value `tau[t+1, x, y, z]` the d'Alembertian reads has not been written and is still 0 |
| TdmSimulator.WriteElsewhereIsInvisible | core/tdm_simulator.py:34-47 | writing any other point of slice t+1 leaves the stencil read at (x, y, z) unchanged, so the order in which a slice is swept does not matter |
| TdmSimulator.StencilAtIsReference | core/tdm_simulator.py:34-47 | when slices t-1 and t hold the reference field and the point one slice ahead is unwritten, the nine values read are the reference stencil, with 0 one slice ahead |
| TdmSimulator.StepPoint | core/tdm_simulator.py:64-73 | the value computed at an interior point from the partly written grid is the reference field one slice ahead |
| TdmSimulator.StepRow | core/tdm_simulator.py:62-73 | the z loop writes points (x, y, 1) to (x, y, Z-2) of slice t+1 in place, moving the written region from before (x, y, 1) to before (x, y+1, 1), and changes no other slice |
| TdmSimulator.StepPlane | core/tdm_simulator.py:61-73 | the y loop moves the written region from before (x, 1, 1) to before (x+1, 1, 1) and changes no other slice |
| TdmSimulator.StepSlice | core/tdm_simulator.py:60-73 | the x loop turns the zero slice t+1 into the reference field's slice t+1 and changes no other slice |
| TdmSimulator.SimulateTdmField4D | core/tdm_simulator.py:3-75 | fails with NegativeExtent iff an extent is negative, and with NoInitialSlice iff T = 0; otherwise returns T slices, each equal to the reference field's slice |

## Left out

- The random initial fluctuation is not modelled. `np.random.normal(0, 1e-4, (X, Y, Z))` becomes the parameter `init` of the stepper, and any fluctuation is allowed.
- Floating point is not modelled. All arithmetic is on exact reals, so rounding, overflow and `dt**2` being inexact are out of scope.
- `np.std`'s square root is not computed. The adaptive encoder takes the two standard deviations as parameters, and its precondition says they are the population standard deviations: non-negative, with square equal to the variance.
- CosmologyMatcher.ParseClOfConstant: assumes non-negative factors. The stronger fact "a zero-variance sample has standard deviation 0" would make the factors irrelevant, but the solver cannot conclude `sd = 0` from `sd >= 0` and `sd * sd = 0` here, so that step is left unproved.
- CosmologyMatcher.ParseClToTauSymbols: its contract states Disc and None directly. Rising and Falling follow from `Symbols.Classify` through `ParseClMatchesFixedThresholds`.
- Symbol lists holding values other than the four symbols and `None` are not modelled as comparator input, since the encoders produce no such values.
- Spectrum retrieval (`download_planck_if_needed`, `load_planck_spectrum` and its synthetic fallback), the NASA data fetchers and the Streamlit page are I/O and presentation, not part of the numerical core.
