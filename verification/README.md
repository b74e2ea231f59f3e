# Histogram localization on a cyclic grid

This project models the discrete Bayes (histogram) filter in
`src/lesson_1_assignment/localization.py`. The filter tracks a robot on a
rectangular map of coloured cells whose edges wrap around, like a torus.
The belief is a grid of probabilities, one per cell.

- `localize` starts from the uniform belief. It pairs the motions with the
  measurements position by position and, for each pair, first predicts
  the motion (`move`) and then corrects by the measurement (`sense`).
- `move` mixes two grids. With probability `prob_move` the motion succeeds
  and each cell takes the mass of the cell the motion carries into it, the
  index wrapped by Python's floor modulo. Otherwise the robot stays put.
- `sense` weights each cell by `prob_sensor_correct` when its colour
  matches the measurement, and by `1 - prob_sensor_correct` when it does
  not. It then divides every cell by the total.

The Dafny files:

- `grid.dfy` (module `Grid`) holds the grid vocabulary:
  - `Wrap`, the floor modulo, which agrees with Dafny's Euclidean `%`
    because the divisor is positive;
  - cyclic rotation and shift;
  - row and grid sums, with the sum facts the proofs need.
- `filter.dfy` (module `Filter`) defines each step of the filter as a pure
  function: `Moved`, `Weighted`, `Sensed`, `Uniform`, `Zip`, `Step`,
  `Run` and `Localized`. It also defines the motion constants, each a
  `(dy, dx)` pair as in the source:
  - `Stay` is `(0, 0)` (line 47);
  - `Right` is `(0, 1)` (line 48);
  - `Left` is `(0, -1)` (line 49);
  - `Down` is `(1, 0)` (line 50);
  - `Up` is `(-1, 0)` (line 51).
- `filter_facts.dfy` (module `FilterFacts`) proves the probability facts:
  - mass preservation and non-negativity;
  - normalisation;
  - how a point mass moves, and that, with certain motion, opposite motions cancel;
  - a perfect sensor that sees a colour found in one cell only pinpoints that cell;
  - with both probabilities in `[0, 1]`, every run keeps a distribution;
  - a noisy sensor with `prob_move` in `[0, 1]` never divides by zero.
- `localization.dfy` (module `Localization`) holds the three procedures as
  methods. `Move` and `Sense` use nested loops that build the result grid
  cell by cell, as the source does. `Localize` starts from the uniform
  grid and loops once over the paired steps, calling `Move` and then
  `Sense`. Each method is proved to compute its function from `Filter`.
- `regression.dfy` (module `Regression`) works the unit-test scenario of
  `src/lesson_1_assignment/tests_Localization.py` out exactly.

Probabilities are Dafny `real`s, which are exact.

The preconditions are the conditions under which the Python code runs
without raising:

- `move` needs a non-empty, rectangular grid.
- `sense` also needs the colour map to cover the grid. Its division by the
  total happens only when there is at least one cell, and the total must
  then be non-zero (`Filter.Normalisable`).
- `localize` needs a map with at least one row, because reading
  `colored_map[0]` raises otherwise. It needs at least one column, because
  `1.0 / (rows * cols)` divides by zero otherwise. Every step's normaliser
  must also be non-zero (`Filter.LocalizeDefined`).

With `0 < prob_sensor_correct < 1` and `prob_move` in `[0, 1]`,
`FilterFacts.NoisySensorLocalizeDefined` proves that this last condition
always holds. The bound on `prob_move` is needed: a `prob_move` above 1
can make a cell negative, and the weighted total can then be zero.

## Model

| member | source | states |
|---|---|---|
| Grid.Wrap | src/lesson_1_assignment/localization.py:74 | the wrapped index lies in `[0, n)` for any integer, also a negative one, and leaves an index already in range unchanged |
| Grid.WrapOneTurn | src/lesson_1_assignment/localization.py:74 | an index one step off either edge wraps to the opposite edge (`-1` goes to `n - 1`, `n` goes to `0`) |
| Grid.WrapInverse | src/lesson_1_assignment/localization.py:74 | the cell read for target `r` under displacement `d` is `r0` exactly when moving `r0` by `d` lands on `r`, so the shift is a bijection on indices |
| Grid.SumRotate | src/lesson_1_assignment/localization.py:74 | cyclically rotating a row by any offset keeps its sum |
| Grid.GridSumShifted | src/lesson_1_assignment/localization.py:74 | shifting the whole grid cyclically by any motion keeps its total |
| Filter.Moved | src/lesson_1_assignment/localization.py:68-77 | the predicted grid has the input grid's number of rows and columns |
| Filter.Likelihood | src/lesson_1_assignment/localization.py:86-90 | with `prob_sensor_correct` in `[0, 1]`, the likelihood of a measurement in a cell lies in `[0, 1]` |
| Filter.Weighted | src/lesson_1_assignment/localization.py:84-91 | the weighted grid keeps the shape of the belief |
| Filter.Sensed | src/lesson_1_assignment/localization.py:80-96 | the corrected grid keeps the shape of the belief |
| Filter.Uniform | src/lesson_1_assignment/localization.py:56-59 | the prior has exactly `rows` rows of `cols` cells each |
| Filter.Zip | src/lesson_1_assignment/localization.py:61 | the number of steps taken is the shorter of the two lengths |
| Filter.Step | src/lesson_1_assignment/localization.py:62-63 | one move-then-sense step keeps the grid's shape |
| Filter.Run | src/lesson_1_assignment/localization.py:61-63 | any number of steps keeps the grid's shape |
| Filter.Prior | src/lesson_1_assignment/localization.py:55-59 | the prior has the colour map's dimensions |
| Filter.Localized | src/lesson_1_assignment/localization.py:54-65 | the result has the colour map's dimensions |
| FilterFacts.MovedIsMix | src/lesson_1_assignment/localization.py:74-76 | the prediction is the convex mix, weight `prob_move`, of the cyclically shifted grid and the grid itself |
| FilterFacts.MovedPreservesMass | src/lesson_1_assignment/localization.py:68-77 | the total of the predicted grid equals the total of the input, for every `prob_move` and every motion |
| FilterFacts.MovedKeepsNonNegative | src/lesson_1_assignment/localization.py:74-76 | with `0 <= prob_move <= 1`, a non-negative grid stays non-negative |
| FilterFacts.MovedStay | src/lesson_1_assignment/localization.py:47 | moving by `STAY` returns the grid unchanged, whatever `prob_move` is |
| FilterFacts.MovedPointMassAt | src/lesson_1_assignment/localization.py:74 | with a certain motion, a cell of a moved point mass is 1 exactly when the motion carries the mass's cell onto it, and 0 otherwise |
| FilterFacts.MovedPointMass | src/lesson_1_assignment/localization.py:68-77 | a certain motion carries all the mass from `(r0, c0)` to `((r0 + dy) mod rows, (c0 + dx) mod cols)` |
| FilterFacts.MovedRightWrapsAround | src/lesson_1_assignment/localization.py:48 | a certain `RIGHT` move from the last column puts the mass in the first column of the same row |
| FilterFacts.MovedThereAndBack | src/lesson_1_assignment/localization.py:74 | with a certain motion, moving by `(dy, dx)` and then by `(-dy, -dx)` returns every grid unchanged |
| FilterFacts.OppositeMotionsCancel | src/lesson_1_assignment/localization.py:47-51 | with a certain motion, `LEFT` undoes `RIGHT`, `RIGHT` undoes `LEFT`, `UP` undoes `DOWN` and `DOWN` undoes `UP` |
| FilterFacts.PointMassIsDistribution | src/lesson_1_assignment/localization.py:68-77 | the point masses that `MovedPointMass` moves are probability distributions |
| FilterFacts.SensedNormalises | src/lesson_1_assignment/localization.py:92-95 | on a grid with at least one cell and a non-zero weighted total, the corrected grid sums to exactly 1 |
| FilterFacts.LikelihoodsComplement | src/lesson_1_assignment/localization.py:86-90 | for a cell, the likelihood of reporting its true colour and that of reporting a given other colour add up to 1 |
| FilterFacts.PerfectSensorPinpoints | src/lesson_1_assignment/localization.py:80-96 | with `prob_sensor_correct = 1`, a measurement that matches one cell only, which has some mass, is normalisable and yields the point mass on that cell |
| FilterFacts.CertainStepPinpoints | src/lesson_1_assignment/localization.py:54-63 | with certain motion and certain sensing, one `STAY` step from the uniform prior that sees a colour found in one cell only puts all the mass on that cell |
| FilterFacts.WeightedKeepsNonNegative | src/lesson_1_assignment/localization.py:86-91 | weighting a non-negative grid by likelihoods taken from `prob_sensor_correct` in `[0, 1]` keeps every cell non-negative |
| FilterFacts.SensedKeepsNonNegative | src/lesson_1_assignment/localization.py:80-96 | with `prob_sensor_correct` in `[0, 1]`, the corrected grid of a non-negative belief is non-negative |
| FilterFacts.NoisySensorNormalisable | src/lesson_1_assignment/localization.py:92 | with `0 < prob_sensor_correct < 1`, the normaliser of a distribution is strictly positive, so the division cannot fail |
| FilterFacts.UniformIsDistribution | src/lesson_1_assignment/localization.py:58-59 | the prior of `1 / (rows * cols)` per cell is non-negative and sums to 1 |
| FilterFacts.StepKeepsDistribution | src/lesson_1_assignment/localization.py:62-63 | with both probabilities in `[0, 1]`, one defined move followed by one sense maps a distribution to a distribution |
| FilterFacts.ZipIgnoresUnpaired | src/lesson_1_assignment/localization.py:61 | motions beyond the last measurement, and measurements beyond the last motion, do not change the steps taken |
| FilterFacts.RunKeepsDistribution | src/lesson_1_assignment/localization.py:61-63 | with both probabilities in `[0, 1]`, every defined run from a distribution ends in a distribution |
| FilterFacts.NoisySensorRunDefined | src/lesson_1_assignment/localization.py:61-63 | with a noisy sensor and `prob_move` in `[0, 1]`, every step of every run from a distribution has a non-zero normaliser |
| FilterFacts.LocalizedIsDistribution | src/lesson_1_assignment/localization.py:54-65 | with both probabilities in `[0, 1]`, the result of localization is non-negative and sums to 1 |
| FilterFacts.NoisySensorLocalizeDefined | src/lesson_1_assignment/localization.py:54-65 | with a noisy sensor and `prob_move` in `[0, 1]`, localization runs on every non-empty rectangular map and on any motions and measurements |
| Localization.Move | src/lesson_1_assignment/localization.py:68-77 | the nested loops return exactly `Filter.Moved`, so the method inherits the shape, cell formula, mass preservation and `STAY` facts |
| Localization.Sense | src/lesson_1_assignment/localization.py:80-96 | the weighting pass followed by the dividing pass returns exactly `Filter.Sensed`, normalised to 1 by `SensedNormalises` |
| Localization.Localize | src/lesson_1_assignment/localization.py:54-65 | the result is the move-then-sense run over the zipped pairs from the uniform prior. It has the colour map's dimensions. It is the uniform grid when either list is empty, and a probability distribution when both probabilities lie in `[0, 1]` |
| Regression.FirstStep | src/lesson_1_assignment/tests_Localization.py:9-15 | staying and sensing red on the test map gives 1/15 everywhere except 4/15 on the two red cells |
| Regression.SecondStep | src/lesson_1_assignment/tests_Localization.py:9-15 | then moving right and sensing red gives 1/30 in the outer rows and 2/15, 2/15, 8/15 in the middle row |
| Regression.TestLocalize | src/lesson_1_assignment/tests_Localization.py:9-21 | localization is defined on the unit test's inputs and returns its expected grid exactly: 1/30 in the outer rows and 2/15, 2/15, 8/15 in the middle row |

## Left out

- `show` and `main` are left out. They format and print a grid. `main` runs a demonstration on a map of 4 rows and 5 columns. Its expected output is given in a comment, only to within 0.001 per cell. That scenario is not proved here.
- Floating point is not modelled. Probabilities are exact reals, so the model has no rounding, and `Regression.TestLocalize` states the exact fractions that the unit test compares approximately.
- Regression.TestLocalize: the unit test passes when the values are close (`assert_allclose`). The lemma proves the stronger exact equality. The test harness itself is not modelled.
- The code does not reject ragged maps, mismatched lengths or a zero normaliser. It truncates mismatched lengths through `zip`, and it divides without a guard. The model follows the code: it truncates in `Filter.Zip`, and the conditions under which Python would raise become preconditions.
- Localization.Move and Localization.Sense require a rectangular grid. Python would also accept some ragged inputs, or a colour map larger than the belief, without raising. The model does not cover those cases.
- Localization.Localize and Filter.Localized require a rectangular colour map through `Filter.ValidMap`. Python's `localize` also accepts a map whose later rows are longer than its first, and reads only the first `len(colored_map[0])` columns of each row. When `motions` or `measurements` is empty, no step runs and no colour is read, so it also accepts a map whose later rows are shorter than its first and returns the uniform grid. The model does not cover such maps.
- Motions are pairs of integers (`Filter.Motion`). Python accepts any indexable value whose first two entries are integers.
- Colours and measurements are strings compared for equality. Python compares any values.
