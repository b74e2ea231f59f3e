/** What the filter promises: the prediction step moves mass without
    creating or losing any, the correction step normalises, both keep the
    belief non-negative, and so every run from the uniform prior ends in a
    probability distribution. */
module FilterFacts {
  import opened Grid
  import opened Filter

  /** The prediction step mixes the cyclically shifted grid (weight
      `probMove`) with the grid itself (weight `1 - probMove`). */
  lemma MovedIsMix(g: seq<seq<real>>, motion: Motion, probMove: real, r: int, c: int)
    requires Rectangular(g) && 0 <= r < |g| && 0 <= c < Cols(g)
    ensures Moved(g, motion, probMove)[r][c]
            == probMove * Shifted(g, motion.dy, motion.dx)[r][c] + (1.0 - probMove) * g[r][c]
  {
    ShiftedAt(g, motion.dy, motion.dx, r, c);
  }

  /** The prediction step preserves total mass, for every `probMove`: it
      mixes a cyclic shift of the grid, which keeps the total, with the grid
      itself. */
  lemma MovedPreservesMass(g: seq<seq<real>>, motion: Motion, probMove: real)
    requires Rectangular(g)
    ensures GridSum(Moved(g, motion, probMove)) == GridSum(g)
  {
    var h, shifted := Moved(g, motion, probMove), Shifted(g, motion.dy, motion.dx);
    forall r, c | 0 <= r < |h| && 0 <= c < |h[r]|
      ensures h[r][c] == probMove * shifted[r][c] + (1.0 - probMove) * g[r][c]
    {
      MovedIsMix(g, motion, probMove, r, c);
    }
    GridSumShifted(g, motion.dy, motion.dx);
    GridSumCombine(shifted, g, h, probMove, 1.0 - probMove);
  }

  /** With `0 <= probMove <= 1` the prediction step keeps every cell non-negative. */
  lemma MovedKeepsNonNegative(g: seq<seq<real>>, motion: Motion, probMove: real)
    requires Rectangular(g) && NonNegative(g) && 0.0 <= probMove <= 1.0
    ensures NonNegative(Moved(g, motion, probMove))
  {
    var h := Moved(g, motion, probMove);
    forall r, c | 0 <= r < |h| && 0 <= c < |h[r]|
      ensures 0.0 <= h[r][c]
    {
      var from := g[Wrap(r - motion.dy, |g|)][Wrap(c - motion.dx, Cols(g))];
      assert 0.0 <= probMove * from;
      assert 0.0 <= (1.0 - probMove) * g[r][c];
    }
  }

  /** Standing still leaves the belief unchanged, whatever `probMove` is. */
  lemma MovedStay(g: seq<seq<real>>, probMove: real)
    requires Rectangular(g)
    ensures Moved(g, Stay, probMove) == g
  {
    var h := Moved(g, Stay, probMove);
    forall r | 0 <= r < |g|
      ensures h[r] == g[r]
    {
      forall c | 0 <= c < |g[r]|
        ensures h[r][c] == g[r][c]
      {
        assert Wrap(r - Stay.dy, |g|) == r && Wrap(c - Stay.dx, Cols(g)) == c;
        assert h[r][c] == probMove * g[r][c] + (1.0 - probMove) * g[r][c];
      }
    }
  }

  /** All the mass on the one cell `(r0, c0)`. */
  function PointMass(rows: nat, cols: nat, r0: nat, c0: nat): (g: seq<seq<real>>)
    requires r0 < rows && c0 < cols
    ensures Rectangular(g) && |g| == rows && Cols(g) == cols
  {
    seq(rows, r requires 0 <= r < rows =>
      seq(cols, c requires 0 <= c < cols => if r == r0 && c == c0 then 1.0 else 0.0))
  }

  /** A point mass is a probability distribution. */
  lemma PointMassIsDistribution(rows: nat, cols: nat, r0: nat, c0: nat)
    requires r0 < rows && c0 < cols
    ensures Distribution(PointMass(rows, cols, r0, c0))
  {
    OneHotGridSum(PointMass(rows, cols, r0, c0), r0, c0, 1.0);
  }

  /** A sequence that is `v` at position `k` and 0 elsewhere sums to `v`
      (to 0 when `k` is not a position). */
  lemma {:induction false} SumOneHot(s: seq<real>, k: int, v: real)
    requires forall i :: 0 <= i < |s| ==> s[i] == if i == k then v else 0.0
    ensures Sum(s) == if 0 <= k < |s| then v else 0.0
  {
    if s != [] {
      SumOneHot(s[..|s| - 1], k, v);
    }
  }

  /** A grid that is `v` at `(r0, c0)` and 0 elsewhere sums to `v`. */
  lemma OneHotGridSum(g: seq<seq<real>>, r0: nat, c0: nat, v: real)
    requires Rectangular(g) && r0 < |g| && c0 < Cols(g)
    requires forall r, c :: 0 <= r < |g| && 0 <= c < |g[r]| ==>
               g[r][c] == if r == r0 && c == c0 then v else 0.0
    ensures GridSum(g) == v
  {
    var sums := RowSums(g);
    forall r | 0 <= r < |g|
      ensures sums[r] == if r == r0 then v else 0.0
    {
      SumOneHot(g[r], if r == r0 then c0 else -1, v);
    }
    SumOneHot(sums, r0, v);
  }

  /** With a certain motion, cell `(r, c)` of a moved point mass holds 1
      exactly when the motion carries the mass's cell `(r0, c0)` onto it. */
  lemma MovedPointMassAt(rows: nat, cols: nat, r0: nat, c0: nat, motion: Motion, r: int, c: int)
    requires r0 < rows && c0 < cols && 0 <= r < rows && 0 <= c < cols
    ensures Moved(PointMass(rows, cols, r0, c0), motion, 1.0)[r][c]
            == if r == Wrap(r0 + motion.dy, rows) && c == Wrap(c0 + motion.dx, cols) then 1.0 else 0.0
  {
    var g := PointMass(rows, cols, r0, c0);
    var wr, wc := Wrap(r - motion.dy, rows), Wrap(c - motion.dx, cols);
    MovedAt(g, motion, 1.0, r, c);
    assert Moved(g, motion, 1.0)[r][c] == g[wr][wc];
    assert g[wr][wc] == if wr == r0 && wc == c0 then 1.0 else 0.0;
    WrapInverse(r, motion.dy, rows, r0);
    WrapInverse(c, motion.dx, cols, c0);
  }

  /** A certain motion (`probMove == 1`) carries a point mass to the cell
      the motion leads to, wrapping around the edges. */
  lemma MovedPointMass(rows: nat, cols: nat, r0: nat, c0: nat, motion: Motion)
    requires r0 < rows && c0 < cols
    ensures Moved(PointMass(rows, cols, r0, c0), motion, 1.0)
            == PointMass(rows, cols, Wrap(r0 + motion.dy, rows), Wrap(c0 + motion.dx, cols))
  {
    var h := Moved(PointMass(rows, cols, r0, c0), motion, 1.0);
    var want := PointMass(rows, cols, Wrap(r0 + motion.dy, rows), Wrap(c0 + motion.dx, cols));
    forall r | 0 <= r < rows
      ensures h[r] == want[r]
    {
      forall c | 0 <= c < cols
        ensures h[r][c] == want[r][c]
      {
        MovedPointMassAt(rows, cols, r0, c0, motion, r, c);
      }
    }
  }

  /** Moving right from the last column re-enters at the first column. */
  lemma MovedRightWrapsAround(rows: nat, cols: nat, r0: nat)
    requires r0 < rows && 0 < cols
    ensures Moved(PointMass(rows, cols, r0, cols - 1), Right, 1.0) == PointMass(rows, cols, r0, 0)
  {
    MovedPointMass(rows, cols, r0, cols - 1, Right);
    WrapOneTurn(cols - 1 + Right.dx, cols);
  }

  /** A certain motion followed by its opposite puts every cell back where
      it was. */
  lemma MovedThereAndBack(g: seq<seq<real>>, motion: Motion, opposite: Motion)
    requires Rectangular(g) && opposite == Motion(-motion.dy, -motion.dx)
    ensures Moved(Moved(g, motion, 1.0), opposite, 1.0) == g
  {
    var rows, cols := |g|, Cols(g);
    var h := Moved(g, motion, 1.0);
    var back := Moved(h, opposite, 1.0);
    forall r | 0 <= r < rows
      ensures back[r] == g[r]
    {
      forall c | 0 <= c < cols
        ensures back[r][c] == g[r][c]
      {
        var r1, c1 := Wrap(r + motion.dy, rows), Wrap(c + motion.dx, cols);
        assert back[r][c] == 1.0 * h[r1][c1] + 0.0 * h[r][c];
        WrapInverse(r1, motion.dy, rows, r);
        WrapInverse(c1, motion.dx, cols, c);
        assert h[r1][c1] == 1.0 * g[r][c] + 0.0 * g[r1][c1];
      }
    }
  }

  /** The motion constants come in opposite pairs: with certain motion,
      LEFT undoes RIGHT, UP undoes DOWN, and the other way round. */
  lemma OppositeMotionsCancel(g: seq<seq<real>>)
    requires Rectangular(g)
    ensures Moved(Moved(g, Right, 1.0), Left, 1.0) == g
    ensures Moved(Moved(g, Left, 1.0), Right, 1.0) == g
    ensures Moved(Moved(g, Down, 1.0), Up, 1.0) == g
    ensures Moved(Moved(g, Up, 1.0), Down, 1.0) == g
  {
    MovedThereAndBack(g, Right, Left);
    MovedThereAndBack(g, Left, Right);
    MovedThereAndBack(g, Down, Up);
    MovedThereAndBack(g, Up, Down);
  }

  /** After the correction step the belief sums to 1. */
  lemma SensedNormalises(g: seq<seq<real>>, coloredMap: seq<seq<Color>>, measurement: Color,
                         probSensorCorrect: real)
    requires Rectangular(g) && SameShape(coloredMap, g) && Cols(g) > 0
    requires GridSum(Weighted(g, coloredMap, measurement, probSensorCorrect)) != 0.0
    ensures GridSum(Sensed(g, coloredMap, measurement, probSensorCorrect)) == 1.0
  {
    var w := Weighted(g, coloredMap, measurement, probSensorCorrect);
    var s := GridSum(w);
    var h := Sensed(g, coloredMap, measurement, probSensorCorrect);
    forall r, c | 0 <= r < |h| && 0 <= c < |h[r]|
      ensures h[r][c] == (1.0 / s) * w[r][c] + 0.0 * w[r][c]
    {
    }
    GridSumCombine(w, w, h, 1.0 / s, 0.0);
  }

  /** On a cell, the sensor reports the true colour with probability
      `probSensorCorrect` and a given wrong colour with the rest: the two
      likelihoods add up to 1. */
  lemma LikelihoodsComplement(cell: Color, other: Color, probSensorCorrect: real)
    requires other != cell
    ensures Likelihood(cell, cell, probSensorCorrect) + Likelihood(cell, other, probSensorCorrect) == 1.0
  {
  }

  /** A non-negative belief weighted by likelihoods in `[0, 1]` stays non-negative. */
  lemma WeightedKeepsNonNegative(g: seq<seq<real>>, coloredMap: seq<seq<Color>>, measurement: Color,
                                 probSensorCorrect: real)
    requires Rectangular(g) && SameShape(coloredMap, g) && NonNegative(g)
    requires 0.0 <= probSensorCorrect <= 1.0
    ensures NonNegative(Weighted(g, coloredMap, measurement, probSensorCorrect))
  {
    var w := Weighted(g, coloredMap, measurement, probSensorCorrect);
    forall r, c | 0 <= r < |w| && 0 <= c < |w[r]|
      ensures 0.0 <= w[r][c]
    {
      assert 0.0 <= g[r][c] * Likelihood(coloredMap[r][c], measurement, probSensorCorrect);
    }
  }

  /** With `0 <= probSensorCorrect <= 1` the correction step keeps every cell non-negative. */
  lemma SensedKeepsNonNegative(g: seq<seq<real>>, coloredMap: seq<seq<Color>>, measurement: Color,
                               probSensorCorrect: real)
    requires Rectangular(g) && SameShape(coloredMap, g) && NonNegative(g)
    requires 0.0 <= probSensorCorrect <= 1.0
    requires Normalisable(Weighted(g, coloredMap, measurement, probSensorCorrect))
    ensures NonNegative(Sensed(g, coloredMap, measurement, probSensorCorrect))
  {
    var w := Weighted(g, coloredMap, measurement, probSensorCorrect);
    WeightedKeepsNonNegative(g, coloredMap, measurement, probSensorCorrect);
    GridSumNonNegative(w);
    var h := Sensed(g, coloredMap, measurement, probSensorCorrect);
    forall r, c | 0 <= r < |h| && 0 <= c < |h[r]|
      ensures 0.0 <= h[r][c]
    {
      assert h[r][c] == w[r][c] / GridSum(w);
    }
  }

  /** With a sensor that is neither always right nor always wrong, every
      cell keeps a share of at least `min(p, 1 - p)` of its mass, so a
      distribution never has a zero normaliser. */
  lemma NoisySensorNormalisable(g: seq<seq<real>>, coloredMap: seq<seq<Color>>, measurement: Color,
                                probSensorCorrect: real)
    requires Rectangular(g) && SameShape(coloredMap, g) && Distribution(g)
    requires 0.0 < probSensorCorrect < 1.0
    ensures GridSum(Weighted(g, coloredMap, measurement, probSensorCorrect)) > 0.0
  {
    var w := Weighted(g, coloredMap, measurement, probSensorCorrect);
    var least := if probSensorCorrect <= 0.5 then probSensorCorrect else 1.0 - probSensorCorrect;
    forall r, c | 0 <= r < |w| && 0 <= c < |w[r]|
      ensures w[r][c] >= least * g[r][c]
    {
      var p := Likelihood(coloredMap[r][c], measurement, probSensorCorrect);
      assert w[r][c] == g[r][c] * p;
      var x, d := g[r][c], p - least;
      assert 0.0 <= x && 0.0 <= d;
      assert 0.0 <= x * d;
      assert x * p == least * x + x * d;
    }
    GridSumAtLeast(g, w, least);
  }

  /** With a perfect sensor whose measurement matches cell `(r0, c0)` only,
      the weighted grid keeps that cell's mass and is 0 elsewhere. */
  lemma PerfectSensorWeightedAt(g: seq<seq<real>>, coloredMap: seq<seq<Color>>, measurement: Color,
                                r0: nat, c0: nat, r: int, c: int)
    requires Rectangular(g) && SameShape(coloredMap, g)
    requires r0 < |g| && c0 < Cols(g) && 0 <= r < |g| && 0 <= c < Cols(g)
    requires coloredMap[r][c] == measurement <==> r == r0 && c == c0
    ensures Weighted(g, coloredMap, measurement, 1.0)[r][c]
            == if r == r0 && c == c0 then g[r0][c0] else 0.0
  {
    assert Weighted(g, coloredMap, measurement, 1.0)[r][c]
           == g[r][c] * Likelihood(coloredMap[r][c], measurement, 1.0);
  }

  /** With a perfect sensor whose measurement matches cell `(r0, c0)` only,
      the weighted total is the mass that cell had. */
  lemma PerfectSensorWeightedSum(g: seq<seq<real>>, coloredMap: seq<seq<Color>>, measurement: Color,
                                 r0: nat, c0: nat)
    requires Rectangular(g) && SameShape(coloredMap, g) && r0 < |g| && c0 < Cols(g)
    requires forall r, c :: 0 <= r < |g| && 0 <= c < Cols(g) ==>
               (coloredMap[r][c] == measurement <==> r == r0 && c == c0)
    ensures GridSum(Weighted(g, coloredMap, measurement, 1.0)) == g[r0][c0]
  {
    var w := Weighted(g, coloredMap, measurement, 1.0);
    forall r, c | 0 <= r < |w| && 0 <= c < |w[r]|
      ensures w[r][c] == if r == r0 && c == c0 then g[r0][c0] else 0.0
    {
      PerfectSensorWeightedAt(g, coloredMap, measurement, r0, c0, r, c);
    }
    OneHotGridSum(w, r0, c0, g[r0][c0]);
  }

  /** Cell `(r, c)` of the perfect sensor's correction is the point mass at
      `(r0, c0)`, once the weighted total is known to be that cell's mass. */
  lemma PerfectSensorSensedAt(g: seq<seq<real>>, coloredMap: seq<seq<Color>>, measurement: Color,
                              r0: nat, c0: nat, r: int, c: int)
    requires Rectangular(g) && SameShape(coloredMap, g)
    requires r0 < |g| && c0 < Cols(g) && 0 <= r < |g| && 0 <= c < Cols(g)
    requires coloredMap[r][c] == measurement <==> r == r0 && c == c0
    requires GridSum(Weighted(g, coloredMap, measurement, 1.0)) == g[r0][c0] > 0.0
    ensures Sensed(g, coloredMap, measurement, 1.0)[r][c] == PointMass(|g|, Cols(g), r0, c0)[r][c]
  {
    var w := Weighted(g, coloredMap, measurement, 1.0);
    var m := g[r0][c0];
    PerfectSensorWeightedAt(g, coloredMap, measurement, r0, c0, r, c);
    assert Sensed(g, coloredMap, measurement, 1.0)[r][c] == w[r][c] / m;
    if r == r0 && c == c0 {
      assert w[r][c] == m;
    } else {
      assert w[r][c] == 0.0;
    }
  }

  /** A perfect sensor (`probSensorCorrect == 1`) whose measurement matches
      the colour of one cell only puts all the mass on that cell, provided
      the belief gave that cell some mass. */
  lemma PerfectSensorPinpoints(g: seq<seq<real>>, coloredMap: seq<seq<Color>>, measurement: Color,
                               r0: nat, c0: nat)
    requires Rectangular(g) && SameShape(coloredMap, g)
    requires r0 < |g| && c0 < Cols(g) && g[r0][c0] > 0.0
    requires forall r, c :: 0 <= r < |g| && 0 <= c < Cols(g) ==>
               (coloredMap[r][c] == measurement <==> r == r0 && c == c0)
    ensures Normalisable(Weighted(g, coloredMap, measurement, 1.0))
    ensures Sensed(g, coloredMap, measurement, 1.0) == PointMass(|g|, Cols(g), r0, c0)
  {
    PerfectSensorWeightedSum(g, coloredMap, measurement, r0, c0);
    var h := Sensed(g, coloredMap, measurement, 1.0);
    var pm := PointMass(|g|, Cols(g), r0, c0);
    forall r | 0 <= r < |g|
      ensures h[r] == pm[r]
    {
      forall c | 0 <= c < Cols(g)
        ensures h[r][c] == pm[r][c]
      {
        PerfectSensorSensedAt(g, coloredMap, measurement, r0, c0, r, c);
      }
    }
  }

  /** Certain motion and certain sensing: from the uniform prior, one step
      that stays put and then sees a colour found in one cell only puts all
      the mass on that cell. */
  lemma CertainStepPinpoints(coloredMap: seq<seq<Color>>, measurement: Color, r0: nat, c0: nat)
    requires Rectangular(coloredMap) && r0 < |coloredMap| && c0 < Cols(coloredMap)
    requires forall r, c :: 0 <= r < |coloredMap| && 0 <= c < Cols(coloredMap) ==>
               (coloredMap[r][c] == measurement <==> r == r0 && c == c0)
    ensures StepDefined(Prior(coloredMap), coloredMap, (Stay, measurement), 1.0, 1.0)
    ensures Step(Prior(coloredMap), coloredMap, (Stay, measurement), 1.0, 1.0)
            == PointMass(|coloredMap|, Cols(coloredMap), r0, c0)
  {
    var prior := Prior(coloredMap);
    MovedStay(prior, 1.0);
    var n := |coloredMap| as real * Cols(coloredMap) as real;
    assert n > 0.0;
    assert prior[r0][c0] == 1.0 / n > 0.0;
    PerfectSensorPinpoints(prior, coloredMap, measurement, r0, c0);
  }

  /** The uniform prior is a probability distribution. */
  lemma UniformIsDistribution(rows: nat, cols: nat)
    requires rows > 0 && cols > 0
    ensures Distribution(Uniform(rows, cols))
  {
    var g := Uniform(rows, cols);
    var n := rows as real * cols as real;
    var p := 1.0 / n;
    assert n > 0.0 && n * p == 1.0;
    forall r | 0 <= r < rows
      ensures RowSums(g)[r] == cols as real * p
    {
      SumConst(g[r], p);
    }
    SumConst(RowSums(g), cols as real * p);
    assert rows as real * (cols as real * p) == n * p;
  }

  /** One filter step maps a distribution to a distribution. */
  lemma StepKeepsDistribution(g: seq<seq<real>>, coloredMap: seq<seq<Color>>, step: (Motion, Color),
                              probSensorCorrect: real, probMove: real)
    requires Rectangular(g) && SameShape(coloredMap, g) && Cols(g) > 0 && Distribution(g)
    requires 0.0 <= probSensorCorrect <= 1.0 && 0.0 <= probMove <= 1.0
    requires StepDefined(g, coloredMap, step, probSensorCorrect, probMove)
    ensures Distribution(Step(g, coloredMap, step, probSensorCorrect, probMove))
  {
    var moved := Moved(g, step.0, probMove);
    MovedKeepsNonNegative(g, step.0, probMove);
    SensedKeepsNonNegative(moved, coloredMap, step.1, probSensorCorrect);
    SensedNormalises(moved, coloredMap, step.1, probSensorCorrect);
  }

  /** Pairing stops at the shorter sequence: motions beyond the last
      measurement, and measurements beyond the last motion, are never used. */
  lemma ZipIgnoresUnpaired(motions: seq<Motion>, measurements: seq<Color>,
                           extraMotions: seq<Motion>, extraMeasurements: seq<Color>)
    ensures |measurements| <= |motions| ==>
              Zip(motions + extraMotions, measurements) == Zip(motions, measurements)
    ensures |motions| <= |measurements| ==>
              Zip(motions, measurements + extraMeasurements) == Zip(motions, measurements)
  {
  }

  /** If a run can be taken to its end, every shorter part of it can be taken. */
  lemma {:induction false} RunDefinedPrefix(init: seq<seq<real>>, coloredMap: seq<seq<Color>>,
                                            steps: seq<(Motion, Color)>, k: nat,
                                            probSensorCorrect: real, probMove: real)
    requires Rectangular(init) && SameShape(coloredMap, init) && k <= |steps|
    requires RunDefined(init, coloredMap, steps, probSensorCorrect, probMove)
    ensures RunDefined(init, coloredMap, steps[..k], probSensorCorrect, probMove)
  {
    if k < |steps| {
      var before := steps[..|steps| - 1];
      RunDefinedPrefix(init, coloredMap, before, k, probSensorCorrect, probMove);
      assert before[..k] == steps[..k];
    } else {
      assert steps[..k] == steps;
    }
  }

  /** The run over the first `i + 1` steps is the run over the first `i`
      followed by step `i`. */
  lemma RunExtend(init: seq<seq<real>>, coloredMap: seq<seq<Color>>,
                  steps: seq<(Motion, Color)>, i: nat,
                  probSensorCorrect: real, probMove: real)
    requires Rectangular(init) && SameShape(coloredMap, init) && i < |steps|
    requires RunDefined(init, coloredMap, steps, probSensorCorrect, probMove)
    ensures RunDefined(init, coloredMap, steps[..i], probSensorCorrect, probMove)
    ensures RunDefined(init, coloredMap, steps[..i + 1], probSensorCorrect, probMove)
    ensures StepDefined(Run(init, coloredMap, steps[..i], probSensorCorrect, probMove), coloredMap,
                        steps[i], probSensorCorrect, probMove)
    ensures Run(init, coloredMap, steps[..i + 1], probSensorCorrect, probMove)
            == Step(Run(init, coloredMap, steps[..i], probSensorCorrect, probMove), coloredMap,
                    steps[i], probSensorCorrect, probMove)
  {
    RunDefinedPrefix(init, coloredMap, steps, i + 1, probSensorCorrect, probMove);
    assert steps[..i + 1][..i] == steps[..i];
  }

  /** Every defined run from a distribution ends in a distribution. */
  lemma {:induction false} RunKeepsDistribution(init: seq<seq<real>>, coloredMap: seq<seq<Color>>,
                                                steps: seq<(Motion, Color)>,
                                                probSensorCorrect: real, probMove: real)
    requires Rectangular(init) && SameShape(coloredMap, init) && Cols(init) > 0 && Distribution(init)
    requires 0.0 <= probSensorCorrect <= 1.0 && 0.0 <= probMove <= 1.0
    requires RunDefined(init, coloredMap, steps, probSensorCorrect, probMove)
    ensures Distribution(Run(init, coloredMap, steps, probSensorCorrect, probMove))
  {
    if steps != [] {
      var before := steps[..|steps| - 1];
      RunKeepsDistribution(init, coloredMap, before, probSensorCorrect, probMove);
      StepKeepsDistribution(Run(init, coloredMap, before, probSensorCorrect, probMove), coloredMap,
                            steps[|steps| - 1], probSensorCorrect, probMove);
    }
  }

  /** With a noisy sensor (`0 < probSensorCorrect < 1`) and `0 <= probMove <= 1`,
      every run from a distribution is defined: the normaliser is never zero. */
  lemma {:induction false} NoisySensorRunDefined(init: seq<seq<real>>, coloredMap: seq<seq<Color>>,
                                                 steps: seq<(Motion, Color)>,
                                                 probSensorCorrect: real, probMove: real)
    requires Rectangular(init) && SameShape(coloredMap, init) && Cols(init) > 0 && Distribution(init)
    requires 0.0 < probSensorCorrect < 1.0 && 0.0 <= probMove <= 1.0
    ensures RunDefined(init, coloredMap, steps, probSensorCorrect, probMove)
  {
    if steps != [] {
      var before := steps[..|steps| - 1];
      var step := steps[|steps| - 1];
      NoisySensorRunDefined(init, coloredMap, before, probSensorCorrect, probMove);
      var g := Run(init, coloredMap, before, probSensorCorrect, probMove);
      RunKeepsDistribution(init, coloredMap, before, probSensorCorrect, probMove);
      var moved := Moved(g, step.0, probMove);
      MovedKeepsNonNegative(g, step.0, probMove);
      MovedPreservesMass(g, step.0, probMove);
      NoisySensorNormalisable(moved, coloredMap, step.1, probSensorCorrect);
    }
  }

  /** Localization returns a probability distribution whenever the two
      probabilities lie in `[0, 1]`. */
  lemma LocalizedIsDistribution(coloredMap: seq<seq<Color>>, measurements: seq<Color>, motions: seq<Motion>,
                                probSensorCorrect: real, probMove: real)
    requires LocalizeDefined(coloredMap, measurements, motions, probSensorCorrect, probMove)
    requires 0.0 <= probSensorCorrect <= 1.0 && 0.0 <= probMove <= 1.0
    ensures Distribution(Localized(coloredMap, measurements, motions, probSensorCorrect, probMove))
  {
    UniformIsDistribution(|coloredMap|, Cols(coloredMap));
    RunKeepsDistribution(Prior(coloredMap), coloredMap, Zip(motions, measurements),
                         probSensorCorrect, probMove);
  }

  /** With a noisy sensor localization is defined on every valid map and
      every pair of sequences. */
  lemma NoisySensorLocalizeDefined(coloredMap: seq<seq<Color>>, measurements: seq<Color>, motions: seq<Motion>,
                                   probSensorCorrect: real, probMove: real)
    requires ValidMap(coloredMap)
    requires 0.0 < probSensorCorrect < 1.0 && 0.0 <= probMove <= 1.0
    ensures LocalizeDefined(coloredMap, measurements, motions, probSensorCorrect, probMove)
  {
    UniformIsDistribution(|coloredMap|, Cols(coloredMap));
    NoisySensorRunDefined(Prior(coloredMap), coloredMap, Zip(motions, measurements),
                          probSensorCorrect, probMove);
  }
}
