/** The discrete Bayes histogram filter on a toroidal grid, as pure
    functions: the prediction step (Moved), the correction step (Sensed),
    the uniform prior and the whole run over paired motions and
    measurements; and the probability facts about them. The imperative
    procedures in module Localization are proved to compute these. */
module Filter {
  import opened Grid

  /** A cell colour of the map, and what the sensor reports ("R", "G", ...). */
  type Color = string

  /** The intended displacement of one step: the row delta `dy` (positive is
      downward) comes first, the column delta `dx` (positive is to the right)
      second. */
  datatype Motion = Motion(dy: int, dx: int)

  const Stay := Motion(0, 0)
  const Right := Motion(0, 1)
  const Left := Motion(0, -1)
  const Down := Motion(1, 0)
  const Up := Motion(-1, 0)

  /** A belief grid that is a probability distribution over the cells. */
  predicate Distribution(g: seq<seq<real>>)
  {
    NonNegative(g) && GridSum(g) == 1.0
  }

  /** Prediction: with probability `probMove` the motion succeeds, so a
      cell receives the mass of the cell the motion carries into it; with
      probability `1 - probMove` the robot stays and the cell keeps its own. */
  function Moved(g: seq<seq<real>>, motion: Motion, probMove: real): (h: seq<seq<real>>)
    requires Rectangular(g)
    ensures Rectangular(h) && SameShape(h, g)
  {
    var rows, cols := |g|, Cols(g);
    seq(rows, r requires 0 <= r < rows =>
      seq(cols, c requires 0 <= c < cols =>
        probMove * g[Wrap(r - motion.dy, rows)][Wrap(c - motion.dx, cols)]
        + (1.0 - probMove) * g[r][c]))
  }

  /** Cell `(r, c)` of the predicted grid. */
  lemma MovedAt(g: seq<seq<real>>, motion: Motion, probMove: real, r: int, c: int)
    requires Rectangular(g) && 0 <= r < |g| && 0 <= c < Cols(g)
    ensures Moved(g, motion, probMove)[r][c]
            == probMove * g[Wrap(r - motion.dy, |g|)][Wrap(c - motion.dx, Cols(g))]
               + (1.0 - probMove) * g[r][c]
  {
  }

  /** Probability of the sensor reporting `measurement` in a cell of colour `cell`. */
  function Likelihood(cell: Color, measurement: Color, probSensorCorrect: real): (l: real)
    ensures 0.0 <= probSensorCorrect <= 1.0 ==> 0.0 <= l <= 1.0
  {
    if cell == measurement then probSensorCorrect else 1.0 - probSensorCorrect
  }

  /** Correction before normalisation: every cell weighted by its likelihood. */
  function Weighted(g: seq<seq<real>>, coloredMap: seq<seq<Color>>, measurement: Color,
                    probSensorCorrect: real): (w: seq<seq<real>>)
    requires Rectangular(g) && SameShape(coloredMap, g)
    ensures Rectangular(w) && SameShape(w, g)
  {
    var rows, cols := |g|, Cols(g);
    seq(rows, r requires 0 <= r < rows =>
      seq(cols, c requires 0 <= c < cols =>
        g[r][c] * Likelihood(coloredMap[r][c], measurement, probSensorCorrect)))
  }

  /** The weighted grid can be normalised: the division by its total is
      only reached when there is a cell, and then the total is not zero. */
  predicate Normalisable(w: seq<seq<real>>)
    requires |w| > 0
  {
    Cols(w) == 0 || GridSum(w) != 0.0
  }

  /** Correction: the weighted grid divided by its total. */
  function Sensed(g: seq<seq<real>>, coloredMap: seq<seq<Color>>, measurement: Color,
                  probSensorCorrect: real): (h: seq<seq<real>>)
    requires Rectangular(g) && SameShape(coloredMap, g)
    requires Normalisable(Weighted(g, coloredMap, measurement, probSensorCorrect))
    ensures Rectangular(h) && SameShape(h, g)
  {
    var w := Weighted(g, coloredMap, measurement, probSensorCorrect);
    var s := GridSum(w);
    var rows, cols := |g|, Cols(g);
    seq(rows, r requires 0 <= r < rows =>
      seq(cols, c requires 0 <= c < cols => w[r][c] / s))
  }

  /** The uniform prior over a `rows` by `cols` grid. */
  function Uniform(rows: nat, cols: nat): (g: seq<seq<real>>)
    requires rows > 0 && cols > 0
    ensures Rectangular(g) && |g| == rows && Cols(g) == cols
  {
    var p := 1.0 / (rows as real * cols as real);
    seq(rows, _ => seq(cols, _ => p))
  }

  /** Motions and measurements paired position by position; the longer
      sequence is cut to the length of the shorter one. */
  function Zip(motions: seq<Motion>, measurements: seq<Color>): (steps: seq<(Motion, Color)>)
    ensures |steps| == if |motions| <= |measurements| then |motions| else |measurements|
  {
    var n := if |motions| <= |measurements| then |motions| else |measurements|;
    seq(n, i requires 0 <= i < n => (motions[i], measurements[i]))
  }

  /** One step of the filter can be taken from `g`: its normaliser is usable. */
  predicate StepDefined(g: seq<seq<real>>, coloredMap: seq<seq<Color>>, step: (Motion, Color),
                        probSensorCorrect: real, probMove: real)
    requires Rectangular(g) && SameShape(coloredMap, g)
  {
    Normalisable(Weighted(Moved(g, step.0, probMove), coloredMap, step.1, probSensorCorrect))
  }

  /** One step of the filter: the motion first, then the measurement. */
  function Step(g: seq<seq<real>>, coloredMap: seq<seq<Color>>, step: (Motion, Color),
                probSensorCorrect: real, probMove: real): (h: seq<seq<real>>)
    requires Rectangular(g) && SameShape(coloredMap, g)
    requires StepDefined(g, coloredMap, step, probSensorCorrect, probMove)
    ensures Rectangular(h) && SameShape(h, g)
  {
    Sensed(Moved(g, step.0, probMove), coloredMap, step.1, probSensorCorrect)
  }

  /** Every step of the run from `init` over `steps` can be taken. */
  predicate RunDefined(init: seq<seq<real>>, coloredMap: seq<seq<Color>>, steps: seq<(Motion, Color)>,
                       probSensorCorrect: real, probMove: real)
    requires Rectangular(init) && SameShape(coloredMap, init)
    decreases |steps|, 0
  {
    steps == [] ||
    (var before := steps[..|steps| - 1];
     RunDefined(init, coloredMap, before, probSensorCorrect, probMove) &&
     StepDefined(Run(init, coloredMap, before, probSensorCorrect, probMove), coloredMap,
                 steps[|steps| - 1], probSensorCorrect, probMove))
  }

  /** The belief after taking `steps` in order from `init`. */
  function Run(init: seq<seq<real>>, coloredMap: seq<seq<Color>>, steps: seq<(Motion, Color)>,
               probSensorCorrect: real, probMove: real): (g: seq<seq<real>>)
    requires Rectangular(init) && SameShape(coloredMap, init)
    requires RunDefined(init, coloredMap, steps, probSensorCorrect, probMove)
    ensures Rectangular(g) && SameShape(g, init)
    decreases |steps|, 1
  {
    if steps == [] then init
    else
      var before := steps[..|steps| - 1];
      Step(Run(init, coloredMap, before, probSensorCorrect, probMove), coloredMap,
           steps[|steps| - 1], probSensorCorrect, probMove)
  }

  /** A colour map the filter can run on: non-empty, rectangular, with at least one column. */
  predicate ValidMap(coloredMap: seq<seq<Color>>)
  {
    Rectangular(coloredMap) && Cols(coloredMap) > 0
  }

  /** The prior for a run on `coloredMap`. */
  function Prior(coloredMap: seq<seq<Color>>): (g: seq<seq<real>>)
    requires ValidMap(coloredMap)
    ensures Rectangular(g) && SameShape(coloredMap, g)
  {
    Uniform(|coloredMap|, Cols(coloredMap))
  }

  /** Localization is defined on these inputs: every step can be normalised. */
  predicate LocalizeDefined(coloredMap: seq<seq<Color>>, measurements: seq<Color>, motions: seq<Motion>,
                            probSensorCorrect: real, probMove: real)
  {
    ValidMap(coloredMap) &&
    RunDefined(Prior(coloredMap), coloredMap, Zip(motions, measurements), probSensorCorrect, probMove)
  }

  /** The belief that localization returns: the run from the uniform prior
      over the zipped motions and measurements. */
  function Localized(coloredMap: seq<seq<Color>>, measurements: seq<Color>, motions: seq<Motion>,
                     probSensorCorrect: real, probMove: real): (g: seq<seq<real>>)
    requires LocalizeDefined(coloredMap, measurements, motions, probSensorCorrect, probMove)
    ensures Rectangular(g) && SameShape(coloredMap, g)
  {
    Run(Prior(coloredMap), coloredMap, Zip(motions, measurements), probSensorCorrect, probMove)
  }
}
