/** The localization procedures as the program runs them: each update fills
    a fresh grid cell by cell in nested loops, the correction step then
    divides every cell by the total in a second pass, and localization
    replaces its belief grid once per motion and once per measurement. Each
    is proved to compute the matching function of module Filter. */
module Localization {
  import opened Grid
  import opened Filter
  import FilterFacts

  /** The prediction step. Both index expressions wrap with floor modulo,
      so every displacement, negative ones included, stays inside the grid. */
  method Move(probMap: seq<seq<real>>, motion: Motion, probMove: real) returns (filtered: seq<seq<real>>)
    requires Rectangular(probMap)
    ensures filtered == Moved(probMap, motion, probMove)
  {
    var numRows, numCols := |probMap|, |probMap[0]|;
    ghost var want := Moved(probMap, motion, probMove);
    filtered := seq(numRows, _ => seq(numCols, _ => 0.0));
    var row := 0;
    while row < numRows
      invariant 0 <= row <= numRows
      invariant |filtered| == numRows
      invariant forall r :: 0 <= r < numRows ==> |filtered[r]| == numCols
      invariant forall r :: 0 <= r < row ==> filtered[r] == want[r]
    {
      var cells := filtered[row];
      var col := 0;
      while col < numCols
        invariant 0 <= col <= numCols && |cells| == numCols
        invariant forall c :: 0 <= c < col ==> cells[c] == want[row][c]
      {
        var successful := probMove * probMap[Wrap(row - motion.dy, numRows)][Wrap(col - motion.dx, numCols)];
        var notSuccessful := (1.0 - probMove) * probMap[row][col];
        MovedAt(probMap, motion, probMove, row, col);
        assert successful + notSuccessful == want[row][col];
        cells := cells[col := successful + notSuccessful];
        col := col + 1;
      }
      filtered := filtered[row := cells];
      row := row + 1;
    }
  }

  /** The correction step: weight every cell by the likelihood of the
      measurement there, then divide every cell by the total weight. */
  method Sense(probMap: seq<seq<real>>, coloredMap: seq<seq<Color>>, measurement: Color,
               probSensorCorrect: real) returns (updated: seq<seq<real>>)
    requires Rectangular(probMap) && SameShape(coloredMap, probMap)
    requires Normalisable(Weighted(probMap, coloredMap, measurement, probSensorCorrect))
    ensures updated == Sensed(probMap, coloredMap, measurement, probSensorCorrect)
  {
    var numRows, numCols := |probMap|, |probMap[0]|;
    ghost var weighted := Weighted(probMap, coloredMap, measurement, probSensorCorrect);
    updated := seq(numRows, _ => seq(numCols, _ => 0.0));
    var row := 0;
    while row < numRows
      invariant 0 <= row <= numRows
      invariant |updated| == numRows
      invariant forall r :: 0 <= r < numRows ==> |updated[r]| == numCols
      invariant forall r :: 0 <= r < row ==> updated[r] == weighted[r]
    {
      var cells := updated[row];
      var col := 0;
      while col < numCols
        invariant 0 <= col <= numCols && |cells| == numCols
        invariant forall c :: 0 <= c < col ==> cells[c] == weighted[row][c]
      {
        var isMeasurementHit := coloredMap[row][col] == measurement;
        var p := if isMeasurementHit then probSensorCorrect else 1.0 - probSensorCorrect;
        cells := cells[col := probMap[row][col] * p];
        col := col + 1;
      }
      updated := updated[row := cells];
      row := row + 1;
    }
    assert updated == weighted;
    var s := GridSum(updated);
    ghost var want := Sensed(probMap, coloredMap, measurement, probSensorCorrect);
    row := 0;
    while row < numRows
      invariant 0 <= row <= numRows
      invariant |updated| == numRows
      invariant forall r :: 0 <= r < row ==> updated[r] == want[r]
      invariant forall r :: row <= r < numRows ==> updated[r] == weighted[r]
    {
      var cells := updated[row];
      var col := 0;
      while col < numCols
        invariant 0 <= col <= numCols && |cells| == numCols
        invariant forall c :: 0 <= c < col ==> cells[c] == want[row][c]
        invariant forall c :: col <= c < numCols ==> cells[c] == weighted[row][c]
      {
        cells := cells[col := cells[col] / s];
        col := col + 1;
      }
      updated := updated[row := cells];
      row := row + 1;
    }
  }

  /** Localization: start from the uniform belief, then for each paired
      motion and measurement, move first and sense second. Pairs are taken
      position by position and the longer sequence is cut short. */
  method Localize(coloredMap: seq<seq<Color>>, measurements: seq<Color>, motions: seq<Motion>,
                  probSensorCorrect: real, probMove: real) returns (probMap: seq<seq<real>>)
    requires LocalizeDefined(coloredMap, measurements, motions, probSensorCorrect, probMove)
    ensures probMap == Localized(coloredMap, measurements, motions, probSensorCorrect, probMove)
    ensures |probMap| == |coloredMap| && SameShape(coloredMap, probMap)
    ensures |motions| == 0 || |measurements| == 0 ==> probMap == Uniform(|coloredMap|, Cols(coloredMap))
    ensures 0.0 <= probSensorCorrect <= 1.0 && 0.0 <= probMove <= 1.0 ==> Distribution(probMap)
  {
    var numRows, numCols := |coloredMap|, |coloredMap[0]|;
    probMap := Uniform(numRows, numCols);
    ghost var prior := Prior(coloredMap);
    var steps := Zip(motions, measurements);
    for i := 0 to |steps|
      invariant RunDefined(prior, coloredMap, steps[..i], probSensorCorrect, probMove)
      invariant probMap == Run(prior, coloredMap, steps[..i], probSensorCorrect, probMove)
    {
      FilterFacts.RunExtend(prior, coloredMap, steps, i, probSensorCorrect, probMove);
      var (motion, measurement) := steps[i];
      probMap := Move(probMap, motion, probMove);
      probMap := Sense(probMap, coloredMap, measurement, probSensorCorrect);
    }
    assert steps[..|steps|] == steps;
    if 0.0 <= probSensorCorrect <= 1.0 && 0.0 <= probMove <= 1.0 {
      FilterFacts.LocalizedIsDistribution(coloredMap, measurements, motions, probSensorCorrect, probMove);
    }
  }
}
