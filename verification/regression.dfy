/** The program's unit-test scenario, worked out exactly over the reals: a
    3 by 3 map with one red pair, two red measurements, a stay followed by
    a move to the right, a sensor that is right 80% of the time and a motion
    that always succeeds. */
module Regression {
  import opened Grid
  import opened Filter
  import opened FilterFacts

  const TestMap: seq<seq<Color>> := [["G", "G", "G"], ["G", "R", "R"], ["G", "G", "G"]]
  const TestMeasurements: seq<Color> := ["R", "R"]
  const TestMotions: seq<Motion> := [Stay, Right]

  /** A sequence of three reals sums to the sum of its elements. */
  lemma Sum3(s: seq<real>)
    requires |s| == 3
    ensures Sum(s) == s[0] + s[1] + s[2]
  {
    assert s[..1][..0] == [];
    assert Sum(s[..1]) == s[0];
    assert s[..2][..1] == s[..1];
    assert Sum(s[..2]) == s[0] + s[1];
  }

  /** The total of a 3 by 3 grid, cell by cell. */
  lemma GridSum3(g: seq<seq<real>>)
    requires |g| == 3 && |g[0]| == 3 && |g[1]| == 3 && |g[2]| == 3
    ensures GridSum(g) == g[0][0] + g[0][1] + g[0][2] + g[1][0] + g[1][1] + g[1][2]
                          + g[2][0] + g[2][1] + g[2][2]
  {
    Sum3(g[0]);
    Sum3(g[1]);
    Sum3(g[2]);
    Sum3(RowSums(g));
  }

  /** The belief after the first step (stay, then sense red). */
  lemma FirstStep(prior: seq<seq<real>>)
    requires prior == Uniform(3, 3)
    ensures StepDefined(prior, TestMap, (Stay, "R"), 0.8, 1.0)
    ensures Step(prior, TestMap, (Stay, "R"), 0.8, 1.0)
            == [[1.0 / 15.0, 1.0 / 15.0, 1.0 / 15.0],
                [1.0 / 15.0, 4.0 / 15.0, 4.0 / 15.0],
                [1.0 / 15.0, 1.0 / 15.0, 1.0 / 15.0]]
  {
    MovedStay(prior, 1.0);
    var w := Weighted(prior, TestMap, "R", 0.8);
    var a, b := 0.2 / 9.0, 0.8 / 9.0;
    assert prior[0] == prior[1] == prior[2] == [1.0 / 9.0, 1.0 / 9.0, 1.0 / 9.0];
    assert w[0] == [a, a, a];
    assert w[1] == [a, b, b];
    assert w[2] == [a, a, a];
    assert w == [[a, a, a], [a, b, b], [a, a, a]];
    GridSum3(w);
    assert GridSum(w) == 1.0 / 3.0;
    var h := Step(prior, TestMap, (Stay, "R"), 0.8, 1.0);
    assert h == Sensed(prior, TestMap, "R", 0.8);
    var x, y := 1.0 / 15.0, 4.0 / 15.0;
    assert h[0] == [x, x, x];
    assert h[1] == [x, y, y];
    assert h[2] == [x, x, x];
  }

  /** The belief after the second step (move right, then sense red). */
  lemma SecondStep(g: seq<seq<real>>)
    requires g == [[1.0 / 15.0, 1.0 / 15.0, 1.0 / 15.0],
                   [1.0 / 15.0, 4.0 / 15.0, 4.0 / 15.0],
                   [1.0 / 15.0, 1.0 / 15.0, 1.0 / 15.0]]
    ensures StepDefined(g, TestMap, (Right, "R"), 0.8, 1.0)
    ensures Step(g, TestMap, (Right, "R"), 0.8, 1.0)
            == [[1.0 / 30.0, 1.0 / 30.0, 1.0 / 30.0],
                [2.0 / 15.0, 2.0 / 15.0, 8.0 / 15.0],
                [1.0 / 30.0, 1.0 / 30.0, 1.0 / 30.0]]
  {
    var u, v := 1.0 / 15.0, 4.0 / 15.0;
    var moved := Moved(g, Right, 1.0);
    WrapOneTurn(0 - 1, 3);
    assert Wrap(0 - 1, 3) == 2 && Wrap(1 - 1, 3) == 0 && Wrap(2 - 1, 3) == 1;
    assert Wrap(0 - 0, 3) == 0 && Wrap(1 - 0, 3) == 1 && Wrap(2 - 0, 3) == 2;
    assert moved[0] == [u, u, u];
    assert moved[1] == [v, u, v];
    assert moved[2] == [u, u, u];
    var w := Weighted(moved, TestMap, "R", 0.8);
    var p, q, t := u * 0.2, v * 0.2, v * 0.8;
    assert w[0] == [p, p, p];
    assert w[1] == [q, u * 0.8, t];
    assert w[2] == [p, p, p];
    GridSum3(w);
    assert GridSum(w) == 0.4;
    var h := Step(g, TestMap, (Right, "R"), 0.8, 1.0);
    assert h == Sensed(moved, TestMap, "R", 0.8);
    var e, f := 1.0 / 30.0, 2.0 / 15.0;
    assert h[0] == [e, e, e];
    assert h[1] == [f, f, 8.0 / 15.0];
    assert h[2] == [e, e, e];
  }

  /** The expected grid of the unit test, exactly: 1/30 everywhere except
      the middle row, which is 2/15, 2/15, 8/15. */
  lemma TestLocalize()
    ensures LocalizeDefined(TestMap, TestMeasurements, TestMotions, 0.8, 1.0)
    ensures Localized(TestMap, TestMeasurements, TestMotions, 0.8, 1.0)
            == [[1.0 / 30.0, 1.0 / 30.0, 1.0 / 30.0],
                [2.0 / 15.0, 2.0 / 15.0, 8.0 / 15.0],
                [1.0 / 30.0, 1.0 / 30.0, 1.0 / 30.0]]
  {
    var prior := Prior(TestMap);
    var steps := Zip(TestMotions, TestMeasurements);
    assert steps == [(Stay, "R"), (Right, "R")];
    FirstStep(prior);
    var g1 := Step(prior, TestMap, (Stay, "R"), 0.8, 1.0);
    SecondStep(g1);
    var first := steps[..1];
    assert first[..0] == [] && first[0] == (Stay, "R");
    assert Run(prior, TestMap, first[..0], 0.8, 1.0) == prior;
    assert RunDefined(prior, TestMap, first, 0.8, 1.0);
    assert Run(prior, TestMap, first, 0.8, 1.0) == g1;
    assert RunDefined(prior, TestMap, steps, 0.8, 1.0);
  }
}
