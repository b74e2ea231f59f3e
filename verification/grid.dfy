/** Toroidal grids of real numbers: the index wrap-around used by the motion
    update and the sums used for normalisation, with the facts about both
    that the filter's probability claims rest on. */
module Grid {

  /** Python's `i % n` for a positive `n`: floor modulo, so the result is
      never negative, even for a negative `i`. (For a positive divisor this
      coincides with Dafny's Euclidean `%`.) */
  function Wrap(i: int, n: int): (r: int)
    requires n > 0
    ensures 0 <= r < n
    ensures 0 <= i < n ==> r == i
  {
    i % n
  }

  /** One step past either edge wraps to the opposite side: a negative
      index within one turn gains `n`, an index within one turn past the
      end loses `n`. */
  lemma WrapOneTurn(i: int, n: int)
    requires n > 0
    ensures -n <= i < 0 ==> Wrap(i, n) == i + n
    ensures n <= i < 2 * n ==> Wrap(i, n) == i - n
  {
    if -n <= i < 0 {
      ModUnique(i, n, -1, i + n);
    } else if n <= i < 2 * n {
      ModUnique(i, n, 1, i - n);
    }
  }

  /** `x % n` is the one residue `c` in `[0, n)` with `x == n * q + c`. */
  lemma ModUnique(x: int, n: int, q: int, c: int)
    requires n > 0 && 0 <= c < n && x == n * q + c
    ensures x % n == c
  {
    var d := x / n - q;
    assert n * d == c - x % n;
  }

  /** A wrapped index is unchanged by adding whole turns of the torus. */
  lemma WrapTurns(i: int, n: int, q: int)
    requires n > 0
    ensures Wrap(i + n * q, n) == Wrap(i, n)
  {
    ModUnique(i + n * q, n, i / n + q, i % n);
  }

  /** Stepping back `d` from `r` lands on `r0`, so stepping forward `d`
      from `r0` lands on `r`. */
  lemma WrapStep(r: int, d: int, n: int, r0: int)
    requires n > 0 && 0 <= r < n && Wrap(r - d, n) == r0
    ensures Wrap(r0 + d, n) == r
  {
    var q := (r - d) / n;
    assert r - d == n * q + r0;
    ModUnique(r0 + d, n, -q, r);
  }

  /** Wrapping is invertible: stepping back `d` from `r` lands on `r0`
      exactly when stepping forward `d` from `r0` lands on `r`. */
  lemma WrapInverse(r: int, d: int, n: int, r0: int)
    requires n > 0 && 0 <= r < n && 0 <= r0 < n
    ensures Wrap(r - d, n) == r0 <==> r == Wrap(r0 + d, n)
  {
    if Wrap(r - d, n) == r0 {
      WrapStep(r, d, n, r0);
    }
    if r == Wrap(r0 + d, n) {
      WrapStep(r0, -d, n, r);
    }
  }

  /** Every element of `s` moved `k` places forward, cyclically. */
  function Rotate<T>(s: seq<T>, k: int): (r: seq<T>)
    ensures |r| == |s|
  {
    seq(|s|, i requires 0 <= i < |s| => s[Wrap(i - k, |s|)])
  }

  /** Rotating by `k` is cutting `s` into two pieces and swapping them. */
  lemma {:induction false} RotateIsSwap<T>(s: seq<T>, k: int)
    requires |s| > 0
    ensures Rotate(s, k) == s[|s| - Wrap(k, |s|)..] + s[..|s| - Wrap(k, |s|)]
  {
    var n, m := |s|, Wrap(k, |s|);
    var r := s[n - m..] + s[..n - m];
    forall i | 0 <= i < n
      ensures Rotate(s, k)[i] == r[i]
    {
      WrapTurns(i - k, n, k / n);
      assert i - k + n * (k / n) == i - m;
      WrapOneTurn(i - m, n);
      if i < m {
        assert Wrap(i - m, n) == i - m + n;
      } else {
        assert Wrap(i - m, n) == i - m;
      }
    }
  }

  /** A grid with at least one row, every row as long as the first. */
  predicate Rectangular<T>(g: seq<seq<T>>)
  {
    |g| > 0 && forall r :: 0 <= r < |g| ==> |g[r]| == |g[0]|
  }

  /** Number of columns of a rectangular grid (the length of its first row). */
  function Cols<T>(g: seq<seq<T>>): nat
    requires |g| > 0
  {
    |g[0]|
  }

  /** `a` and `b` have the same number of rows and equally long rows. */
  predicate SameShape<T, U>(a: seq<seq<T>>, b: seq<seq<U>>)
  {
    |a| == |b| && forall r :: 0 <= r < |a| ==> |a[r]| == |b[r]|
  }

  /** The grid shifted cyclically by `dy` rows and `dx` columns: the cell
      at `(r, c)` moves to `(r + dy, c + dx)` modulo the grid's size. */
  function Shifted<T>(g: seq<seq<T>>, dy: int, dx: int): (h: seq<seq<T>>)
    requires Rectangular(g)
    ensures Rectangular(h) && SameShape(h, g)
  {
    var h := seq(|g|, r requires 0 <= r < |g| => Rotate(g[Wrap(r - dy, |g|)], dx));
    forall r | 0 <= r < |g|
      ensures |h[r]| == |g[0]|
    {
      var w := Wrap(r - dy, |g|);
      assert h[r] == Rotate(g[w], dx);
    }
    h
  }

  /** The cell of the shifted grid at `(r, c)` is the cell `dy` rows up
      and `dx` columns left of it, wrapping around the edges. */
  lemma ShiftedAt<T>(g: seq<seq<T>>, dy: int, dx: int, r: int, c: int)
    requires Rectangular(g) && 0 <= r < |g| && 0 <= c < Cols(g)
    ensures Shifted(g, dy, dx)[r][c] == g[Wrap(r - dy, |g|)][Wrap(c - dx, Cols(g))]
  {
    var w := Wrap(r - dy, |g|);
    assert Shifted(g, dy, dx)[r] == Rotate(g[w], dx);
    assert |g[w]| == Cols(g);
  }

  /** Sum of a sequence of reals, left to right. */
  function Sum(s: seq<real>): real
  {
    if s == [] then 0.0 else Sum(s[..|s| - 1]) + s[|s| - 1]
  }

  /** The sum of each row. */
  function RowSums(g: seq<seq<real>>): (sums: seq<real>)
    ensures |sums| == |g|
  {
    seq(|g|, r requires 0 <= r < |g| => Sum(g[r]))
  }

  /** Sum of all cells: the sum of the row sums. */
  function GridSum(g: seq<seq<real>>): real
  {
    Sum(RowSums(g))
  }

  predicate NonNegative(g: seq<seq<real>>)
  {
    forall r, c :: 0 <= r < |g| && 0 <= c < |g[r]| ==> 0.0 <= g[r][c]
  }

  lemma {:induction false} SumAppend(a: seq<real>, b: seq<real>)
    ensures Sum(a + b) == Sum(a) + Sum(b)
  {
    if b == [] {
      assert a + b == a;
    } else {
      assert (a + b)[..|a + b| - 1] == a + b[..|b| - 1];
      SumAppend(a, b[..|b| - 1]);
    }
  }

  /** Summation is linear. */
  lemma {:induction false} SumCombine(x: seq<real>, y: seq<real>, z: seq<real>, a: real, b: real)
    requires |x| == |y| == |z|
    requires forall i :: 0 <= i < |z| ==> z[i] == a * x[i] + b * y[i]
    ensures Sum(z) == a * Sum(x) + b * Sum(y)
  {
    if z != [] {
      var n := |z|;
      SumCombine(x[..n - 1], y[..n - 1], z[..n - 1], a, b);
      assert a * Sum(x) == a * Sum(x[..n - 1]) + a * x[n - 1];
      assert b * Sum(y) == b * Sum(y[..n - 1]) + b * y[n - 1];
    }
  }

  /** Summation is monotone: a cellwise lower bound `a * x` bounds the sum. */
  lemma {:induction false} SumAtLeast(x: seq<real>, z: seq<real>, a: real)
    requires |x| == |z|
    requires forall i :: 0 <= i < |z| ==> z[i] >= a * x[i]
    ensures Sum(z) >= a * Sum(x)
  {
    if z != [] {
      var n := |z|;
      SumAtLeast(x[..n - 1], z[..n - 1], a);
      assert a * Sum(x) == a * Sum(x[..n - 1]) + a * x[n - 1];
    }
  }

  /** `n` copies of `v` sum to `n * v`. */
  lemma {:induction false} SumConst(s: seq<real>, v: real)
    requires forall i :: 0 <= i < |s| ==> s[i] == v
    ensures Sum(s) == |s| as real * v
  {
    if s != [] {
      SumConst(s[..|s| - 1], v);
    }
  }

  /** A cyclic rotation is a bijection on positions, so it keeps the sum. */
  lemma SumRotate(s: seq<real>, k: int)
    ensures Sum(Rotate(s, k)) == Sum(s)
  {
    if s != [] {
      var cut := |s| - Wrap(k, |s|);
      RotateIsSwap(s, k);
      SumAppend(s[cut..], s[..cut]);
      SumAppend(s[..cut], s[cut..]);
      assert s[..cut] + s[cut..] == s;
    }
  }

  /** Row `r` of `z` is `a * x + b * y` cell by cell, so its sum is too. */
  lemma RowSumCombine(x: seq<seq<real>>, y: seq<seq<real>>, z: seq<seq<real>>, a: real, b: real, r: int)
    requires SameShape(x, z) && SameShape(y, z) && 0 <= r < |z|
    requires forall r, c :: 0 <= r < |z| && 0 <= c < |z[r]| ==> z[r][c] == a * x[r][c] + b * y[r][c]
    ensures RowSums(z)[r] == a * RowSums(x)[r] + b * RowSums(y)[r]
  {
    var xr, yr, zr := x[r], y[r], z[r];
    assert forall c :: 0 <= c < |zr| ==> zr[c] == a * xr[c] + b * yr[c];
    SumCombine(xr, yr, zr, a, b);
  }

  /** Grid-wide linearity: if every cell of `z` is `a * x + b * y` at the
      same position, then so is the total. */
  lemma GridSumCombine(x: seq<seq<real>>, y: seq<seq<real>>, z: seq<seq<real>>, a: real, b: real)
    requires SameShape(x, z) && SameShape(y, z)
    requires forall r, c :: 0 <= r < |z| && 0 <= c < |z[r]| ==> z[r][c] == a * x[r][c] + b * y[r][c]
    ensures GridSum(z) == a * GridSum(x) + b * GridSum(y)
  {
    var sx, sy, sz := RowSums(x), RowSums(y), RowSums(z);
    forall r | 0 <= r < |z|
      ensures sz[r] == a * sx[r] + b * sy[r]
    {
      RowSumCombine(x, y, z, a, b, r);
    }
    SumCombine(sx, sy, sz, a, b);
  }

  /** Grid-wide monotonicity of the total. */
  lemma GridSumAtLeast(x: seq<seq<real>>, z: seq<seq<real>>, a: real)
    requires SameShape(x, z)
    requires forall r, c :: 0 <= r < |z| && 0 <= c < |z[r]| ==> z[r][c] >= a * x[r][c]
    ensures GridSum(z) >= a * GridSum(x)
  {
    forall r | 0 <= r < |z|
      ensures RowSums(z)[r] >= a * RowSums(x)[r]
    {
      SumAtLeast(x[r], z[r], a);
    }
    SumAtLeast(RowSums(x), RowSums(z), a);
  }

  /** A grid of non-negative cells has a non-negative total. */
  lemma GridSumNonNegative(g: seq<seq<real>>)
    requires NonNegative(g)
    ensures GridSum(g) >= 0.0
  {
    GridSumAtLeast(g, g, 0.0);
  }

  /** Shifting a grid cyclically keeps its total: the row sums of the
      shifted grid are the rotated row sums of the original. */
  lemma GridSumShifted(g: seq<seq<real>>, dy: int, dx: int)
    requires Rectangular(g)
    ensures GridSum(Shifted(g, dy, dx)) == GridSum(g)
  {
    var h := Shifted(g, dy, dx);
    forall r | 0 <= r < |g|
      ensures RowSums(h)[r] == Rotate(RowSums(g), dy)[r]
    {
      SumRotate(g[Wrap(r - dy, |g|)], dx);
    }
    assert RowSums(h) == Rotate(RowSums(g), dy);
    SumRotate(RowSums(g), dy);
  }
}
