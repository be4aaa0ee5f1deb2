/**
 * The estimation grid of KCSD2D.estimate_at: bounds default to the
 * electrode bounding box, spacing defaults to 1% of each span, and each
 * axis is an np.linspace whose sample count is (max - min) / gd + 1,
 * truncated to an integer as numpy's linspace does with int(num).
 */
module Grid {
  import opened Base
  import opened LinAlg

  /** An electrode position (x, y). */
  type Point = (real, real)

  /** Python's int() on a float: truncation toward zero. */
  function Trunc(x: real): (r: int)
    ensures 0.0 <= x ==> r as real <= x < r as real + 1.0
    ensures x < 0.0 ==> r as real - 1.0 < x <= r as real
  {
    if x >= 0.0 then x.Floor else -((-x).Floor)
  }

  /** np.min of a non-empty sequence. */
  function MinOf(s: seq<real>): real
    requires |s| > 0
  {
    if |s| == 1 then s[0]
    else
      var m := MinOf(s[..|s| - 1]);
      if s[|s| - 1] < m then s[|s| - 1] else m
  }

  /** np.min of a non-empty sequence is one of its elements and below every element. */
  lemma {:induction false} MinOfIsLeast(s: seq<real>)
    requires |s| > 0
    ensures MinOf(s) in s
    ensures forall k :: 0 <= k < |s| ==> MinOf(s) <= s[k]
  {
    if |s| > 1 {
      MinOfIsLeast(s[..|s| - 1]);
      assert s == s[..|s| - 1] + [s[|s| - 1]];
    }
  }

  /** np.max of a non-empty sequence. */
  function MaxOf(s: seq<real>): real
    requires |s| > 0
  {
    if |s| == 1 then s[0]
    else
      var m := MaxOf(s[..|s| - 1]);
      if s[|s| - 1] > m then s[|s| - 1] else m
  }

  /** np.max of a non-empty sequence is one of its elements and above every element. */
  lemma {:induction false} MaxOfIsGreatest(s: seq<real>)
    requires |s| > 0
    ensures MaxOf(s) in s
    ensures forall k :: 0 <= k < |s| ==> s[k] <= MaxOf(s)
  {
    if |s| > 1 {
      MaxOfIsGreatest(s[..|s| - 1]);
      assert s == s[..|s| - 1] + [s[|s| - 1]];
    }
  }

  /** np.min over every entry of a matrix whose rows are non-empty, taken row by row. */
  function MinEntry(m: seq<seq<real>>): real
    requires |m| > 0 && forall i :: 0 <= i < |m| ==> |m[i]| > 0
  {
    var last := MinOf(m[|m| - 1]);
    if |m| == 1 then last
    else
      var rest := MinEntry(m[..|m| - 1]);
      if last < rest then last else rest
  }

  /** The least entry is an entry of the matrix and below every entry. */
  lemma {:induction false} MinEntryIsLeast(m: seq<seq<real>>)
    requires |m| > 0 && forall i :: 0 <= i < |m| ==> |m[i]| > 0
    ensures exists i, j :: 0 <= i < |m| && 0 <= j < |m[i]| && m[i][j] == MinEntry(m)
    ensures forall i, j :: 0 <= i < |m| && 0 <= j < |m[i]| ==> MinEntry(m) <= m[i][j]
  {
    var n := |m| - 1;
    MinOfIsLeast(m[n]);
    var j :| 0 <= j < |m[n]| && m[n][j] == MinOf(m[n]);
    if n > 0 {
      var rest := m[..n];
      MinEntryIsLeast(rest);
      var i', j' :| 0 <= i' < |rest| && 0 <= j' < |rest[i']| && rest[i'][j'] == MinEntry(rest);
      assert m[i'] == rest[i'];
      forall i, k | 0 <= i < |m| && 0 <= k < |m[i]| ensures MinEntry(m) <= m[i][k] {
        if i < n {
          assert m[i] == rest[i];
        }
      }
    }
  }

  /** np.max over every entry of a matrix whose rows are non-empty, taken row by row. */
  function MaxEntry(m: seq<seq<real>>): real
    requires |m| > 0 && forall i :: 0 <= i < |m| ==> |m[i]| > 0
  {
    var last := MaxOf(m[|m| - 1]);
    if |m| == 1 then last
    else
      var rest := MaxEntry(m[..|m| - 1]);
      if last > rest then last else rest
  }

  /** The greatest entry is an entry of the matrix and above every entry. */
  lemma {:induction false} MaxEntryIsGreatest(m: seq<seq<real>>)
    requires |m| > 0 && forall i :: 0 <= i < |m| ==> |m[i]| > 0
    ensures exists i, j :: 0 <= i < |m| && 0 <= j < |m[i]| && m[i][j] == MaxEntry(m)
    ensures forall i, j :: 0 <= i < |m| && 0 <= j < |m[i]| ==> m[i][j] <= MaxEntry(m)
  {
    var n := |m| - 1;
    MaxOfIsGreatest(m[n]);
    var j :| 0 <= j < |m[n]| && m[n][j] == MaxOf(m[n]);
    if n > 0 {
      var rest := m[..n];
      MaxEntryIsGreatest(rest);
      var i', j' :| 0 <= i' < |rest| && 0 <= j' < |rest[i']| && rest[i'][j'] == MaxEntry(rest);
      assert m[i'] == rest[i'];
      forall i, k | 0 <= i < |m| && 0 <= k < |m[i]| ensures m[i][k] <= MaxEntry(m) {
        if i < n {
          assert m[i] == rest[i];
        }
      }
    }
  }

  /**
   * np.linspace(lo, hi, n): n samples; for n > 1 the i-th is
   * lo + i * (hi - lo) / (n - 1) and the last is set to hi; for n == 1 the
   * only sample is lo.
   */
  function Linspace(lo: real, hi: real, n: nat): (s: seq<real>)
    ensures |s| == n
  {
    if n <= 1 then
      seq(n, i => lo)
    else
      seq(n, i requires 0 <= i < n =>
        if i == n - 1 then hi else lo + i as real * ((hi - lo) / (n - 1) as real))
  }

  /**
   * A linspace starts at lo, ends at hi and is equally spaced.
   */
  lemma LinspaceShape(lo: real, hi: real, n: nat)
    ensures n > 0 ==> Linspace(lo, hi, n)[0] == lo
    ensures n > 1 ==> Linspace(lo, hi, n)[n - 1] == hi
    ensures n > 1 ==> forall i :: 0 <= i < n - 1 ==>
      Linspace(lo, hi, n)[i + 1] - Linspace(lo, hi, n)[i] == (hi - lo) / (n - 1) as real
  {
    if n > 1 {
      var s := Linspace(lo, hi, n);
      var step := (hi - lo) / (n - 1) as real;
      assert (n - 1) as real * step == hi - lo;
      forall i | 0 <= i < n - 1
        ensures s[i + 1] - s[i] == step
      {
        if i + 1 == n - 1 {
          assert s[i] == lo + (n - 2) as real * step;
          assert (n - 2) as real * step + step == (n - 1) as real * step;
        } else {
          assert s[i + 1] == lo + (i + 1) as real * step;
        }
      }
    }
  }

  /** The number of samples estimate_at asks linspace for: (hi - lo) / gd + 1. */
  function SampleCount(lo: real, hi: real, gd: real): int
    requires gd != 0.0
  {
    Trunc((hi - lo) / gd + 1.0)
  }

  /**
   * One axis of the estimation grid: fails when the spacing is zero
   * (division by zero) or when linspace is asked for a negative count.
   */
  function Axis(lo: real, hi: real, gd: real): (r: Result<seq<real>>)
    ensures gd == 0.0 <==> r == Err(ZeroSpacing)
    ensures gd != 0.0 ==> (r.Err? <==> SampleCount(lo, hi, gd) < 0)
    ensures r.Ok? ==> |r.value| == SampleCount(lo, hi, gd)
  {
    if gd == 0.0 then Err(ZeroSpacing)
    else
      var c := SampleCount(lo, hi, gd);
      if c < 0 then Err(NegativeCount) else Ok(Linspace(lo, hi, c))
  }

  /**
   * With a positive spacing and lo <= hi the axis exists, has
   * trunc((hi - lo) / gd) + 1 >= 1 samples and starts at lo; it ends at hi
   * unless the span is shorter than one spacing, when lo is its only sample.
   */
  lemma AxisCovers(lo: real, hi: real, gd: real)
    requires gd > 0.0 && lo <= hi
    ensures Axis(lo, hi, gd).Ok?
    ensures |Axis(lo, hi, gd).value| == Trunc((hi - lo) / gd) + 1 >= 1
    ensures Axis(lo, hi, gd).value[0] == lo
    ensures Axis(lo, hi, gd).value[|Axis(lo, hi, gd).value| - 1] == if hi - lo < gd then lo else hi
  {
    var q := (hi - lo) / gd;
    QuotientBelowOne(hi - lo, gd);
    assert Trunc(q + 1.0) == Trunc(q) + 1;
    LinspaceShape(lo, hi, Trunc(q + 1.0));
  }

  lemma QuotientBelowOne(x: real, d: real)
    requires x >= 0.0 && d > 0.0
    ensures x / d >= 0.0
    ensures x / d < 1.0 <==> x < d
  {
    var q := x / d;
    assert q * d == x;
    if q < 1.0 {
      assert q * d < 1.0 * d;
    } else {
      assert q * d >= 1.0 * d;
    }
  }

  /** The default spacing, 1% of a positive span, gives 101 samples. */
  lemma DefaultSpacingGives101(lo: real, hi: real)
    requires lo < hi
    ensures Axis(lo, hi, 0.01 * (hi - lo)).Ok?
    ensures |Axis(lo, hi, 0.01 * (hi - lo)).value| == 101
  {
    var gd := 0.01 * (hi - lo);
    assert (hi - lo) / gd == 100.0;
  }

  /** np.meshgrid(lin_x, lin_y): both of shape |lin_y| x |lin_x|. */
  datatype Mesh = Mesh(spaceX: Matrix, spaceY: Matrix)

  function Meshgrid(linX: seq<real>, linY: seq<real>): (m: Mesh)
    ensures IsMatrix(m.spaceX, |linY|, |linX|) && IsMatrix(m.spaceY, |linY|, |linX|)
    ensures forall j, i :: 0 <= j < |linY| && 0 <= i < |linX| ==>
      m.spaceX[j][i] == linX[i] && m.spaceY[j][i] == linY[j]
  {
    Mesh(seq(|linY|, j => linX),
         seq(|linY|, j requires 0 <= j < |linY| => seq(|linX|, i => linY[j])))
  }

  /** The optional entries of the params dictionary that estimate_at reads. */
  datatype GridParams = GridParams(
    xmin: Option<real>, xmax: Option<real>,
    ymin: Option<real>, ymax: Option<real>,
    gdX: Option<real>, gdY: Option<real>)

  function Xs(elePos: seq<Point>): (s: seq<real>)
    ensures |s| == |elePos|
  {
    seq(|elePos|, k requires 0 <= k < |elePos| => elePos[k].0)
  }

  function Ys(elePos: seq<Point>): (s: seq<real>)
    ensures |s| == |elePos|
  {
    seq(|elePos|, k requires 0 <= k < |elePos| => elePos[k].1)
  }

  /**
   * The bounds estimate_at uses: the given ones, else the electrode bounding
   * box. As in Python, the defaults np.min / np.max are evaluated even when a
   * bound is given, so an empty electrode set always fails.
   */
  datatype Bounds = Bounds(xmin: real, xmax: real, ymin: real, ymax: real)

  function GridBounds(elePos: seq<Point>, p: GridParams): (r: Result<Bounds>)
    ensures r.Err? <==> |elePos| == 0
    ensures r.Ok? && p.xmin.None? ==>
      r.value.xmin in Xs(elePos) && forall k :: 0 <= k < |elePos| ==> r.value.xmin <= Xs(elePos)[k]
    ensures r.Ok? && p.xmax.None? ==>
      r.value.xmax in Xs(elePos) && forall k :: 0 <= k < |elePos| ==> Xs(elePos)[k] <= r.value.xmax
    ensures r.Ok? && p.ymin.None? ==>
      r.value.ymin in Ys(elePos) && forall k :: 0 <= k < |elePos| ==> r.value.ymin <= Ys(elePos)[k]
    ensures r.Ok? && p.ymax.None? ==>
      r.value.ymax in Ys(elePos) && forall k :: 0 <= k < |elePos| ==> Ys(elePos)[k] <= r.value.ymax
    ensures r.Ok? && p.xmin.Some? ==> r.value.xmin == p.xmin.value
    ensures r.Ok? && p.xmax.Some? ==> r.value.xmax == p.xmax.value
    ensures r.Ok? && p.ymin.Some? ==> r.value.ymin == p.ymin.value
    ensures r.Ok? && p.ymax.Some? ==> r.value.ymax == p.ymax.value
  {
    if |elePos| == 0 then Err(EmptyElectrodes)
    else
      var xs := Xs(elePos);
      var ys := Ys(elePos);
      MinOfIsLeast(xs); MaxOfIsGreatest(xs); MinOfIsLeast(ys); MaxOfIsGreatest(ys);
      Ok(Bounds(p.xmin.GetOr(MinOf(xs)), p.xmax.GetOr(MaxOf(xs)),
                p.ymin.GetOr(MinOf(ys)), p.ymax.GetOr(MaxOf(ys))))
  }

  /**
   * estimate_at: the mesh of points where the CSD is estimated, or the
   * error that stops the construction.
   */
  function EstimateAt(elePos: seq<Point>, p: GridParams): (r: Result<Mesh>)
  {
    var b :- GridBounds(elePos, p);
    var gdX := p.gdX.GetOr(0.01 * (b.xmax - b.xmin));
    var gdY := p.gdY.GetOr(0.01 * (b.ymax - b.ymin));
    var linX :- Axis(b.xmin, b.xmax, gdX);
    var linY :- Axis(b.ymin, b.ymax, gdY);
    Ok(Meshgrid(linX, linY))
  }

  /**
   * What estimate_at produces: when it succeeds, space_X[j][i] is the i-th
   * sample of the x axis and space_Y[j][i] the j-th of the y axis, with the
   * axes as Axis builds them; it fails exactly when there are no electrodes
   * or one of the axes fails.
   */
  lemma EstimateAtMesh(elePos: seq<Point>, p: GridParams)
    ensures |elePos| == 0 ==> EstimateAt(elePos, p) == Err(EmptyElectrodes)
    ensures |elePos| > 0 ==>
      var b := GridBounds(elePos, p).value;
      var ax := Axis(b.xmin, b.xmax, p.gdX.GetOr(0.01 * (b.xmax - b.xmin)));
      var ay := Axis(b.ymin, b.ymax, p.gdY.GetOr(0.01 * (b.ymax - b.ymin)));
      (EstimateAt(elePos, p).Ok? <==> ax.Ok? && ay.Ok?) &&
      (EstimateAt(elePos, p).Ok? ==>
        var m := EstimateAt(elePos, p).value;
        IsMatrix(m.spaceX, |ay.value|, |ax.value|) &&
        IsMatrix(m.spaceY, |ay.value|, |ax.value|) &&
        forall j, i :: 0 <= j < |ay.value| && 0 <= i < |ax.value| ==>
          m.spaceX[j][i] == ax.value[i] && m.spaceY[j][i] == ay.value[j])
  {
  }

  /**
   * The demonstration run: bounds [-2, 2] x [-2, 2] with gdX = gdY = 0.05
   * give an 81 x 81 mesh whatever the (non-empty) electrode set.
   */
  lemma DemoMeshIs81By81(elePos: seq<Point>)
    requires |elePos| > 0
    ensures var r := EstimateAt(elePos, GridParams(Some(-2.0), Some(2.0), Some(-2.0), Some(2.0), Some(0.05), Some(0.05)));
      r.Ok? && IsMatrix(r.value.spaceX, 81, 81) && IsMatrix(r.value.spaceY, 81, 81)
  {
    assert SampleCount(-2.0, 2.0, 0.05) == 81;
  }
}
