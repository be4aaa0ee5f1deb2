/**
 * The radial distance lookup table of KCSD2D.create_lookup and its query,
 * KCSD2D.generated_potential. The forward model is probed at a sparse,
 * non-uniform set of table indices (sparse_dist_table), a spline through
 * the probes is read at every integer index, and a distance is looked up by
 * rounding its rescaled value to the nearest index and clamping it into the
 * table.
 */
module Lookup {

  /** Steps of the three arange runs of sparse_dist_table. */
  const DenseStep: int := 3
  const DenserStep: int := 1
  const SparseStep: int := 9

  /** Number of entries of the dense table (create_lookup's dist_table_density). */
  const DistTableDensity: nat := 100

  ghost predicate Increasing(s: seq<real>) {
    forall i, j :: 0 <= i < j < |s| ==> s[i] < s[j]
  }

  /** The least integer not below x. */
  function Ceil(x: real): (r: int)
    ensures x <= r as real < x + 1.0
  {
    -((-x).Floor)
  }

  /** The length np.arange(start, stop, step) gives: ceil((stop - start) / step), or 0. */
  function ARangeLength(start: real, stop: real, step: real): nat
    requires step > 0.0
  {
    if stop > start then Ceil((stop - start) / step) else 0
  }

  /**
   * np.arange(start, stop, step) for a positive step: start + k * step for
   * k = 0, 1, ... while it stays below stop (ARangeBelowStop, ARangeMember).
   */
  function ARange(start: real, stop: real, step: real): (s: seq<real>)
    requires step > 0.0
    ensures |s| == ARangeLength(start, stop, step)
    ensures forall k :: 0 <= k < |s| ==> s[k] == start + k as real * step
  {
    seq(ARangeLength(start, stop, step), k => start + k as real * step)
  }

  /** For k >= 0: k * step < span exactly when k < ceil(span / step). */
  lemma StepBelow(k: nat, step: real, span: real)
    requires step > 0.0 && span > 0.0
    ensures k as real * step < span <==> k < Ceil(span / step)
  {
    var q := span / step;
    assert q * step == span;
    if k as real < q {
      assert k as real * step < q * step;
    } else {
      assert k as real * step >= q * step;
    }
  }

  /** Every element of an arange lies below stop, and they strictly increase. */
  lemma ARangeBelowStop(start: real, stop: real, step: real)
    requires step > 0.0
    ensures forall k :: 0 <= k < |ARange(start, stop, step)| ==> ARange(start, stop, step)[k] < stop
    ensures Increasing(ARange(start, stop, step))
  {
    var s := ARange(start, stop, step);
    forall k | 0 <= k < |s| ensures s[k] < stop {
      StepBelow(k, step, stop - start);
    }
    forall i, j | 0 <= i < j < |s| ensures s[i] < s[j] {
      assert i as real * step < j as real * step;
    }
  }

  /** An arange holds start + k * step exactly when that value is below stop. */
  lemma ARangeMember(start: real, stop: real, step: real, k: nat)
    requires step > 0.0
    ensures start + k as real * step in ARange(start, stop, step) <==> start + k as real * step < stop
  {
    var s := ARange(start, stop, step);
    var x := start + k as real * step;
    ARangeBelowStop(start, stop, step);
    if x < stop {
      StepBelow(k, step, stop - start);
      assert s[k] == x;
    }
  }

  /**
   * Inserting x into a strictly increasing sequence keeps it strictly
   * increasing and adds exactly x to its elements.
   */
  function Insert(t: seq<real>, x: real): (r: seq<real>)
    requires Increasing(t)
    ensures Increasing(r)
    ensures forall y :: y in r <==> y in t || y == x
  {
    if |t| == 0 then [x]
    else if x < t[0] then [x] + t
    else if x == t[0] then t
    else
      var u := Insert(t[1..], x);
      TailAboveHead(t);
      ConsIncreasing(t[0], u);
      [t[0]] + u
  }

  /** Every element after the head of an increasing sequence exceeds the head. */
  lemma TailAboveHead(t: seq<real>)
    requires Increasing(t) && |t| > 0
    ensures Increasing(t[1..]) && forall y :: y in t[1..] ==> t[0] < y
  {
    forall y | y in t[1..] ensures t[0] < y {
      var j :| 0 <= j < |t[1..]| && t[1..][j] == y;
      assert t[j + 1] == y;
    }
  }

  /** A value below every element of an increasing sequence may be put in front of it. */
  lemma ConsIncreasing(a: real, u: seq<real>)
    requires Increasing(u) && forall y :: y in u ==> a < y
    ensures Increasing([a] + u)
  {
    var r := [a] + u;
    forall i, j | 0 <= i < j < |r| ensures r[i] < r[j] {
      assert r[j] == u[j - 1];
      if i > 0 {
        assert r[i] == u[i - 1];
      } else {
        assert u[j - 1] in u;
      }
    }
  }

  /**
   * np.unique: the elements of s, sorted, each once.
   */
  function Unique(s: seq<real>): (r: seq<real>)
    ensures Increasing(r)
    ensures forall y :: y in r <==> y in s
  {
    if |s| == 0 then []
    else
      var r := Insert(Unique(s[..|s| - 1]), s[|s| - 1]);
      assert s == s[..|s| - 1] + [s[|s| - 1]];
      r
  }

  /** A non-empty sequence has its head as a member. */
  lemma HeadIsMember(s: seq<real>)
    ensures |s| > 0 ==> s[0] in s
  {
  }

  /** The head of an increasing sequence is its least element. */
  lemma HeadIsLeast(s: seq<real>, y: real)
    requires Increasing(s) && y in s
    ensures s[0] <= y
  {
    var j :| 0 <= j < |s| && s[j] == y;
    if j > 0 {
      assert s[0] < s[j];
    }
  }

  /** The last element of an increasing sequence is its greatest. */
  lemma LastIsGreatest(s: seq<real>, y: real)
    requires Increasing(s) && y in s
    ensures y <= s[|s| - 1]
  {
    var j :| 0 <= j < |s| && s[j] == y;
    if j < |s| - 1 {
      assert s[j] < s[|s| - 1];
    }
  }

  /**
   * A strictly increasing sequence is determined by its elements, so Unique
   * agrees with any other sorted, duplicate-free listing of them.
   */
  lemma {:induction false} IncreasingDeterminedByElements(a: seq<real>, b: seq<real>)
    requires Increasing(a) && Increasing(b)
    requires forall y :: y in a <==> y in b
    ensures a == b
  {
    HeadIsMember(a);
    HeadIsMember(b);
    if |a| > 0 && |b| > 0 {
      HeadIsLeast(b, a[0]);
      HeadIsLeast(a, b[0]);
      forall y ensures y in a[1..] <==> y in b[1..] {
        if y in a[1..] {
          var j :| 1 <= j < |a| && a[j] == y;
          assert y != a[0];
          assert y in b;
        }
        if y in b[1..] {
          var j :| 1 <= j < |b| && b[j] == y;
          assert y != b[0];
          assert y in a;
        }
      }
      IncreasingDeterminedByElements(a[1..], b[1..]);
      assert a == [a[0]] + a[1..] && b == [b[0]] + b[1..];
    }
  }

  /** border1 = 0.9 * R / dist_max * dt_len. */
  function Border1(r: real, distMax: real, dtLen: nat): real
    requires distMax > 0.0
  {
    0.9 * (r / distMax) * dtLen as real
  }

  /** border2 = 1.3 * R / dist_max * dt_len. */
  function Border2(r: real, distMax: real, dtLen: nat): real
    requires distMax > 0.0
  {
    1.3 * (r / distMax) * dtLen as real
  }

  /**
   * The probe indices before np.unique, in the order sparse_dist_table
   * builds them. The middle run steps by DenseStep, and the sparse run
   * starts SparseStep / 2 past border2 + 1, an integer division (4).
   */
  function SparseProbes(r: real, distMax: real, dtLen: nat): seq<real>
    requires distMax > 0.0
  {
    var b1 := Border1(r, distMax, dtLen);
    var b2 := Border2(r, distMax, dtLen);
    ARange(0.0, b1, DenseStep as real)
      + [b1]
      + ARange(b1 + DenserStep as real, b2, DenseStep as real)
      + [b2, b2 + DenserStep as real]
      + ARange(b2 + DenserStep as real + (SparseStep / 2) as real, dtLen as real, SparseStep as real)
      + [dtLen as real + 1.0]
  }

  /** sparse_dist_table(R, dist_max, dt_len): the sorted, distinct probes. */
  function SparseDistTable(r: real, distMax: real, dtLen: nat): (xs: seq<real>)
    requires distMax > 0.0
    ensures Increasing(xs)
    ensures forall y :: y in xs <==> y in SparseProbes(r, distMax, dtLen)
  {
    Unique(SparseProbes(r, distMax, dtLen))
  }

  /**
   * A value is a probe of sparse_dist_table exactly when it lies on one of
   * the three arange runs or is one of the four explicit points.
   */
  lemma SparseDistTableMember(r: real, distMax: real, dtLen: nat, y: real)
    requires distMax > 0.0
    ensures y in SparseDistTable(r, distMax, dtLen) <==>
      var b1 := Border1(r, distMax, dtLen);
      var b2 := Border2(r, distMax, dtLen);
      || y in ARange(0.0, b1, 3.0)
      || y == b1
      || y in ARange(b1 + 1.0, b2, 3.0)
      || y == b2
      || y == b2 + 1.0
      || y in ARange(b2 + 5.0, dtLen as real, 9.0)
      || y == dtLen as real + 1.0
  {
  }

  /**
   * The probes hold both borders, border2 + 1 and dt_len + 1, and hold 0
   * whenever R >= 0.
   */
  lemma SparseDistTableHoldsBorders(r: real, distMax: real, dtLen: nat)
    requires distMax > 0.0
    ensures var xs := SparseDistTable(r, distMax, dtLen);
      && Border1(r, distMax, dtLen) in xs
      && Border2(r, distMax, dtLen) in xs
      && Border2(r, distMax, dtLen) + 1.0 in xs
      && dtLen as real + 1.0 in xs
      && (r >= 0.0 ==> 0.0 in xs)
  {
    var xs := SparseDistTable(r, distMax, dtLen);
    var b1 := Border1(r, distMax, dtLen);
    var b2 := Border2(r, distMax, dtLen);
    assert b1 in xs by { SparseDistTableMember(r, distMax, dtLen, b1); }
    assert b2 in xs by { SparseDistTableMember(r, distMax, dtLen, b2); }
    assert b2 + 1.0 in xs by { SparseDistTableMember(r, distMax, dtLen, b2 + 1.0); }
    assert dtLen as real + 1.0 in xs by { SparseDistTableMember(r, distMax, dtLen, dtLen as real + 1.0); }
    if r >= 0.0 {
      assert 0.0 in xs by {
        SparseDistTableMember(r, distMax, dtLen, 0.0);
        BorderSign(r, distMax, dtLen);
        if b1 > 0.0 {
          ARangeMember(0.0, b1, 3.0, 0);
        }
      }
    }
  }


  lemma BorderSign(r: real, distMax: real, dtLen: nat)
    requires distMax > 0.0 && r >= 0.0
    ensures Border1(r, distMax, dtLen) >= 0.0 && Border2(r, distMax, dtLen) >= 0.0
  {
    assert r / distMax >= 0.0;
  }

  /**
   * When 1.3 * R <= dist_max no probe exceeds dt_len + 1, which is then the
   * last and largest probe.
   */
  lemma SparseDistTableEndsAtLength(r: real, distMax: real, dtLen: nat)
    requires distMax > 0.0 && 1.3 * r <= distMax
    ensures var xs := SparseDistTable(r, distMax, dtLen);
      && |xs| > 0
      && xs[|xs| - 1] == dtLen as real + 1.0
      && forall k :: 0 <= k < |xs| ==> xs[k] <= dtLen as real + 1.0
  {
    var xs := SparseDistTable(r, distMax, dtLen);
    var b1 := Border1(r, distMax, dtLen);
    var b2 := Border2(r, distMax, dtLen);
    var top := dtLen as real + 1.0;
    BordersBelowLength(r, distMax, dtLen);
    ARangeBelowStop(0.0, b1, 3.0);
    ARangeBelowStop(b1 + 1.0, b2, 3.0);
    ARangeBelowStop(b2 + 5.0, dtLen as real, 9.0);
    forall k | 0 <= k < |xs| ensures xs[k] <= top {
      SparseDistTableMember(r, distMax, dtLen, xs[k]);
    }
    SparseDistTableMember(r, distMax, dtLen, top);
    LastIsGreatest(xs, top);
  }

  /** With 1.3 * R <= dist_max both borders are at most dt_len. */
  lemma BordersBelowLength(r: real, distMax: real, dtLen: nat)
    requires distMax > 0.0 && 1.3 * r <= distMax
    ensures Border1(r, distMax, dtLen) <= dtLen as real
    ensures Border2(r, distMax, dtLen) <= dtLen as real
  {
    var n := dtLen as real;
    var q := r / distMax;
    assert q * distMax == r;
    assert 1.3 * q <= 1.0 by {
      assert (1.3 * q) * distMax <= 1.0 * distMax;
    }
    assert 0.9 * q <= 1.0 by {
      if q < 0.0 {
        assert 0.9 * q < 0.0;
      }
    }
    assert (0.9 * q) * n <= 1.0 * n;
    assert (1.3 * q) * n <= 1.0 * n;
  }

  /**
   * R = 1, dist_max = 10 and dt_len = 100 put the borders at 9 and 13. The
   * middle run is 10 alone, so 11 is not probed (a step of denser_step
   * would probe it), and the sparse run starts at 13 + 1 + 4 = 18, so 18 is
   * probed and 17 is not.
   */
  lemma SparseDistTableExample()
    ensures Border1(1.0, 10.0, 100) == 9.0 && Border2(1.0, 10.0, 100) == 13.0
    ensures var xs := SparseDistTable(1.0, 10.0, 100);
      10.0 in xs && 11.0 !in xs && 18.0 in xs && 17.0 !in xs
  {
    assert Border1(1.0, 10.0, 100) == 9.0;
    assert Border2(1.0, 10.0, 100) == 13.0;
    var run1 := ARange(0.0, 9.0, 3.0);
    var run2 := ARange(10.0, 13.0, 3.0);
    var run3 := ARange(18.0, 100.0, 9.0);
    assert |run1| == 3 by { assert Ceil(3.0) == 3; }
    assert run2 == [10.0] by { assert Ceil(1.0) == 1; }
    assert run3[0] == 18.0 by { assert |run3| > 0; }
    forall y | y in run1 ensures y <= 6.0 {
      var k :| 0 <= k < |run1| && run1[k] == y;
    }
    forall y | y in run3 ensures y >= 18.0 {
      var k :| 0 <= k < |run3| && run3[k] == y;
    }
    SparseDistTableMember(1.0, 10.0, 100, 10.0);
    SparseDistTableMember(1.0, 10.0, 100, 11.0);
    SparseDistTableMember(1.0, 10.0, 100, 17.0);
    SparseDistTableMember(1.0, 10.0, 100, 18.0);
  }

  /** np.round: to the nearest integer, ties to the even one. */
  function RoundHalfEven(x: real): (r: int)
    ensures x - 0.5 <= r as real <= x + 0.5
    ensures (r as real == x - 0.5 || r as real == x + 0.5) ==> r % 2 == 0
  {
    var f := x.Floor;
    var d := x - f as real;
    if d < 0.5 then f
    else if d > 0.5 then f + 1
    else if f % 2 == 0 then f
    else f + 1
  }

  /** Rounding never reverses the order of two values. */
  lemma RoundMonotone(x: real, y: real)
    requires x <= y
    ensures RoundHalfEven(x) <= RoundHalfEven(y)
  {
  }

  /** np.uint16 of an integer-valued float: reduction modulo 2^16. */
  function ToUint16(n: int): (w: int)
    ensures 0 <= w < 0x1_0000
    ensures 0 <= n < 0x1_0000 ==> w == n
    ensures (n - w) % 0x1_0000 == 0
  {
    n % 0x1_0000
  }

  /** A distance rescaled into table-index space: dt_len * dist / dist_max. */
  function Scaled(dtLen: nat, dist: real, distMax: real): real
    requires distMax > 0.0
  {
    dtLen as real * dist / distMax
  }

  /**
   * The table index generated_potential reads for a distance:
   * max(0, min(uint16(round(dt_len * dist / dist_max)), dt_len - 1)).
   */
  function TableIndex(dtLen: nat, dist: real, distMax: real): (k: nat)
    requires dtLen > 0 && distMax > 0.0
    ensures k < dtLen
  {
    var w := ToUint16(RoundHalfEven(Scaled(dtLen, dist, distMax)));
    Maximum(0, Minimum(w, dtLen - 1))
  }

  function Minimum(a: int, b: int): int { if a < b then a else b }
  function Maximum(a: int, b: int): int { if a < b then b else a }

  /** Distance 0 reads the first entry. */
  lemma TableIndexAtZero(dtLen: nat, distMax: real)
    requires dtLen > 0 && distMax > 0.0
    ensures TableIndex(dtLen, 0.0, distMax) == 0
  {
    assert dtLen as real * 0.0 / distMax == 0.0;
  }

  /** Scaling distances by dt_len / dist_max keeps their order and sign. */
  lemma ScaleMonotone(dtLen: nat, d1: real, d2: real, distMax: real)
    requires distMax > 0.0 && d1 <= d2
    ensures Scaled(dtLen, d1, distMax) <= Scaled(dtLen, d2, distMax)
    ensures d1 >= 0.0 ==> Scaled(dtLen, d1, distMax) >= 0.0
  {
    var n := dtLen as real;
    assert n * d1 <= n * d2;
  }

  lemma ScaleAtLeast(dtLen: nat, dist: real, distMax: real)
    requires dist >= distMax > 0.0
    ensures Scaled(dtLen, dist, distMax) >= dtLen as real
  {
    var n := dtLen as real;
    assert n * dist >= n * distMax;
    assert (n * distMax) / distMax == n;
  }

  /** A value at least n rounds to at least n. */
  lemma RoundAtLeast(x: real, n: nat)
    requires x >= n as real
    ensures RoundHalfEven(x) >= n
  {
  }

  /**
   * A distance of at least dist_max reads the last entry, provided the
   * rounded index stays below 2^16 and so is not wrapped by the uint16 cast.
   */
  lemma TableIndexBeyondRange(dtLen: nat, dist: real, distMax: real)
    requires dtLen > 0 && distMax > 0.0 && dist >= distMax
    requires RoundHalfEven(Scaled(dtLen, dist, distMax)) < 0x1_0000
    ensures TableIndex(dtLen, dist, distMax) == dtLen - 1
  {
    var x := Scaled(dtLen, dist, distMax);
    ScaleAtLeast(dtLen, dist, distMax);
    RoundAtLeast(x, dtLen);
    var rd := RoundHalfEven(x);
    assert dtLen <= rd < 0x1_0000;
    assert ToUint16(rd) == rd;
  }

  /**
   * A larger non-negative distance never reads a smaller index, as long as
   * its rounded index stays below 2^16.
   */
  lemma TableIndexMonotone(dtLen: nat, d1: real, d2: real, distMax: real)
    requires dtLen > 0 && distMax > 0.0 && 0.0 <= d1 <= d2
    requires RoundHalfEven(Scaled(dtLen, d2, distMax)) < 0x1_0000
    ensures TableIndex(dtLen, d1, distMax) <= TableIndex(dtLen, d2, distMax)
  {
    var x1 := Scaled(dtLen, d1, distMax);
    var x2 := Scaled(dtLen, d2, distMax);
    ScaleMonotone(dtLen, d1, d2, distMax);
    RoundAtLeast(x1, 0);
    RoundMonotone(x1, x2);
    var r1 := RoundHalfEven(x1);
    var r2 := RoundHalfEven(x2);
    assert 0 <= r1 <= r2 < 0x1_0000;
    assert ToUint16(r1) == r1 && ToUint16(r2) == r2;
  }

  /**
   * The uint16 cast wraps: with a 100-entry table a distance of
   * 655.36 * dist_max rounds to index 65536, which wraps to 0 and reads the
   * first entry instead of the last.
   */
  lemma TableIndexWrapsAround()
    ensures TableIndex(100, 655.36, 1.0) == 0
  {
    assert 100.0 * 655.36 / 1.0 == 65536.0;
    assert RoundHalfEven(65536.0) == 65536;
  }

  /**
   * generated_potential: the table entry at the distance's index. Distance 0
   * reads the first entry, and a distance of at least dist_max the last one
   * while the rounded index is not wrapped by the uint16 cast.
   */
  function GeneratedPotential(table: seq<real>, dist: real, distMax: real): (p: real)
    requires |table| > 0 && distMax > 0.0
    ensures p in table
    ensures dist == 0.0 ==> p == table[0]
    ensures dist >= distMax && RoundHalfEven(Scaled(|table|, dist, distMax)) < 0x1_0000 ==>
      p == table[|table| - 1]
  {
    var k := TableIndex(|table|, dist, distMax);
    TableIndexAtZero(|table|, distMax);
    assert dist >= distMax && RoundHalfEven(Scaled(|table|, dist, distMax)) < 0x1_0000 ==>
      k == |table| - 1 by {
      if dist >= distMax && RoundHalfEven(Scaled(|table|, dist, distMax)) < 0x1_0000 {
        TableIndexBeyondRange(|table|, dist, distMax);
      }
    }
    table[k]
  }
}
