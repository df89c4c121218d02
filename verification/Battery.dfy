/** telemetry.c: state of charge from the battery voltage, by interpolation on a discharge
    curve. */
module Battery {
  import opened Arithmetic

  datatype Point = Point(pptt: nat, mV: nat)

  const UINT16_MAX := 0xFFFF
  const UINT32_MAX := 0xFFFF_FFFF

  /** A discharge curve: 16-bit columns, strictly decreasing, ending at no charge. */
  ghost predicate Curve(c: seq<Point>) {
    && c != []
    && (forall i :: 0 <= i < |c| ==> c[i].pptt <= UINT16_MAX && c[i].mV <= UINT16_MAX)
    && (forall i, j :: 0 <= i < j < |c| ==> c[j].pptt < c[i].pptt && c[j].mV < c[i].mV)
    && c[|c| - 1].pptt == 0
  }

  const LIPO := [Point(10000, 4200), Point(9000, 4050), Point(7500, 3900), Point(5000, 3750),
                 Point(2500, 3600), Point(1000, 3450), Point(0, 3200)]

  /** Two neighbouring knots, the upper one first. */
  predicate Segment(a: Point, b: Point) {
    b.pptt < a.pptt && b.mV < a.mV
  }

  function Interpolate(a: Point, b: Point, mV: nat): nat
    requires Segment(a, b) && b.mV <= mV
  {
    b.pptt + Scale(a.pptt - b.pptt, mV - b.mV, a.mV - b.mV)
  }

  /** x * y / d, rounded down. */
  function Scale(x: nat, y: nat, d: nat): nat
    requires 0 < d
  {
    x * y / d
  }

  /** The level at `mV`, knowing that it lies below every knot before `i`. */
  function LevelFrom(c: seq<Point>, mV: nat, i: nat): nat
    requires Curve(c) && i < |c| && (0 < i ==> mV < c[i - 1].mV)
    decreases |c| - i
  {
    if c[i].mV <= mV then
      if i == 0 then c[0].pptt else Interpolate(c[i - 1], c[i], mV)
    else if i == |c| - 1 then 0
    else LevelFrom(c, mV, i + 1)
  }

  function Level(c: seq<Point>, mV: nat): nat
    requires Curve(c)
  {
    LevelFrom(c, mV, 0)
  }

  /** battery_level_pptt(): the pointer stays inside the curve and no unsigned operation wraps. */
  method LevelPptt(c: seq<Point>, mV: nat) returns (level: nat)
    requires Curve(c) && mV <= UINT16_MAX
    ensures level == Level(c, mV) <= c[0].pptt
  {
    LevelBounds(c, mV, 0);
    if mV >= c[0].mV {
      return c[0].pptt;
    }
    var i := 0;
    while c[i].pptt > 0 && mV < c[i].mV
      invariant i < |c| && (0 < i ==> mV < c[i - 1].mV)
      invariant LevelFrom(c, mV, i) == Level(c, mV)
      decreases |c| - i
    {
      i := i + 1;
    }
    if mV < c[i].mV {
      return c[i].pptt;
    }
    var a, b := c[i - 1], c[i];
    assert b.pptt <= a.pptt && b.mV <= mV && b.mV <= a.mV;
    ProductFits(a.pptt - b.pptt, mV - b.mV);
    assert (a.pptt - b.pptt) * (mV - b.mV) <= UINT32_MAX;
    return b.pptt + (a.pptt - b.pptt) * (mV - b.mV) / (a.mV - b.mV);
  }

  lemma ProductFits(x: nat, y: nat)
    requires x <= UINT16_MAX && y <= UINT16_MAX
    ensures x * y <= UINT32_MAX
  {
    MulOrder(x, UINT16_MAX, y);
    MulOrder(y, UINT16_MAX, UINT16_MAX);
    assert UINT16_MAX * y == y * UINT16_MAX;
  }

  // ---------------------------------------------------------------- one segment

  lemma ScaleRoundsDown(x: nat, y: nat, d: nat)
    requires 0 < d
    ensures Scale(x, y, d) * d <= x * y < Scale(x, y, d) * d + d
  {
    var n := x * y;
    assert n / d * d <= n < n / d * d + d;
  }

  lemma ScaleMonotone(x: nat, y: nat, z: nat, d: nat)
    requires y <= z && 0 < d
    ensures Scale(x, y, d) <= Scale(x, z, d)
  {
    var p, q := Scale(x, z, d), Scale(x, y, d);
    if p < q {
      MulOrder(p + 1, q, d);
      MulOrder(y, z, x);
      ScaleRoundsDown(x, y, d);
      ScaleRoundsDown(x, z, d);
      assert false;
    }
  }

  lemma ScaleExact(x: nat, d: nat)
    requires 0 < d
    ensures Scale(x, d, d) == x
  {
    var q := Scale(x, d, d);
    if q < x {
      MulOrder(q + 1, x, d);
      ScaleRoundsDown(x, d, d);
      assert false;
    } else if x < q {
      MulOrder(x + 1, q, d);
      ScaleRoundsDown(x, d, d);
      assert false;
    }
  }

  /** The computed level is the exact interpolation rounded down: at most it, and less than one
      unit below it. */
  lemma InterpolationRoundsDown(a: Point, b: Point, mV: nat)
    requires Segment(a, b) && b.mV <= mV
    ensures b.pptt <= Interpolate(a, b, mV)
    ensures var above := Interpolate(a, b, mV) - b.pptt;
            above * (a.mV - b.mV) <= (a.pptt - b.pptt) * (mV - b.mV)
              < above * (a.mV - b.mV) + (a.mV - b.mV)
  {
    ScaleRoundsDown(a.pptt - b.pptt, mV - b.mV, a.mV - b.mV);
  }

  lemma InterpolationMonotone(a: Point, b: Point, low: nat, high: nat)
    requires Segment(a, b) && b.mV <= low <= high
    ensures Interpolate(a, b, low) <= Interpolate(a, b, high)
  {
    ScaleMonotone(a.pptt - b.pptt, low - b.mV, high - b.mV, a.mV - b.mV);
  }

  lemma InterpolationAtKnots(a: Point, b: Point)
    requires Segment(a, b)
    ensures Interpolate(a, b, b.mV) == b.pptt && Interpolate(a, b, a.mV) == a.pptt
  {
    ScaleExact(a.pptt - b.pptt, a.mV - b.mV);
    assert Scale(a.pptt - b.pptt, 0, a.mV - b.mV) == 0;
  }

  // ---------------------------------------------------------------- the whole curve

  lemma {:induction false} LevelBounds(c: seq<Point>, mV: nat, i: nat)
    requires Curve(c) && i < |c| && (0 < i ==> mV < c[i - 1].mV)
    ensures LevelFrom(c, mV, i) <= (if i == 0 then c[0].pptt else c[i - 1].pptt)
    decreases |c| - i
  {
    if c[i].mV <= mV {
      if 0 < i {
        InterpolationMonotone(c[i - 1], c[i], mV, c[i - 1].mV);
        InterpolationAtKnots(c[i - 1], c[i]);
      }
    } else if i < |c| - 1 {
      LevelBounds(c, mV, i + 1);
    }
  }

  lemma {:induction false} LevelMonotoneFrom(c: seq<Point>, low: nat, high: nat, i: nat)
    requires Curve(c) && i < |c| && low <= high && (0 < i ==> high < c[i - 1].mV)
    ensures LevelFrom(c, low, i) <= LevelFrom(c, high, i)
    decreases |c| - i
  {
    if high < c[i].mV {
      if i < |c| - 1 {
        LevelMonotoneFrom(c, low, high, i + 1);
      }
    } else if c[i].mV <= low {
      if 0 < i {
        InterpolationMonotone(c[i - 1], c[i], low, high);
      }
    } else {
      if 0 < i {
        InterpolationMonotone(c[i - 1], c[i], c[i].mV, high);
        InterpolationAtKnots(c[i - 1], c[i]);
      }
      if i < |c| - 1 {
        LevelBounds(c, low, i + 1);
      }
    }
  }

  /** More voltage never means less charge, across segments too. */
  lemma LevelMonotone(c: seq<Point>, low: nat, high: nat)
    requires Curve(c) && low <= high
    ensures Level(c, low) <= Level(c, high)
  {
    LevelMonotoneFrom(c, low, high, 0);
  }

  lemma {:induction false} LevelFromSkips(c: seq<Point>, mV: nat, i: nat, k: nat)
    requires Curve(c) && i <= k < |c| && c[k].mV <= mV
    requires 0 < k ==> mV < c[k - 1].mV
    requires 0 < i ==> mV < c[i - 1].mV
    ensures LevelFrom(c, mV, i) == LevelFrom(c, mV, k)
    decreases k - i
  {
    if i < k {
      assert mV < c[i].mV by {
        if i < k - 1 {
          assert c[k - 1].mV < c[i].mV;
        }
      }
      LevelFromSkips(c, mV, i + 1, k);
    }
  }

  /** Between two knots the level is their interpolation; at a knot it is the knot's own level. */
  lemma LevelOnSegment(c: seq<Point>, mV: nat, k: nat)
    requires Curve(c) && k < |c|
    ensures Level(c, c[k].mV) == c[k].pptt
    ensures 0 < k && c[k].mV <= mV < c[k - 1].mV ==> Level(c, mV) == Interpolate(c[k - 1], c[k], mV)
  {
    LevelFromSkips(c, c[k].mV, 0, k);
    if 0 < k {
      InterpolationAtKnots(c[k - 1], c[k]);
      if c[k].mV <= mV < c[k - 1].mV {
        LevelFromSkips(c, mV, 0, k);
      }
    }
  }

  lemma LipoIsCurve()
    ensures Curve(LIPO)
  {
  }

  /** telemetry_battery_percent() on the shipped curve. */
  function Percent(mV: nat): (percent: nat)
    ensures percent <= 100
    ensures 4200 <= mV ==> percent == 100
    ensures mV < 3200 ==> percent == 0
  {
    LipoIsCurve();
    LevelBounds(LIPO, mV, 0);
    Level(LIPO, mV) / 100
  }

  /** The percentage on the topmost segment of the shipped curve. */
  lemma PercentNearFull(mV: nat)
    requires 4050 <= mV < 4200
    ensures Percent(mV) == (9000 + 1000 * (mV - 4050) / 150) / 100
  {
    LipoIsCurve();
    LevelOnSegment(LIPO, mV, 1);
    assert LIPO[0] == Point(10000, 4200) && LIPO[1] == Point(9000, 4050);
    assert Scale(1000, mV - 4050, 150) == 1000 * (mV - 4050) / 150;
  }

  /** The percentage at the knots of the shipped curve; in between it is interpolated. */
  lemma PercentAtKnots()
    ensures Percent(4200) == 100 && Percent(4050) == 90 && Percent(3900) == 75 && Percent(3750) == 50
    ensures Percent(3600) == 25 && Percent(3450) == 10 && Percent(3200) == 0
  {
    LipoIsCurve();
    forall k | 0 <= k < |LIPO|
      ensures Percent(LIPO[k].mV) == LIPO[k].pptt / 100
    {
      LevelOnSegment(LIPO, LIPO[k].mV, k);
    }
    assert LIPO[0].mV == 4200 && LIPO[1].mV == 4050 && LIPO[2].mV == 3900 && LIPO[3].mV == 3750;
    assert LIPO[4].mV == 3600 && LIPO[5].mV == 3450 && LIPO[6].mV == 3200;
  }

  lemma PercentMonotone(low: nat, high: nat)
    requires low <= high
    ensures Percent(low) <= Percent(high)
  {
    LipoIsCurve();
    LevelMonotone(LIPO, low, high);
  }
}
