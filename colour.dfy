/** The land colour ramp of `generateGlobe`: the fixed control points
    `colorMapPoints`, `lerp` in its CUBIC mode and the segment scan of
    `colorMap`. Channels are kept as reals (the source formats them, unrounded,
    into an `rgb(...)` string). */
module ColourRamp {
  import opened Basics

  datatype Rgb = Rgb(r: real, g: real, b: real)

  /** One entry `{p, r, g, b}` of `colorMapPoints`. */
  datatype ControlPoint = ControlPoint(p: real, colour: Rgb)

  /** The colour `colorMap` starts from and keeps when no segment matches. */
  const BLACK: Rgb := Rgb(0.0, 0.0, 0.0)

  const POINTS: seq<ControlPoint> := [
    ControlPoint(-1.0, Rgb(140.0, 140.0, 140.0)),
    ControlPoint(-0.4, Rgb(140.0, 140.0, 140.0)),
    ControlPoint(0.0, Rgb(177.0, 180.0, 117.0)),
    ControlPoint(0.05, Rgb(77.0, 223.0, 90.0)),
    ControlPoint(0.3, Rgb(63.0, 191.0, 71.0)),
    ControlPoint(0.4, Rgb(170.0, 170.0, 170.0)),
    ControlPoint(0.45, Rgb(255.0, 255.0, 255.0)),
    ControlPoint(1.0, Rgb(255.0, 255.0, 255.0))
  ]

  /** Number of segments: `colorMapPoints.length - 1`. */
  const SEGMENTS: nat := 7

  /** The control points are strictly increasing in `p`. */
  lemma PointsIncreasing(j: nat, k: nat)
    requires j < k < |POINTS|
    ensures POINTS[j].p < POINTS[k].p
  {
    assert |POINTS| == 8;
    assert POINTS[0].p < POINTS[1].p < POINTS[2].p < POINTS[3].p < POINTS[4].p
           < POINTS[5].p < POINTS[6].p < POINTS[7].p;
  }

  /** Every channel of every control point lies in [0, 255]. */
  predicate InByteRange(c: Rgb)
  {
    0.0 <= c.r <= 255.0 && 0.0 <= c.g <= 255.0 && 0.0 <= c.b <= 255.0
  }

  lemma PointsInByteRange(k: nat)
    requires k < |POINTS|
    ensures InByteRange(POINTS[k].colour)
  {
    assert |POINTS| == 8;
    assert k == 0 || k == 1 || k == 2 || k == 3 || k == 4 || k == 5 || k == 6 || k == 7;
  }

  /** The CUBIC easing `-2t^3 + 3t^2` of `lerp`. */
  function Ease(t: real): real
  {
    -2.0 * t * t * t + 3.0 * t * t
  }

  /** The easing maps [0, 1] into [0, 1], fixes both ends, and maps [0, 1)
      below 1. */
  lemma EaseRange(t: real)
    requires 0.0 <= t <= 1.0
    ensures 0.0 <= Ease(t) <= 1.0
    ensures t < 1.0 ==> Ease(t) < 1.0
    ensures t == 0.0 ==> Ease(t) == 0.0
    ensures t == 1.0 ==> Ease(t) == 1.0
  {
    EaseNonNegative(t);
    EaseAtMostOne(t);
    if t < 1.0 {
      EaseBelowOne(t);
    }
  }

  /** `-2t^3 + 3t^2 == t * (t * (3 - 2t))`. */
  lemma EaseNonNegative(t: real)
    requires 0.0 <= t <= 1.0
    ensures 0.0 <= Ease(t)
  {
    var a, b := t, 3.0 - 2.0 * t;
    MulNonNeg(a, b);
    var ab := a * b;
    MulNonNeg(a, ab);
    assert Ease(t) == a * (a * b);
  }

  /** `1 - (-2t^3 + 3t^2) == (1 - t) * ((1 - t) * (1 + 2t))`. */
  lemma EaseAtMostOne(t: real)
    requires 0.0 <= t <= 1.0
    ensures Ease(t) <= 1.0
  {
    var a, b := 1.0 - t, 1.0 + 2.0 * t;
    MulNonNeg(a, b);
    var ab := a * b;
    MulNonNeg(a, ab);
    assert 1.0 - Ease(t) == a * (a * b);
  }

  lemma EaseBelowOne(t: real)
    requires 0.0 <= t < 1.0
    ensures Ease(t) < 1.0
  {
    var a, b := 1.0 - t, 1.0 + 2.0 * t;
    MulPositive(a, b);
    var ab := a * b;
    MulPositive(a, ab);
    assert 1.0 - Ease(t) == a * (a * b);
  }

  /** `lerp(min, max, t, "CUBIC")`. */
  function Lerp(lo: real, hi: real, t: real): real
  {
    lo + Ease(t) * (hi - lo)
  }


  /** On [0, 1] the interpolated value stays between the two endpoints, and
      it starts at `lo` and ends at `hi`. */
  lemma LerpBetween(lo: real, hi: real, t: real)
    requires 0.0 <= t <= 1.0
    ensures MinReal(lo, hi) <= Lerp(lo, hi, t) <= MaxReal(lo, hi)
    ensures t == 0.0 ==> Lerp(lo, hi, t) == lo
    ensures t == 1.0 ==> Lerp(lo, hi, t) == hi
  {
    EaseRange(t);
    var e := Ease(t);
    if lo <= hi {
      MulNonNeg(e, hi - lo);
      MulNonNeg(1.0 - e, hi - lo);
      assert (1.0 - e) * (hi - lo) == (hi - lo) - e * (hi - lo);
    } else {
      MulNonNeg(e, lo - hi);
      MulNonNeg(1.0 - e, lo - hi);
      assert (1.0 - e) * (lo - hi) == (lo - hi) - e * (lo - hi);
      assert e * (hi - lo) == -(e * (lo - hi));
    }
  }

  /** `t` falls in segment `k`: `p_k <= t < p_{k+1}`. */
  predicate InSegment(t: real, k: nat)
    requires k < SEGMENTS
  {
    POINTS[k].p <= t < POINTS[k + 1].p
  }

  /** The position of `t` inside segment `k`, as a fraction of its width. */
  function Fraction(t: real, k: nat): real
    requires k < SEGMENTS
  {
    PointsIncreasing(k, k + 1);
    (t - POINTS[k].p) / (POINTS[k + 1].p - POINTS[k].p)
  }

  /** The colour `colorMap` computes for `t` in segment `k`, channel by channel. */
  function SegmentColour(t: real, k: nat): Rgb
    requires k < SEGMENTS
  {
    var lo, hi, u := POINTS[k].colour, POINTS[k + 1].colour, Fraction(t, k);
    Rgb(Lerp(lo.r, hi.r, u), Lerp(lo.g, hi.g, u), Lerp(lo.b, hi.b, u))
  }

  /** A quotient `x / w` with `0 <= x < w` lies in [0, 1). */
  lemma UnitQuotient(x: real, w: real)
    requires 0.0 <= x < w
    ensures 0.0 <= x / w < 1.0
  {
    QuotientBelow(x, w, 0.0);
    QuotientBelow(x, w, 1.0);
  }

  /** Inside a segment each channel lies between that channel of the
      segment's two control points, and hence in [0, 255]. */
  lemma SegmentColourBetween(t: real, k: nat)
    requires k < SEGMENTS && InSegment(t, k)
    ensures var c, lo, hi := SegmentColour(t, k), POINTS[k].colour, POINTS[k + 1].colour;
      && MinReal(lo.r, hi.r) <= c.r <= MaxReal(lo.r, hi.r)
      && MinReal(lo.g, hi.g) <= c.g <= MaxReal(lo.g, hi.g)
      && MinReal(lo.b, hi.b) <= c.b <= MaxReal(lo.b, hi.b)
    ensures InByteRange(SegmentColour(t, k))
  {
    var lo, hi := POINTS[k].colour, POINTS[k + 1].colour;
    PointsIncreasing(k, k + 1);
    UnitQuotient(t - POINTS[k].p, POINTS[k + 1].p - POINTS[k].p);
    var u := Fraction(t, k);
    LerpBetween(lo.r, hi.r, u);
    LerpBetween(lo.g, hi.g, u);
    LerpBetween(lo.b, hi.b, u);
    PointsInByteRange(k);
    PointsInByteRange(k + 1);
  }

  /** Segments do not overlap: at most one matches a given `t`. */
  lemma SegmentsDisjoint(t: real, j: nat, k: nat)
    requires j < k < SEGMENTS
    ensures !(InSegment(t, j) && InSegment(t, k))
  {
    if j + 1 < k {
      PointsIncreasing(j + 1, k);
    }
  }

  /** The last segment `r <= k` whose lower end is at most `t`. */
  function SegmentBelow(t: real, k: nat): (r: nat)
    requires k < SEGMENTS && POINTS[0].p <= t
    ensures r <= k && POINTS[r].p <= t
    ensures r < k ==> t < POINTS[r + 1].p
    decreases k
  {
    if POINTS[k].p <= t then k
    else
      var r := SegmentBelow(t, k - 1);
      assert r < k - 1 ==> t < POINTS[r + 1].p;
      r
  }

  /** The segment containing a `t` in [-1, 1). */
  function SegmentOf(t: real): (k: nat)
    requires -1.0 <= t < 1.0
    ensures k < SEGMENTS && InSegment(t, k)
  {
    SegmentBelow(t, SEGMENTS - 1)
  }

  /** The colour the ramp assigns to `t`: its segment's colour on [-1, 1),
      black elsewhere. */
  function ColourAt(t: real): (c: Rgb)
    ensures InByteRange(c)
  {
    if -1.0 <= t < 1.0 then
      SegmentColourBetween(t, SegmentOf(t));
      SegmentColour(t, SegmentOf(t))
    else
      BLACK
  }

  /** Some segment matches `t` exactly when `t` is in [-1, 1), and then the
      ramp's colour is that segment's colour. */
  lemma CoveredExactly(t: real, k: nat)
    requires k < SEGMENTS
    ensures InSegment(t, k) ==> -1.0 <= t < 1.0 && ColourAt(t) == SegmentColour(t, k)
    ensures -1.0 <= t < 1.0 ==> exists j :: 0 <= j < SEGMENTS && InSegment(t, j)
  {
    if InSegment(t, k) {
      if 0 < k {
        PointsIncreasing(0, k);
      }
      if k + 1 < SEGMENTS {
        PointsIncreasing(k + 1, SEGMENTS);
      }
      var j := SegmentOf(t);
      if j < k {
        SegmentsDisjoint(t, j, k);
      } else if k < j {
        SegmentsDisjoint(t, k, j);
      }
    }
    if -1.0 <= t < 1.0 {
      var j := SegmentOf(t);
      assert InSegment(t, j);
    }
  }

  /** At each control point below 1 the ramp takes that point's colour. */
  lemma ColourAtControlPoint(k: nat)
    requires k < SEGMENTS
    ensures ColourAt(POINTS[k].p) == POINTS[k].colour
  {
    var t := POINTS[k].p;
    PointsIncreasing(k, k + 1);
    CoveredExactly(t, k);
    assert Fraction(t, k) == 0.0;
    var lo, hi := POINTS[k].colour, POINTS[k + 1].colour;
    LerpBetween(lo.r, hi.r, 0.0);
    LerpBetween(lo.g, hi.g, 0.0);
    LerpBetween(lo.b, hi.b, 0.0);
  }

  /** The ramp is continuous inside [-1, 1): each segment's formula, taken
      at its upper end, gives the next control point's colour. */
  lemma SegmentMeetsNext(k: nat)
    requires k < SEGMENTS
    ensures SegmentColour(POINTS[k + 1].p, k) == POINTS[k + 1].colour
  {
    PointsIncreasing(k, k + 1);
    var w := POINTS[k + 1].p - POINTS[k].p;
    assert Fraction(POINTS[k + 1].p, k) == w / w == 1.0;
    var lo, hi := POINTS[k].colour, POINTS[k + 1].colour;
    LerpBetween(lo.r, hi.r, 1.0);
    LerpBetween(lo.g, hi.g, 1.0);
    LerpBetween(lo.b, hi.b, 1.0);
  }

  /** `colorMap(t)` up to the string formatting: the scan over all segments,
      where the last segment that matches sets the colour. */
  method ColorMap(t: real) returns (c: Rgb)
    ensures c == ColourAt(t)
    ensures forall k :: 0 <= k < SEGMENTS && InSegment(t, k) ==> c == SegmentColour(t, k)
    ensures t < -1.0 || t >= 1.0 ==> c == BLACK
  {
    c := BLACK;
    for a := 0 to SEGMENTS
      invariant forall k :: 0 <= k < a && InSegment(t, k) ==> c == SegmentColour(t, k)
      invariant (forall k :: 0 <= k < a ==> !InSegment(t, k)) ==> c == BLACK
    {
      if POINTS[a].p <= t && t < POINTS[a + 1].p {
        assert InSegment(t, a);
        forall k | 0 <= k < a
          ensures !InSegment(t, k)
        {
          SegmentsDisjoint(t, k, a);
        }
        var lo, hi := POINTS[a].colour, POINTS[a + 1].colour;
        var u := (t - POINTS[a].p) / (POINTS[a + 1].p - POINTS[a].p);
        c := Rgb(Lerp(lo.r, hi.r, u), Lerp(lo.g, hi.g, u), Lerp(lo.b, hi.b, u));
      }
    }
    if -1.0 <= t < 1.0 {
      CoveredExactly(t, SegmentOf(t));
    } else {
      forall k | 0 <= k < SEGMENTS
        ensures !InSegment(t, k)
      {
        CoveredExactly(t, k);
      }
    }
  }
}
