/** The altitude/biome field `getAlt`: the octave sums come from the noise
    library and are inputs here; what is modelled exactly is the decision
    that follows them (biome, polar cap floor, clamp and override). */
module Altitude {
  import opened Basics

  datatype Biome = Default | Ocean | IceCaps | IceCapsEdge

  /** What `getAlt` returns: `{alt, biome}`. */
  datatype Place = Place(alt: real, biome: Biome)

  /** What the octave loop accumulates at one point: the raw altitude and
      the perturbations added to the northern cap boundary and subtracted
      from the southern one. */
  datatype Octaves = Octaves(rawAlt: real, northShift: real, southShift: real)

  /** The seeded Perlin octave sums as a function of (dx, dy). */
  type NoiseField = (real, real) -> Octaves

  /** The ice cap settings of `globe`, with `surfaceBreak` standing for
      `Math.sqrt(iceCapLevel * iceCapTransitionRange)`. */
  datatype CapConfig = CapConfig(
    iceCapLatitude: real,
    iceCapLevel: real,
    iceCapTransitionRange: real,
    surfaceBreak: real)
  {
    /** The square root exists and the parabola's divisor is not zero. */
    predicate Valid()
    {
      && iceCapTransitionRange != 0.0
      && surfaceBreak >= 0.0
      && surfaceBreak * surfaceBreak == iceCapLevel * iceCapTransitionRange
    }
  }

  /** Beyond one of the two (perturbed) cap boundaries. */
  predicate BeyondCap(dy: real, capLat1: real, capLat2: real)
  {
    dy > capLat1 || dy < capLat2
  }

  /** The biome before the cap floor is applied. */
  function Classify(dy: real, rawAlt: real, capLat1: real, capLat2: real): (b: Biome)
    ensures b == IceCaps <==> BeyondCap(dy, capLat1, capLat2)
    ensures b == Ocean <==> !BeyondCap(dy, capLat1, capLat2) && rawAlt < 0.0
    ensures b == Default <==> !BeyondCap(dy, capLat1, capLat2) && rawAlt >= 0.0
  {
    if dy > capLat1 || dy < capLat2 then IceCaps
    else if rawAlt < 0.0 then Ocean
    else Default
  }

  /** More than `surfaceBreak` beyond a cap boundary: the flat cap zone. */
  predicate InFlatCap(dy: real, capLat1: real, capLat2: real, cfg: CapConfig)
  {
    dy - cfg.surfaceBreak > capLat1 || dy + cfg.surfaceBreak < capLat2
  }

  /** The inner edge of the ramp, where the parabola reaches its top. */
  predicate OnInnerEdge(dy: real, capLat1: real, capLat2: real, cfg: CapConfig)
  {
    if dy > 0.0 then dy == capLat1 + cfg.surfaceBreak else dy == capLat2 - cfg.surfaceBreak
  }

  /** The cap floor `capAlt`: flat `iceCapLevel` in the cap, otherwise an
      inverted parabola centred on the inner edge of the hemisphere's ramp. */
  function CapFloor(dy: real, capLat1: real, capLat2: real, cfg: CapConfig): (c: real)
    requires cfg.Valid()
    ensures cfg.iceCapTransitionRange > 0.0 ==> c <= cfg.iceCapLevel
    ensures InFlatCap(dy, capLat1, capLat2, cfg) ==> c == cfg.iceCapLevel
    ensures c == cfg.iceCapLevel <==>
              InFlatCap(dy, capLat1, capLat2, cfg) || OnInnerEdge(dy, capLat1, capLat2, cfg)
  {
    var level, range, sb := cfg.iceCapLevel, cfg.iceCapTransitionRange, cfg.surfaceBreak;
    if dy - sb > capLat1 || dy + sb < capLat2 then
      level
    else if dy > 0.0 then
      var d := dy - sb - capLat1;
      SquareOverNonZero(d, range);
      Parabola(d, cfg)
    else
      var d := dy + sb - capLat2;
      SquareOverNonZero(d, range);
      Parabola(d, cfg)
  }

  /** `iceCapLevel - d^2 / iceCapTransitionRange`, `d` being the distance
      from the inner edge of the ramp. */
  function Parabola(d: real, cfg: CapConfig): real
    requires cfg.iceCapTransitionRange != 0.0
  {
    cfg.iceCapLevel - d * d / cfg.iceCapTransitionRange
  }

  /** `d * d / range` vanishes exactly at `d == 0` and is non-negative for a
      positive `range`. */
  lemma SquareOverNonZero(d: real, range: real)
    requires range != 0.0
    ensures d * d / range == 0.0 <==> d == 0.0
    ensures range > 0.0 ==> d * d / range >= 0.0
  {
    if d != 0.0 {
      SquareQuotientNonZero(d, range);
    }
    if range > 0.0 {
      DivideMonotone(0.0, d * d, range);
    }
  }

  lemma MulNeg(a: real, b: real)
    requires a < 0.0 && b < 0.0
    ensures a * b > 0.0
  {
    assert a * b == (-a) * (-b);
    MulPositive(-a, -b);
  }

  /** A product of two non-zero reals is non-zero. */
  lemma ProductNonZero(a: real, b: real)
    requires a != 0.0 && b != 0.0
    ensures a * b != 0.0
  {
    if a > 0.0 && b > 0.0 {
      MulPositive(a, b);
    } else if a < 0.0 && b < 0.0 {
      MulNeg(a, b);
    } else if a > 0.0 {
      MulPositive(a, -b);
      assert a * (-b) == -(a * b);
    } else {
      MulPositive(-a, b);
      assert (-a) * b == -(a * b);
    }
  }

  lemma SquareQuotientNonZero(d: real, y: real)
    requires d != 0.0 && y != 0.0
    ensures d * d / y != 0.0
  {
    ProductNonZero(d / y, d);
    assert d * d / y == (d / y) * d;
  }

  /** The decision tail of `getAlt` (everything after the octave loop). */
  function Decide(dy: real, rawAlt: real, capLat1: real, capLat2: real, cfg: CapConfig): (p: Place)
    requires cfg.Valid()
    ensures var floor := CapFloor(dy, capLat1, capLat2, cfg);
      && p.alt >= rawAlt && p.alt >= floor && (p.alt == rawAlt || p.alt == floor)
      && (p.biome == IceCapsEdge <==> rawAlt < floor && floor != cfg.iceCapLevel)
      && (p.biome == IceCapsEdge ==> p.alt == floor)
      && (rawAlt >= floor ==> p == Place(rawAlt, Classify(dy, rawAlt, capLat1, capLat2)))
    ensures p.biome == IceCaps ==> BeyondCap(dy, capLat1, capLat2)
    ensures BeyondCap(dy, capLat1, capLat2) ==> p.biome == IceCaps || p.biome == IceCapsEdge
    ensures p.biome == Ocean ==> rawAlt < 0.0
    ensures p.biome != IceCapsEdge ==> p.biome == Classify(dy, rawAlt, capLat1, capLat2)
  {
    var biome := Classify(dy, rawAlt, capLat1, capLat2);
    var capAlt := CapFloor(dy, capLat1, capLat2, cfg);
    if rawAlt < capAlt then
      Place(capAlt, if capAlt != cfg.iceCapLevel then IceCapsEdge else biome)
    else
      Place(rawAlt, biome)
  }

  /** `getAlt(dx, dy)`: the octave sums at (dx, dy) and the boundaries
      `capLat1 = iceCapLatitude + north`, `capLat2 = -iceCapLatitude - south`. */
  function GetAlt(noise: NoiseField, cfg: CapConfig, dx: real, dy: real): (p: Place)
    requires cfg.Valid()
    ensures var o := noise(dx, dy);
      var capLat1, capLat2 := cfg.iceCapLatitude + o.northShift, -cfg.iceCapLatitude - o.southShift;
      && p.alt == MaxReal(o.rawAlt, CapFloor(dy, capLat1, capLat2, cfg))
      && (p.biome == IceCaps ==> BeyondCap(dy, capLat1, capLat2))
      && (p.biome == Ocean ==> o.rawAlt < 0.0)
      && (p.biome == IceCapsEdge ==> p.alt == CapFloor(dy, capLat1, capLat2, cfg) != cfg.iceCapLevel)
      && (p.biome != IceCapsEdge ==> p.biome == Classify(dy, o.rawAlt, capLat1, capLat2))
  {
    var o := noise(dx, dy);
    Decide(dy, o.rawAlt, cfg.iceCapLatitude + o.northShift, -cfg.iceCapLatitude - o.southShift, cfg)
  }

  /** At a cap boundary the ramp has come down to 0: the outer edge of the
      transition band (northern hemisphere). */
  lemma FloorZeroAtNorthBoundary(dy: real, capLat1: real, capLat2: real, cfg: CapConfig)
    requires cfg.Valid()
    requires dy == capLat1 && dy > 0.0 && capLat2 <= capLat1
    ensures CapFloor(dy, capLat1, capLat2, cfg) == 0.0
  {
    var sb := cfg.surfaceBreak;
    assert (dy - sb - capLat1) * (dy - sb - capLat1) == sb * sb;
    DivideProduct(cfg.iceCapLevel, cfg.iceCapTransitionRange);
  }

  /** The same at the southern boundary. */
  lemma FloorZeroAtSouthBoundary(dy: real, capLat1: real, capLat2: real, cfg: CapConfig)
    requires cfg.Valid()
    requires dy == capLat2 && dy <= 0.0 && capLat2 <= capLat1
    ensures CapFloor(dy, capLat1, capLat2, cfg) == 0.0
  {
    var sb := cfg.surfaceBreak;
    assert (dy + sb - capLat2) * (dy + sb - capLat2) == sb * sb;
    DivideProduct(cfg.iceCapLevel, cfg.iceCapTransitionRange);
  }

  lemma DivideProduct(x: real, y: real)
    requires y != 0.0
    ensures x * y / y == x
  {
  }

  /** Inside the northern ramp the floor is the parabola, measured from the
      inner edge. */
  lemma NorthRampFloor(dy: real, capLat1: real, capLat2: real, cfg: CapConfig)
    requires cfg.Valid()
    requires 0.0 < dy && capLat1 <= dy <= capLat1 + cfg.surfaceBreak && capLat2 <= capLat1
    ensures CapFloor(dy, capLat1, capLat2, cfg) == Parabola(capLat1 + cfg.surfaceBreak - dy, cfg)
  {
    NegSquare(dy - cfg.surfaceBreak - capLat1);
  }

  /** Across the northern ramp, from the boundary to its inner edge, the
      floor rises monotonically from 0 to `iceCapLevel`. */
  lemma FloorRisesAcrossNorthRamp(dy1: real, dy2: real, capLat1: real, capLat2: real, cfg: CapConfig)
    requires cfg.Valid() && cfg.iceCapTransitionRange > 0.0
    requires 0.0 < dy1 <= dy2 && capLat1 <= dy1 && dy2 <= capLat1 + cfg.surfaceBreak
    requires capLat2 <= capLat1
    ensures 0.0 <= CapFloor(dy1, capLat1, capLat2, cfg)
              <= CapFloor(dy2, capLat1, capLat2, cfg) <= cfg.iceCapLevel
  {
    var sb, range, level := cfg.surfaceBreak, cfg.iceCapTransitionRange, cfg.iceCapLevel;
    NorthRampFloor(dy1, capLat1, capLat2, cfg);
    NorthRampFloor(dy2, capLat1, capLat2, cfg);
    ParabolaOrdered(capLat1 + sb - dy2, capLat1 + sb - dy1, cfg);
  }

  /** The parabola grows as `x` shrinks towards 0 and is 0 at `x == sb`. */
  lemma ParabolaOrdered(x: real, y: real, cfg: CapConfig)
    requires cfg.Valid() && cfg.iceCapTransitionRange > 0.0
    requires 0.0 <= x <= y <= cfg.surfaceBreak
    ensures 0.0 <= Parabola(y, cfg) <= Parabola(x, cfg) <= cfg.iceCapLevel
  {
    var sb, range, level := cfg.surfaceBreak, cfg.iceCapTransitionRange, cfg.iceCapLevel;
    SquareMonotone(x, y);
    SquareMonotone(y, sb);
    DivideMonotone(x * x, y * y, range);
    DivideMonotone(y * y, sb * sb, range);
    DivideProduct(level, range);
  }

  lemma SquareMonotone(x: real, y: real)
    requires 0.0 <= x <= y
    ensures x * x <= y * y
  {
    assert x * x <= x * y;
  }

  lemma NegSquare(x: real)
    ensures x * x == (-x) * (-x)
  {
  }

  lemma DivideMonotone(x: real, y: real, range: real)
    requires 0.0 <= x <= y && range > 0.0
    ensures 0.0 <= x / range <= y / range
  {
  }
}
