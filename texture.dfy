/** The land texture of `generateGlobe`: a white raster on which only
    mid-latitude pixels away from the ice are painted with the colour ramp.
    The raster is `canvas[a, b]`, column `a` of `canvas.Length0` (the texture
    longitude resolution) and row `b` of `canvas.Length1` (its latitude
    resolution). */
module Texture {
  import opened Basics
  import opened Angles
  import opened Altitude
  import opened ColourRamp

  /** The background `#ffffff`. */
  const WHITE: Rgb := Rgb(255.0, 255.0, 255.0)

  function Abs(x: real): real { if x < 0.0 then -x else x }

  /** Row `b` of `rows` lies in the painted band `|b / rows - 0.5| < 0.3`. */
  predicate InBand(b: nat, rows: nat)
    requires 0 < rows
  {
    Abs(b as real / rows as real - 0.5) < 0.3
  }

  /** The band test in integers: `|10 b - 5 rows| < 3 rows`. */
  lemma {:induction false} BandInIntegers(b: nat, rows: nat)
    requires 0 < rows
    ensures InBand(b, rows) <==> -3 * rows < 10 * b - 5 * rows < 3 * rows
  {
    var x, n := b as real, rows as real;
    QuotientBelow(x, n, 0.8);
    QuotientAbove(x, n, 0.2);
    assert (10 * b) as real == 10.0 * x && (8 * rows) as real == 8.0 * n && (2 * rows) as real == 2.0 * n;
  }

  predicate IsIce(biome: Biome)
  {
    biome == IceCaps || biome == IceCapsEdge
  }

  /** The place `getAlt` reports for texture pixel `(a, b)`. */
  function Sample(noise: NoiseField, cfg: CapConfig, a: nat, b: nat, columns: nat, rows: nat): Place
    requires cfg.Valid() && a < columns && b < rows
  {
    GetAlt(noise, cfg, TextureLongitude(a, columns), Latitude(b, rows))
  }

  /** Pixel `(a, b)` is overwritten by the paint pass. */
  predicate Paints(noise: NoiseField, cfg: CapConfig, a: nat, b: nat, columns: nat, rows: nat)
    requires cfg.Valid() && a < columns && b < rows
  {
    InBand(b, rows) && !IsIce(Sample(noise, cfg, a, b, columns, rows).biome)
  }

  /** The colour of pixel `(a, b)` after the paint pass, `prev` being its
      colour before. */
  function Painted(noise: NoiseField, cfg: CapConfig, a: nat, b: nat, columns: nat, rows: nat, prev: Rgb): Rgb
    requires cfg.Valid() && a < columns && b < rows
  {
    if Paints(noise, cfg, a, b, columns, rows) then ColourAt(Sample(noise, cfg, a, b, columns, rows).alt)
    else prev
  }

  /** The finished texture: the ramp colour of the sampled altitude on
      painted pixels, white elsewhere. */
  function PixelColour(noise: NoiseField, cfg: CapConfig, a: nat, b: nat, columns: nat, rows: nat): Rgb
    requires cfg.Valid() && a < columns && b < rows
  {
    Painted(noise, cfg, a, b, columns, rows, WHITE)
  }

  /** Outside the band, and on ice, the texture stays white; a pixel that is
      not white was painted and carries an in-range ramp colour. */
  lemma {:induction false} PixelColourCases(noise: NoiseField, cfg: CapConfig, a: nat, b: nat, columns: nat, rows: nat)
    requires cfg.Valid() && a < columns && b < rows
    ensures var c := PixelColour(noise, cfg, a, b, columns, rows);
      var place := Sample(noise, cfg, a, b, columns, rows);
      && (!(-3 * rows < 10 * b - 5 * rows < 3 * rows) ==> c == WHITE)
      && (IsIce(place.biome) ==> c == WHITE)
      && (c != WHITE ==> InBand(b, rows) && !IsIce(place.biome) && c == ColourAt(place.alt))
      && InByteRange(c)
      && (-3 * rows < 10 * b - 5 * rows < 3 * rows && !IsIce(place.biome) ==> c == ColourAt(place.alt))
  {
    BandInIntegers(b, rows);
  }

  /** `ctxLand.fillRect(0, 0, width, height)` in `#ffffff`. */
  method FillBackground(canvas: array2<Rgb>)
    modifies canvas
    ensures forall a, b :: 0 <= a < canvas.Length0 && 0 <= b < canvas.Length1 ==> canvas[a, b] == WHITE
  {
    forall a, b | 0 <= a < canvas.Length0 && 0 <= b < canvas.Length1 {
      canvas[a, b] := WHITE;
    }
  }

  /** The paint loop: every band pixel whose sampled biome is not ice gets
      `colorMap(alt)` (one `fillRect(a, b, 1, 1)`); no other pixel changes. */
  method PaintLand(canvas: array2<Rgb>, noise: NoiseField, cfg: CapConfig)
    requires cfg.Valid()
    modifies canvas
    ensures forall a, b :: 0 <= a < canvas.Length0 && 0 <= b < canvas.Length1 ==>
              canvas[a, b] == Painted(noise, cfg, a, b, canvas.Length0, canvas.Length1, old(canvas[a, b]))
  {
    var columns, rows := canvas.Length0, canvas.Length1;
    for a := 0 to columns
      invariant forall i, j :: 0 <= i < a && 0 <= j < rows ==>
                  canvas[i, j] == Painted(noise, cfg, i, j, columns, rows, old(canvas[i, j]))
      invariant forall i, j :: a <= i < columns && 0 <= j < rows ==> canvas[i, j] == old(canvas[i, j])
    {
      for b := 0 to rows
        invariant forall i, j :: 0 <= i < a && 0 <= j < rows ==>
                    canvas[i, j] == Painted(noise, cfg, i, j, columns, rows, old(canvas[i, j]))
        invariant forall j :: 0 <= j < b ==>
                    canvas[a, j] == Painted(noise, cfg, a, j, columns, rows, old(canvas[a, j]))
        invariant forall i, j :: a <= i < columns && 0 <= j < rows && (i != a || b <= j) ==>
                    canvas[i, j] == old(canvas[i, j])
      {
        if InBand(b, rows) {
          var place := GetAlt(noise, cfg, TextureLongitude(a, columns), Latitude(b, rows));
          if place.biome != IceCaps && place.biome != IceCapsEdge {
            var c := ColorMap(place.alt);
            canvas[a, b] := c;
          }
        }
      }
    }
  }

  /** The background fill followed by the paint loop. */
  method PaintTexture(canvas: array2<Rgb>, noise: NoiseField, cfg: CapConfig)
    requires cfg.Valid()
    modifies canvas
    ensures forall a, b :: 0 <= a < canvas.Length0 && 0 <= b < canvas.Length1 ==>
              canvas[a, b] == PixelColour(noise, cfg, a, b, canvas.Length0, canvas.Length1)
  {
    FillBackground(canvas);
    PaintLand(canvas, noise, cfg);
  }
}
