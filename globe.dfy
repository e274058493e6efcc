/** The mutable `globe` object and `generateGlobe`: the vertex loop that
    samples `getAlt` on the longitude x latitude grid, the face loop and the
    texture pass, plus the start-up zeroing of `globe.points` and the
    `getMaxAlt` scan. */
module Generator {
  import opened Basics
  import opened Angles
  import opened Altitude
  import opened Mesh
  import SeedRng
  import ColourRamp
  import Texture

  /** The settings of `globe` (everything but `points`). */
  datatype Config = Config(
    radius: real,
    heightScale: real,
    latitudeRes: nat,
    longitudeRes: nat,
    gLatitudeRes: nat,
    gLongitudeRes: nat,
    noiseSeed: int,
    iceCapLatitude: real,
    iceCapLevel: real,
    iceCapTransitionRange: real)
  {
    /** The ice cap part, with `surfaceBreak` standing for the square root
        of `iceCapLevel * iceCapTransitionRange`. */
    function Caps(surfaceBreak: real): CapConfig
    {
      CapConfig(iceCapLatitude, iceCapLevel, iceCapTransitionRange, surfaceBreak)
    }
  }

  /** The initial values of `globe`. */
  const DEFAULT: Config := Config(1.0, 0.05, 256, 256, 1024, 1024, 1, 0.75, 0.025, 0.05)

  /** `Math.sin` and `Math.cos`, which are not modelled. */
  datatype Trig = Trig(sin: real -> real, cos: real -> real)

  /** The altitude `getAlt(angleA, angleB).alt` stored for grid vertex `(a, b)`. */
  function VertexAlt(noise: NoiseField, cfg: Config, sb: real, a: nat, b: nat): real
    requires cfg.Caps(sb).Valid() && a < cfg.longitudeRes && 0 < cfg.latitudeRes && b <= cfg.latitudeRes
  {
    GetAlt(noise, cfg.Caps(sb), GridLongitude(a, cfg.longitudeRes), Latitude(b, cfg.latitudeRes)).alt
  }

  /** The three coordinates pushed for a vertex at longitude `x`, latitude
      `y` and altitude `alt`: the unit-sphere direction scaled by
      `radius * (1 + heightScale * alt)`. */
  function Position(trig: Trig, radius: real, heightScale: real, alt: real, x: real, y: real): (p: seq<real>)
    ensures |p| == 3
  {
    var r := radius * (1.0 + heightScale * alt);
    [r * trig.cos(x) * trig.cos(y), r * trig.sin(y), r * trig.sin(x) * trig.cos(y)]
  }

  /** The coordinates of grid vertex `(a, b)`. */
  function VertexPosition(noise: NoiseField, trig: Trig, cfg: Config, sb: real, a: nat, b: nat): seq<real>
    requires cfg.Caps(sb).Valid() && a < cfg.longitudeRes && 0 < cfg.latitudeRes && b <= cfg.latitudeRes
  {
    Position(trig, cfg.radius, cfg.heightScale, VertexAlt(noise, cfg, sb, a, b),
             GridLongitude(a, cfg.longitudeRes), Latitude(b, cfg.latitudeRes))
  }

  /** Scaling the radius scales every coordinate by the same factor; the
      altitude, and so the biome, does not depend on the radius at all. */
  lemma ScaleRadius(trig: Trig, radius: real, k: real, heightScale: real, alt: real, x: real, y: real)
    ensures var p, q := Position(trig, radius, heightScale, alt, x, y), Position(trig, k * radius, heightScale, alt, x, y);
      q[0] == k * p[0] && q[1] == k * p[1] && q[2] == k * p[2]
  {
  }

  /** With `sin^2 + cos^2 == 1` at both angles a vertex lies at distance
      `radius * (1 + heightScale * alt)` from the centre. */
  lemma OnSphere(trig: Trig, radius: real, heightScale: real, alt: real, x: real, y: real)
    requires trig.sin(x) * trig.sin(x) + trig.cos(x) * trig.cos(x) == 1.0
    requires trig.sin(y) * trig.sin(y) + trig.cos(y) * trig.cos(y) == 1.0
    ensures var p, r := Position(trig, radius, heightScale, alt, x, y), radius * (1.0 + heightScale * alt);
      p[0] * p[0] + p[1] * p[1] + p[2] * p[2] == r * r
  {
    var r := radius * (1.0 + heightScale * alt);
    var sx, cx, sy, cy := trig.sin(x), trig.cos(x), trig.sin(y), trig.cos(y);
    var rcy := r * cy;
    assert (rcy * cx) * (rcy * cx) + (rcy * sx) * (rcy * sx) == rcy * rcy * (sx * sx + cx * cx);
    assert rcy * rcy == r * r * (cy * cy);
    assert (r * sy) * (r * sy) == r * r * (sy * sy);
    assert r * r * (cy * cy) + r * r * (sy * sy) == r * r * (sy * sy + cy * cy);
  }

  /** The three entries from `3 * k` on are `p`. */
  ghost predicate Stored(landPoints: seq<real>, k: nat, p: seq<real>)
  {
    3 * k + 3 <= |landPoints| && |p| == 3 && landPoints[3 * k .. 3 * k + 3] == p
  }

  /** One step of the vertex loop: the vertices done before stay done and
      vertex `(a, b)` joins them. */
  lemma {:induction false} KeepAllDone(noise: NoiseField, trig: Trig, cfg: Config, sb: real,
                                       landPoints: seq<real>, index: seq<seq<nat>>, points: seq<seq<real>>,
                                       landPoints': seq<real>, index': seq<seq<nat>>, points': seq<seq<real>>,
                                       a: nat, b: nat)
    requires cfg.Caps(sb).Valid() && 0 < cfg.latitudeRes
    requires forall i, j :: (0 <= i < a && 0 <= j <= cfg.latitudeRes) || (i == a && 0 <= j < b) ==>
               VertexDone(noise, trig, cfg, sb, landPoints, index, points, i, j)
    requires landPoints <= landPoints' && a < |index| <= |index'| && a < |points| <= |points'|
    requires forall i :: 0 <= i <= a ==> index[i] <= index'[i] && points[i] <= points'[i]
    requires VertexDone(noise, trig, cfg, sb, landPoints', index', points', a, b)
    ensures forall i, j :: (0 <= i < a && 0 <= j <= cfg.latitudeRes) || (i == a && 0 <= j <= b) ==>
              VertexDone(noise, trig, cfg, sb, landPoints', index', points', i, j)
  {
    forall i, j | (0 <= i < a && 0 <= j <= cfg.latitudeRes) || (i == a && 0 <= j < b)
      ensures VertexDone(noise, trig, cfg, sb, landPoints', index', points', i, j)
    {
      KeepDone(noise, trig, cfg, sb, landPoints, index, points, landPoints', index', points', i, j);
    }
  }

  /** The vertex ids are consecutive, column after column. */
  lemma {:induction false} ColumnStart(a: nat, latRes: nat)
    ensures VertexId(a, latRes + 1, latRes) == VertexId(a + 1, 0, latRes)
  {
  }

  /** `row` is `n` zeros. */
  ghost predicate Zeros(row: seq<real>, n: nat)
  {
    |row| == n && forall j :: 0 <= j < n ==> row[j] == 0.0
  }

  /** Vertex `(i, j)` is in place: `index[i][j]` is its id, its three
      coordinates sit at `3 * index[i][j]` and `points[i][j]` is its altitude. */
  ghost predicate VertexDone(noise: NoiseField, trig: Trig, cfg: Config, sb: real,
                             landPoints: seq<real>, index: seq<seq<nat>>, points: seq<seq<real>>, i: nat, j: nat)
    requires cfg.Caps(sb).Valid() && 0 < cfg.latitudeRes
  {
    && i < cfg.longitudeRes && j <= cfg.latitudeRes
    && i < |index| && j < |index[i]| && index[i][j] == VertexId(i, j, cfg.latitudeRes)
    && i < |points| && j < |points[i]| && points[i][j] == VertexAlt(noise, cfg, sb, i, j)
    && Stored(landPoints, VertexId(i, j, cfg.latitudeRes), VertexPosition(noise, trig, cfg, sb, i, j))
  }

  /** What the vertex loop leaves behind: `index` numbers the grid, every
      vertex is in place, `landPoints` holds exactly their coordinates, and
      rows `a < longitudeRes` of `points` are replaced by `latitudeRes + 1`
      altitudes while later rows are kept. */
  ghost predicate VerticesBuilt(noise: NoiseField, trig: Trig, cfg: Config, sb: real,
                                 landPoints: seq<real>, index: seq<seq<nat>>,
                                 points: seq<seq<real>>, before: seq<seq<real>>)
    requires cfg.Caps(sb).Valid() && 0 < cfg.latitudeRes
  {
    var lonRes, latRes := cfg.longitudeRes, cfg.latitudeRes;
    && IndexLayout(index, lonRes, latRes)
    && |landPoints| == 3 * VertexCount(lonRes, latRes)
    && (forall a, b :: 0 <= a < lonRes && 0 <= b <= latRes ==>
          VertexDone(noise, trig, cfg, sb, landPoints, index, points, a, b))
    && |points| == Max(|before|, lonRes)
    && (forall a :: 0 <= a < lonRes ==> |points[a]| == latRes + 1)
    && (forall a :: lonRes <= a < |before| ==> points[a] == before[a])
  }

  /** A vertex in place stays in place when the tables only grow. */
  lemma {:induction false} KeepDone(noise: NoiseField, trig: Trig, cfg: Config, sb: real,
                                    landPoints: seq<real>, index: seq<seq<nat>>, points: seq<seq<real>>,
                                    landPoints': seq<real>, index': seq<seq<nat>>, points': seq<seq<real>>,
                                    i: nat, j: nat)
    requires cfg.Caps(sb).Valid() && 0 < cfg.latitudeRes
    requires VertexDone(noise, trig, cfg, sb, landPoints, index, points, i, j)
    requires landPoints <= landPoints'
    requires i < |index'| && index[i] <= index'[i] && i < |points'| && points[i] <= points'[i]
    ensures VertexDone(noise, trig, cfg, sb, landPoints', index', points', i, j)
  {
    var k := VertexId(i, j, cfg.latitudeRes);
    assert landPoints'[3 * k .. 3 * k + 3] == landPoints[3 * k .. 3 * k + 3];
  }

  /** The inner vertex loop for column `a`: for every row `b <= latitudeRes`
      sample `getAlt`, append the altitude to `points[a]`, number the vertex
      `landPoints.length / 3` and push its three coordinates. */
  method BuildColumn(noise: NoiseField, trig: Trig, cfg: Config, sb: real, a: nat,
                     landPoints0: seq<real>, index0: seq<seq<nat>>, rows0: seq<seq<real>>)
    returns (landPoints: seq<real>, index: seq<seq<nat>>, rows: seq<seq<real>>)
    requires cfg.Caps(sb).Valid() && 0 < cfg.latitudeRes && a < cfg.longitudeRes
    requires |landPoints0| == 3 * VertexId(a, 0, cfg.latitudeRes)
    requires |index0| == a + 1 && index0[a] == [] && a < |rows0| && rows0[a] == []
    requires forall i, j :: 0 <= i < a && 0 <= j <= cfg.latitudeRes ==>
               VertexDone(noise, trig, cfg, sb, landPoints0, index0, rows0, i, j)
    ensures |landPoints| == 3 * VertexId(a + 1, 0, cfg.latitudeRes)
    ensures |index| == a + 1 && |rows| == |rows0|
    ensures forall i :: 0 <= i < a ==> index[i] == index0[i]
    ensures forall i :: 0 <= i < |rows0| && i != a ==> rows[i] == rows0[i]
    ensures |index[a]| == cfg.latitudeRes + 1 && |rows[a]| == cfg.latitudeRes + 1
    ensures forall i, j :: 0 <= i <= a && 0 <= j <= cfg.latitudeRes ==>
              VertexDone(noise, trig, cfg, sb, landPoints, index, rows, i, j)
  {
    var lonRes, latRes := cfg.longitudeRes, cfg.latitudeRes;
    landPoints, index, rows := landPoints0, index0, rows0;
    for b := 0 to latRes + 1
      invariant |landPoints| == 3 * VertexId(a, b, latRes)
      invariant |index| == a + 1 && |index[a]| == b && |rows| == |rows0| && |rows[a]| == b
      invariant forall i :: 0 <= i < a ==> index[i] == index0[i]
      invariant forall i :: 0 <= i < |rows0| && i != a ==> rows[i] == rows0[i]
      invariant forall i, j :: (0 <= i < a && 0 <= j <= latRes) || (i == a && 0 <= j < b) ==>
                  VertexDone(noise, trig, cfg, sb, landPoints, index, rows, i, j)
    {
      ghost var landPoints1, index1, rows1 := landPoints, index, rows;
      var angleA := GridLongitude(a, lonRes);
      var angleB := Latitude(b, latRes);
      var alt := GetAlt(noise, cfg.Caps(sb), angleA, angleB).alt;
      rows := rows[a := rows[a] + [alt]];
      index := index[a := index[a] + [|landPoints| / 3]];
      var p := Position(trig, cfg.radius, cfg.heightScale, alt, angleA, angleB);
      landPoints := landPoints + [p[0]];
      landPoints := landPoints + [p[1]];
      landPoints := landPoints + [p[2]];
      PushThree(landPoints1, p[0], p[1], p[2]);
      assert [p[0], p[1], p[2]] == p;
      StoredNewVertex(landPoints1, p, VertexId(a, b, latRes));
      assert index[a][b] == VertexId(a, b, latRes);
      assert rows[a][b] == VertexAlt(noise, cfg, sb, a, b);
      KeepAllDone(noise, trig, cfg, sb, landPoints1, index1, rows1, landPoints, index, rows, a, b);
    }
    ColumnStart(a, latRes);
  }

  /** The `globe` object: its settings and the altitude table `points`. */
  class Globe {
    var config: Config
    var points: seq<seq<real>>

    /** The literal `globe = {...}`: default settings, no altitudes. */
    constructor ()
      ensures config == DEFAULT && points == []
    {
      config, points := DEFAULT, [];
    }

    /** The start-up loop that sets `points[a][b] = 0` for `a < longitudeRes`
        and `b < latitudeRes`; rows from `longitudeRes` on are kept. */
    method ResetPoints()
      modifies this
      ensures config == old(config)
      ensures |points| == Max(|old(points)|, config.longitudeRes)
      ensures forall a :: 0 <= a < config.longitudeRes ==> Zeros(points[a], config.latitudeRes)
      ensures forall a :: config.longitudeRes <= a < |old(points)| ==> points[a] == old(points[a])
    {
      var lonRes, latRes := config.longitudeRes, config.latitudeRes;
      for a := 0 to lonRes
        invariant config == old(config)
        invariant |points| == Max(|old(points)|, a)
        invariant forall i :: 0 <= i < a ==> Zeros(points[i], latRes)
        invariant forall i :: a <= i < |old(points)| ==> points[i] == old(points[i])
      {
        points := Put(points, a, []);
        for b := 0 to latRes
          invariant config == old(config)
          invariant |points| == Max(|old(points)|, a + 1)
          invariant forall i :: 0 <= i < a ==> Zeros(points[i], latRes)
          invariant Zeros(points[a], b)
          invariant forall i :: a < i < |old(points)| ==> points[i] == old(points[i])
        {
          points := points[a := points[a] + [0.0]];
        }
      }
    }

    /** The vertex loop of `generateGlobe`: for every column `a`, reset
        `points[a]` and `index[a]` and run the column's inner loop. */
    method BuildVertices(noise: NoiseField, sb: real, trig: Trig)
      returns (landPoints: seq<real>, index: seq<seq<nat>>)
      requires config.Caps(sb).Valid() && 0 < config.latitudeRes
      modifies this
      ensures config == old(config)
      ensures VerticesBuilt(noise, trig, config, sb, landPoints, index, points, old(points))
    {
      var cfg := config;
      var lonRes, latRes := cfg.longitudeRes, cfg.latitudeRes;
      var rows := points;
      landPoints, index := [], [];
      for a := 0 to lonRes
        invariant config == cfg && points == old(points)
        invariant |landPoints| == 3 * VertexId(a, 0, latRes)
        invariant |index| == a
        invariant |rows| == Max(|old(points)|, a)
        invariant forall i :: 0 <= i < a ==> |index[i]| == latRes + 1 && |rows[i]| == latRes + 1
        invariant forall i, j :: 0 <= i < a && 0 <= j <= latRes ==>
                    VertexDone(noise, trig, cfg, sb, landPoints, index, rows, i, j)
        invariant forall i :: a <= i < |old(points)| ==> rows[i] == old(points[i])
      {
        ghost var index0, rows0 := index, rows;
        rows := Put(rows, a, []);
        index := index + [[]];
        forall i, j | 0 <= i < a && 0 <= j <= latRes
          ensures VertexDone(noise, trig, cfg, sb, landPoints, index, rows, i, j)
        {
          KeepDone(noise, trig, cfg, sb, landPoints, index0, rows0, landPoints, index, rows, i, j);
        }
        landPoints, index, rows := BuildColumn(noise, trig, cfg, sb, a, landPoints, index, rows);
      }
      // `rows` is `globe.points` itself; nothing else reads it during the loop.
      points := rows;
      forall i, j | 0 <= i < lonRes && 0 <= j <= latRes
        ensures index[i][j] == VertexId(i, j, latRes)
      {
        assert VertexDone(noise, trig, cfg, sb, landPoints, index, rows, i, j);
      }
    }

    /** `getMaxAlt`: the largest entry of the jagged `points` table, or 0 if
        every entry is at most 0. */
    method GetMaxAlt() returns (max: real)
      ensures max >= 0.0
      ensures forall a, b :: 0 <= a < |points| && 0 <= b < |points[a]| ==> points[a][b] <= max
      ensures max == 0.0 || exists a, b :: 0 <= a < |points| && 0 <= b < |points[a]| && points[a][b] == max
    {
      max := 0.0;
      for a := 0 to |points|
        invariant max >= 0.0
        invariant forall i, j :: 0 <= i < a && 0 <= j < |points[i]| ==> points[i][j] <= max
        invariant max == 0.0 || exists i, j :: 0 <= i < a && 0 <= j < |points[i]| && points[i][j] == max
      {
        for b := 0 to |points[a]|
          invariant max >= 0.0
          invariant forall i, j :: 0 <= i < a && 0 <= j < |points[i]| ==> points[i][j] <= max
          invariant forall j :: 0 <= j < b ==> points[a][j] <= max
          invariant max == 0.0 || exists i, j :: 0 <= i <= a && 0 <= j < |points[i]| && points[i][j] == max
        {
          if points[a][b] > max {
            max := points[a][b];
          }
        }
      }
    }

    /** `generateGlobe`: vertices, faces and the painted texture. `seamCoin`
        gives the seam draws, `sb` the square root on the cap settings. */
    method GenerateGlobe(noise: NoiseField, sb: real, trig: Trig, seamCoin: nat -> bool)
      returns (landPoints: seq<real>, facesIndex: seq<nat>, landColor: array2<ColourRamp.Rgb>)
      requires config.Caps(sb).Valid() && 0 < config.latitudeRes
      modifies this
      ensures config == old(config)
      ensures fresh(landColor)
      ensures exists index :: VerticesBuilt(noise, trig, config, sb, landPoints, index, points, old(points))
      ensures facesIndex == Faces(config.longitudeRes, config.latitudeRes, seamCoin)
      ensures |facesIndex| == 6 * config.longitudeRes * config.latitudeRes
      ensures forall k :: 0 <= k < |facesIndex| ==> facesIndex[k] < VertexCount(config.longitudeRes, config.latitudeRes)
      ensures landColor.Length0 == config.gLongitudeRes && landColor.Length1 == config.gLatitudeRes
      ensures forall a, b :: 0 <= a < landColor.Length0 && 0 <= b < landColor.Length1 ==>
                landColor[a, b] == Texture.PixelColour(noise, config.Caps(sb), a, b, landColor.Length0, landColor.Length1)
    {
      var index;
      landPoints, index := BuildVertices(noise, sb, trig);
      facesIndex := BuildFaces(index, config.longitudeRes, config.latitudeRes, seamCoin);
      landColor := new ColourRamp.Rgb[config.gLongitudeRes, config.gLatitudeRes]((a, b) => ColourRamp.BLACK);
      Texture.PaintTexture(landColor, noise, config.Caps(sb));
    }
  }

  lemma {:induction false} PushThree(s: seq<real>, x: real, y: real, z: real)
    ensures s + [x] + [y] + [z] == s + [x, y, z]
  {
  }

  /** The three new entries are vertex `k`'s. */
  lemma {:induction false} StoredNewVertex(prev: seq<real>, p: seq<real>, k: nat)
    requires |prev| == 3 * k && |p| == 3
    ensures Stored(prev + p, k, p)
  {
    assert (prev + p)[3 * k .. 3 * k + 3] == p;
  }
}
