/** The connectivity half of `generateGlobe`: the vertex numbering of the
    longitude x latitude grid and the triangle index list `facesIndex`. */
module Mesh {

  /** The id `index[a][b]` of the vertex in column `a`, row `b`: vertices
      are numbered column by column, `latRes + 1` rows per column. */
  function VertexId(a: nat, b: nat, latRes: nat): nat
  {
    a * (latRes + 1) + b
  }

  /** The number of vertices `generateGlobe` emits. */
  function VertexCount(lonRes: nat, latRes: nat): nat
  {
    lonRes * (latRes + 1)
  }

  lemma {:induction false} MulLeft(x: nat, y: nat, k: nat)
    requires x <= y
    ensures x * k <= y * k
  {
  }

  /** Distinct grid positions get distinct ids, and every id is below the
      vertex count. */
  lemma {:induction false} VertexIdInjective(a1: nat, b1: nat, a2: nat, b2: nat, latRes: nat)
    requires b1 <= latRes && b2 <= latRes
    ensures VertexId(a1, b1, latRes) == VertexId(a2, b2, latRes) <==> a1 == a2 && b1 == b2
  {
    if a1 < a2 {
      MulLeft(a1 + 1, a2, latRes + 1);
    } else if a2 < a1 {
      MulLeft(a2 + 1, a1, latRes + 1);
    }
  }

  lemma {:induction false} VertexIdBelowCount(a: nat, b: nat, lonRes: nat, latRes: nat)
    requires a < lonRes && b <= latRes
    ensures VertexId(a, b, latRes) < VertexCount(lonRes, latRes)
  {
    MulLeft(a + 1, lonRes, latRes + 1);
  }

  /** `index` is the table the vertex loop builds: `index[a][b] == VertexId(a, b)`. */
  ghost predicate IndexLayout(index: seq<seq<nat>>, lonRes: nat, latRes: nat)
  {
    && |index| == lonRes
    && (forall a :: 0 <= a < lonRes ==> |index[a]| == latRes + 1)
    && (forall a, b :: 0 <= a < lonRes && 0 <= b <= latRes ==> index[a][b] == VertexId(a, b, latRes))
  }

  /** The column next to `a` around the globe: the last column wraps to 0. */
  function NextColumn(a: nat, lonRes: nat): nat
    requires a < lonRes
  {
    if a == lonRes - 1 then 0 else a + 1
  }

  /** The six indices (two triangles) emitted for cell `(a, b)`. On the seam
      column `coin` is the `Math.random() < 0.5` draw; elsewhere the source
      tests `Math.random < 0.5`, a comparison of the function object itself,
      which is always false, so the second pair is always taken. */
  function CellFaces(a: nat, b: nat, lonRes: nat, latRes: nat, coin: bool): (f: seq<nat>)
    requires a < lonRes && b < latRes
    ensures |f| == 6
  {
    var here, up := VertexId(a, b, latRes), VertexId(a, b + 1, latRes);
    if a == lonRes - 1 then
      var seam, seamUp := VertexId(0, b, latRes), VertexId(0, b + 1, latRes);
      if coin then [here, up, seam, seamUp, seam, up]
      else [here, up, seamUp, seamUp, seam, here]
    else
      var next, nextUp := VertexId(a + 1, b, latRes), VertexId(a + 1, b + 1, latRes);
      [here, up, nextUp, nextUp, next, here]
  }

  /** `v` is one of the four corners of cell `(a, b)`. */
  predicate IsCorner(v: nat, a: nat, b: nat, lonRes: nat, latRes: nat)
    requires a < lonRes
  {
    var n := NextColumn(a, lonRes);
    v == VertexId(a, b, latRes) || v == VertexId(a, b + 1, latRes) ||
    v == VertexId(n, b, latRes) || v == VertexId(n, b + 1, latRes)
  }

  /** The corners of cell `(a, b)` as a set. */
  function Corners(a: nat, b: nat, lonRes: nat, latRes: nat): set<nat>
    requires a < lonRes
  {
    var n := NextColumn(a, lonRes);
    {VertexId(a, b, latRes), VertexId(a, b + 1, latRes), VertexId(n, b, latRes), VertexId(n, b + 1, latRes)}
  }

  /** Every index of a cell names one of its four corners: rows `b` and
      `b + 1`, columns `a` and the next column (0 on the seam); each id is
      below the vertex count. */
  lemma {:induction false} CellUsesCorners(a: nat, b: nat, lonRes: nat, latRes: nat, coin: bool)
    requires a < lonRes && b < latRes
    ensures forall j :: 0 <= j < 6 ==>
      var f := CellFaces(a, b, lonRes, latRes, coin);
      IsCorner(f[j], a, b, lonRes, latRes) && f[j] < VertexCount(lonRes, latRes)
  {
    var n := NextColumn(a, lonRes);
    VertexIdBelowCount(a, b, lonRes, latRes);
    VertexIdBelowCount(a, b + 1, lonRes, latRes);
    VertexIdBelowCount(n, b, lonRes, latRes);
    VertexIdBelowCount(n, b + 1, lonRes, latRes);
  }

  /** With at least two columns each cell is a proper quadrilateral split
      along one diagonal: both triangles have three distinct corners and
      together they cover all four. Off the seam the split never depends on
      the random draw. */
  lemma {:induction false} CellSplitsQuad(a: nat, b: nat, lonRes: nat, latRes: nat, coin: bool)
    requires 2 <= lonRes && a < lonRes && b < latRes
    ensures var f := CellFaces(a, b, lonRes, latRes, coin);
      && f[0] != f[1] && f[1] != f[2] && f[0] != f[2]
      && f[3] != f[4] && f[4] != f[5] && f[3] != f[5]
      && {f[0], f[1], f[2]} + {f[3], f[4], f[5]} == Corners(a, b, lonRes, latRes)
      && |Corners(a, b, lonRes, latRes)| == 4
    ensures a < lonRes - 1 ==>
      CellFaces(a, b, lonRes, latRes, coin) == CellFaces(a, b, lonRes, latRes, !coin)
  {
    var n := NextColumn(a, lonRes);
    assert n != a;
    VertexIdInjective(a, b, a, b + 1, latRes);
    VertexIdInjective(a, b, n, b, latRes);
    VertexIdInjective(a, b, n, b + 1, latRes);
    VertexIdInjective(a, b + 1, n, b, latRes);
    VertexIdInjective(a, b + 1, n, b + 1, latRes);
    VertexIdInjective(n, b, n, b + 1, latRes);
  }

  /** The indices of cells `(a, 0) .. (a, b - 1)`, in emission order. */
  function ColumnFaces(a: nat, b: nat, lonRes: nat, latRes: nat, seamCoin: nat -> bool): seq<nat>
    requires a < lonRes && b <= latRes
  {
    if b == 0 then []
    else ColumnFaces(a, b - 1, lonRes, latRes, seamCoin) + CellFaces(a, b - 1, lonRes, latRes, seamCoin(b - 1))
  }

  /** The indices of columns `0 .. a - 1`, in emission order. */
  function FacesUpTo(a: nat, lonRes: nat, latRes: nat, seamCoin: nat -> bool): seq<nat>
    requires a <= lonRes
  {
    if a == 0 then []
    else FacesUpTo(a - 1, lonRes, latRes, seamCoin) + ColumnFaces(a - 1, latRes, lonRes, latRes, seamCoin)
  }

  /** The whole `facesIndex` list; `seamCoin(b)` is the draw made for the
      seam cell in row `b`. */
  function Faces(lonRes: nat, latRes: nat, seamCoin: nat -> bool): seq<nat>
  {
    FacesUpTo(lonRes, lonRes, latRes, seamCoin)
  }

  /** An entry of `q` inside a sequence that starts with `p + q`. */
  lemma {:induction false} AppendAt(p: seq<nat>, q: seq<nat>, t: seq<nat>, m: nat)
    requires p + q <= t && m < |q|
    ensures |p| + m < |t| && t[|p| + m] == q[m]
  {
    assert (p + q)[|p| + m] == q[m];
  }

  /** Emitting more cells only appends. */
  lemma {:induction false} ColumnFacesPrefix(a: nat, c: nat, b: nat, lonRes: nat, latRes: nat, seamCoin: nat -> bool)
    requires a < lonRes && c <= b <= latRes
    ensures ColumnFaces(a, c, lonRes, latRes, seamCoin) <= ColumnFaces(a, b, lonRes, latRes, seamCoin)
    decreases b
  {
    if c < b {
      ColumnFacesPrefix(a, c, b - 1, lonRes, latRes, seamCoin);
    }
  }

  lemma {:induction false} FacesUpToPrefix(c: nat, a: nat, lonRes: nat, latRes: nat, seamCoin: nat -> bool)
    requires c <= a <= lonRes
    ensures FacesUpTo(c, lonRes, latRes, seamCoin) <= FacesUpTo(a, lonRes, latRes, seamCoin)
    decreases a
  {
    if c < a {
      FacesUpToPrefix(c, a - 1, lonRes, latRes, seamCoin);
    }
  }

  /** Within column `a`, cell `c`'s six indices follow the cells before it. */
  lemma {:induction false} ColumnFacesAt(a: nat, b: nat, lonRes: nat, latRes: nat, seamCoin: nat -> bool, c: nat, j: nat)
    requires a < lonRes && c < b <= latRes && j < 6
    ensures |ColumnFaces(a, c, lonRes, latRes, seamCoin)| + j < |ColumnFaces(a, b, lonRes, latRes, seamCoin)|
    ensures ColumnFaces(a, b, lonRes, latRes, seamCoin)[|ColumnFaces(a, c, lonRes, latRes, seamCoin)| + j]
              == CellFaces(a, c, lonRes, latRes, seamCoin(c))[j]
  {
    ColumnFacesPrefix(a, c + 1, b, lonRes, latRes, seamCoin);
    var before := ColumnFaces(a, c, lonRes, latRes, seamCoin);
    var cell := CellFaces(a, c, lonRes, latRes, seamCoin(c));
    assert ColumnFaces(a, c + 1, lonRes, latRes, seamCoin) == before + cell;
    AppendAt(before, cell, ColumnFaces(a, b, lonRes, latRes, seamCoin), j);
  }

  /** Within the first `a` columns, column `c`'s indices follow the columns
      before it. */
  lemma {:induction false} FacesUpToAt(a: nat, lonRes: nat, latRes: nat, seamCoin: nat -> bool, c: nat, m: nat)
    requires c < a <= lonRes && m < |ColumnFaces(c, latRes, lonRes, latRes, seamCoin)|
    ensures |FacesUpTo(c, lonRes, latRes, seamCoin)| + m < |FacesUpTo(a, lonRes, latRes, seamCoin)|
    ensures FacesUpTo(a, lonRes, latRes, seamCoin)[|FacesUpTo(c, lonRes, latRes, seamCoin)| + m]
              == ColumnFaces(c, latRes, lonRes, latRes, seamCoin)[m]
  {
    FacesUpToPrefix(c + 1, a, lonRes, latRes, seamCoin);
    var prefix := FacesUpTo(c, lonRes, latRes, seamCoin);
    var column := ColumnFaces(c, latRes, lonRes, latRes, seamCoin);
    assert FacesUpTo(c + 1, lonRes, latRes, seamCoin) == prefix + column;
    AppendAt(prefix, column, FacesUpTo(a, lonRes, latRes, seamCoin), m);
  }

  lemma {:induction false} ColumnFacesLength(a: nat, b: nat, lonRes: nat, latRes: nat, seamCoin: nat -> bool)
    requires a < lonRes && b <= latRes
    ensures |ColumnFaces(a, b, lonRes, latRes, seamCoin)| == 6 * b
  {
    if b > 0 {
      ColumnFacesLength(a, b - 1, lonRes, latRes, seamCoin);
    }
  }

  lemma {:induction false} FacesUpToLength(a: nat, lonRes: nat, latRes: nat, seamCoin: nat -> bool)
    requires a <= lonRes
    ensures |FacesUpTo(a, lonRes, latRes, seamCoin)| == 6 * a * latRes
  {
    if a > 0 {
      var prefix := FacesUpTo(a - 1, lonRes, latRes, seamCoin);
      var column := ColumnFaces(a - 1, latRes, lonRes, latRes, seamCoin);
      assert FacesUpTo(a, lonRes, latRes, seamCoin) == prefix + column;
      FacesUpToLength(a - 1, lonRes, latRes, seamCoin);
      ColumnFacesLength(a - 1, latRes, lonRes, latRes, seamCoin);
      ColumnsLength(a, latRes);
    }
  }

  lemma {:induction false} ColumnsLength(a: nat, latRes: nat)
    requires a > 0
    ensures 6 * (a - 1) * latRes + 6 * latRes == 6 * a * latRes
  {
  }

  /** `facesIndex` has `6 * lonRes * latRes` entries, and cell `(a, b)`'s two
      triangles are entries `6 * (a * latRes + b) .. + 5`. */
  lemma {:induction false} FacesLayout(lonRes: nat, latRes: nat, seamCoin: nat -> bool, a: nat, b: nat, j: nat)
    requires a < lonRes && b < latRes && j < 6
    ensures |Faces(lonRes, latRes, seamCoin)| == 6 * lonRes * latRes
    ensures 6 * (a * latRes + b) + j < |Faces(lonRes, latRes, seamCoin)|
    ensures Faces(lonRes, latRes, seamCoin)[6 * (a * latRes + b) + j]
              == CellFaces(a, b, lonRes, latRes, seamCoin(b))[j]
  {
    FacesUpToLength(lonRes, lonRes, latRes, seamCoin);
    ghost var prefix := FacesUpTo(a, lonRes, latRes, seamCoin);
    ghost var column := ColumnFaces(a, latRes, lonRes, latRes, seamCoin);
    ghost var m := 6 * b + j;
    FacesUpToLength(a, lonRes, latRes, seamCoin);
    ColumnFacesLength(a, b, lonRes, latRes, seamCoin);
    ColumnFacesAt(a, latRes, lonRes, latRes, seamCoin, b, j);
    assert column[m] == CellFaces(a, b, lonRes, latRes, seamCoin(b))[j];
    FacesUpToAt(lonRes, lonRes, latRes, seamCoin, a, m);
    assert Faces(lonRes, latRes, seamCoin)[|prefix| + m] == column[m];
    CellOffset(a, b, j, latRes);
    assert |prefix| + m == 6 * (a * latRes + b) + j;
  }

  lemma {:induction false} CellOffset(a: nat, b: nat, j: nat, latRes: nat)
    ensures 6 * (a * latRes + b) + j == 6 * a * latRes + (6 * b + j)
  {
  }

  /** `facesIndex` has `6 * lonRes * latRes` entries, six per cell. */
  lemma {:induction false} FacesLength(lonRes: nat, latRes: nat, seamCoin: nat -> bool)
    ensures |Faces(lonRes, latRes, seamCoin)| == 6 * lonRes * latRes
  {
    FacesUpToLength(lonRes, lonRes, latRes, seamCoin);
  }

  /** Every entry of `facesIndex` names an existing vertex. */
  lemma {:induction false} FacesEntriesBelowCount(lonRes: nat, latRes: nat, seamCoin: nat -> bool)
    ensures forall k :: 0 <= k < |Faces(lonRes, latRes, seamCoin)| ==>
              Faces(lonRes, latRes, seamCoin)[k] < VertexCount(lonRes, latRes)
  {
    var f := Faces(lonRes, latRes, seamCoin);
    FacesBelowCount(lonRes, lonRes, latRes, seamCoin);
    forall k | 0 <= k < |f| ensures f[k] < VertexCount(lonRes, latRes) {
      assert f[k] in f;
    }
  }

  /** Every entry of the first `a` columns names an existing vertex. */
  lemma {:induction false} FacesBelowCount(a: nat, lonRes: nat, latRes: nat, seamCoin: nat -> bool)
    requires a <= lonRes
    ensures forall v :: v in FacesUpTo(a, lonRes, latRes, seamCoin) ==> v < VertexCount(lonRes, latRes)
  {
    if a > 0 {
      FacesBelowCount(a - 1, lonRes, latRes, seamCoin);
      ColumnBelowCount(a - 1, latRes, lonRes, latRes, seamCoin);
    }
  }

  lemma {:induction false} ColumnBelowCount(a: nat, b: nat, lonRes: nat, latRes: nat, seamCoin: nat -> bool)
    requires a < lonRes && b <= latRes
    ensures forall v :: v in ColumnFaces(a, b, lonRes, latRes, seamCoin) ==> v < VertexCount(lonRes, latRes)
  {
    if b > 0 {
      ColumnBelowCount(a, b - 1, lonRes, latRes, seamCoin);
      CellUsesCorners(a, b - 1, lonRes, latRes, seamCoin(b - 1));
    }
  }

  lemma {:induction false} Associate(p: seq<nat>, q: seq<nat>, r: seq<nat>)
    ensures (p + q) + r == p + (q + r)
  {
  }

  /** The four `index` entries a cell reads are its corner ids. */
  lemma {:induction false} CornerIds(index: seq<seq<nat>>, lonRes: nat, latRes: nat, a: nat, b: nat)
    requires IndexLayout(index, lonRes, latRes) && a < lonRes && b < latRes
    ensures var n := NextColumn(a, lonRes);
      && index[a][b] == VertexId(a, b, latRes) && index[a][b + 1] == VertexId(a, b + 1, latRes)
      && index[n][b] == VertexId(n, b, latRes) && index[n][b + 1] == VertexId(n, b + 1, latRes)
  {
  }

  /** The face loop of `generateGlobe`: for every cell, column by column, six
      pushes of `index` entries; the seam column wraps to column 0 and uses
      one draw of `seamCoin` per row. */
  method BuildFaces(index: seq<seq<nat>>, lonRes: nat, latRes: nat, seamCoin: nat -> bool)
    returns (facesIndex: seq<nat>)
    requires IndexLayout(index, lonRes, latRes)
    ensures facesIndex == Faces(lonRes, latRes, seamCoin)
    ensures |facesIndex| == 6 * lonRes * latRes
    ensures forall k :: 0 <= k < |facesIndex| ==> facesIndex[k] < VertexCount(lonRes, latRes)
  {
    facesIndex := [];
    for a := 0 to lonRes
      invariant facesIndex == FacesUpTo(a, lonRes, latRes, seamCoin)
    {
      ghost var before := facesIndex;
      for b := 0 to latRes
        invariant facesIndex == before + ColumnFaces(a, b, lonRes, latRes, seamCoin)
      {
        ghost var cell := CellFaces(a, b, lonRes, latRes, seamCoin(b));
        ghost var start := facesIndex;
        CornerIds(index, lonRes, latRes, a, b);
        var v0, v1, v2, v3, v4, v5;
        if a == lonRes - 1 {
          if seamCoin(b) {
            v0, v1, v2 := index[a][b], index[a][b + 1], index[0][b];
            v3, v4, v5 := index[0][b + 1], index[0][b], index[a][b + 1];
          } else {
            v0, v1, v2 := index[a][b], index[a][b + 1], index[0][b + 1];
            v3, v4, v5 := index[0][b + 1], index[0][b], index[a][b];
          }
        } else {
          v0, v1, v2 := index[a][b], index[a][b + 1], index[a + 1][b + 1];
          v3, v4, v5 := index[a + 1][b + 1], index[a + 1][b], index[a][b];
        }
        assert [v0, v1, v2] + [v3, v4, v5] == cell;
        facesIndex := facesIndex + [v0, v1, v2];
        facesIndex := facesIndex + [v3, v4, v5];
        Associate(start, [v0, v1, v2], [v3, v4, v5]);
        Associate(before, ColumnFaces(a, b, lonRes, latRes, seamCoin), cell);
      }
    }
    FacesLength(lonRes, latRes, seamCoin);
    FacesEntriesBelowCount(lonRes, latRes, seamCoin);
  }
}