/** The sample angles of `generateGlobe`: the latitude of a row, shared by
    the vertex grid and the texture, and the longitudes of a vertex column
    and of a texture column. */
module Angles {
  import opened Basics

  /** `Math.PI` as a double. */
  const PI: real := 3.141592653589793

  /** The latitude `(b / rows - 0.5) * PI` of row `b` of `rows`, from the
      south pole at row 0 to the north pole at row `rows`. */
  function Latitude(b: nat, rows: nat): (y: real)
    requires 0 < rows && b <= rows
    ensures -PI / 2.0 <= y <= PI / 2.0
    ensures y < 0.0 <==> 2 * b < rows
  {
    var f := b as real / rows as real;
    FractionBounds(b, rows);
    (f - 0.5) * PI
  }

  lemma FractionBounds(b: nat, rows: nat)
    requires 0 < rows
    ensures 0.0 <= b as real / rows as real
    ensures b <= rows ==> b as real / rows as real <= 1.0
    ensures b < rows ==> b as real / rows as real < 1.0
    ensures b as real / rows as real < 0.5 <==> 2 * b < rows
  {
    var x, n := b as real, rows as real;
    QuotientBelow(x, n, 0.0);
    QuotientAbove(x, n, 1.0);
    QuotientBelow(x, n, 1.0);
    QuotientBelow(x, n, 0.5);
    assert (2 * b) as real == 2.0 * x;
  }

  /** The longitude `(a / columns * 2 - 1) * PI` of vertex column `a`: the
      columns start at -PI and stop short of PI. */
  function GridLongitude(a: nat, columns: nat): (x: real)
    requires 0 < columns
    ensures a < columns ==> -PI <= x < PI
  {
    FractionBounds(a, columns);
    (a as real / columns as real * 2.0 - 1.0) * PI
  }

  /** The longitude `(a / columns * 2) * PI` of texture column `a`; it is
      half a turn ahead of the vertex grid's. */
  function TextureLongitude(a: nat, columns: nat): (x: real)
    requires 0 < columns
    ensures x == GridLongitude(a, columns) + PI
  {
    (a as real / columns as real * 2.0) * PI
  }
}
