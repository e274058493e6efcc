/** Small shared facts: maxima and minima, the JavaScript array assignment
    `s[i] = v`, and the real-arithmetic steps the solver does not find alone. */
module Basics {

  function Max(x: int, y: int): int { if x < y then y else x }

  function MaxReal(x: real, y: real): real { if x < y then y else x }

  function MinReal(x: real, y: real): real { if x < y then x else y }

  /** `s` with position `i` set to `v`: a JavaScript array assignment, which
      appends when `i` is one past the end. */
  function Put<T>(s: seq<T>, i: nat, v: T): (r: seq<T>)
    requires i <= |s|
    ensures |r| == Max(|s|, i + 1)
    ensures r[i] == v
    ensures forall j :: 0 <= j < |s| && j != i ==> r[j] == s[j]
  {
    if i < |s| then s[i := v] else s + [v]
  }

  lemma MulNonNeg(a: real, b: real)
    requires a >= 0.0 && b >= 0.0
    ensures a * b >= 0.0
  {
  }

  lemma MulPositive(a: real, b: real)
    requires a > 0.0 && b > 0.0
    ensures a * b > 0.0
  {
  }

  lemma ScaleStrict(x: real, y: real, n: real)
    requires x < y && 0.0 < n
    ensures x * n < y * n
  {
  }

  lemma ScaleWeak(x: real, y: real, n: real)
    requires x <= y && 0.0 < n
    ensures x * n <= y * n
  {
  }

  /** `x / n < c` exactly when `x < c * n`, for a positive `n`. */
  lemma QuotientBelow(x: real, n: real, c: real)
    requires 0.0 < n
    ensures x / n < c <==> x < c * n
  {
    var f := x / n;
    assert f * n == x;
    if f < c {
      ScaleStrict(f, c, n);
    } else {
      ScaleWeak(c, f, n);
    }
  }

  /** `c < x / n` exactly when `c * n < x`, for a positive `n`. */
  lemma QuotientAbove(x: real, n: real, c: real)
    requires 0.0 < n
    ensures c < x / n <==> c * n < x
  {
    var f := x / n;
    assert f * n == x;
    if c < f {
      ScaleStrict(c, f, n);
    } else {
      ScaleWeak(f, c, n);
    }
  }
}
