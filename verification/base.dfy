/** Shared vocabulary: an Option type for the source's null pointers and
    "not found" results, and the scalar helpers the C++ code takes from
    <algorithm> and from its integer casts. */
module Base {

  /** A value that may be absent (a null pointer, a missing map entry). */
  datatype Option<+T> = None | Some(value: T)

  /** `FLT_MAX`, the largest finite single-precision float: the start of
      the source's minimum searches and its stand-in for "no distance". */
  const FltMax: real := 340282346638528859811704183484516925440.0

  function Min(a: real, b: real): (r: real)
    ensures r <= a && r <= b
    ensures r == a || r == b
  {
    if a <= b then a else b
  }

  function Max(a: real, b: real): (r: real)
    ensures r >= a && r >= b
    ensures r == a || r == b
  {
    if a >= b then a else b
  }

  function Min3(a: real, b: real, c: real): (r: real)
    ensures r <= a && r <= b && r <= c
    ensures r == a || r == b || r == c
  {
    Min(Min(a, b), c)
  }

  function Max3(a: real, b: real, c: real): (r: real)
    ensures r >= a && r >= b && r >= c
    ensures r == a || r == b || r == c
  {
    Max(Max(a, b), c)
  }

  function Abs(a: real): (r: real)
    ensures r >= 0.0
    ensures r == a || r == -a
  {
    if a < 0.0 then -a else a
  }

  /** `std::min` and `std::max` on the terrain's integer cell indices.
      `Min` and `Max` above are their `float` instances; Dafny has no
      ordering on a type parameter, so the two instances are spelled out. */
  function IMin(a: int, b: int): (r: int)
    ensures r <= a && r <= b
    ensures r == a || r == b
  {
    if a <= b then a else b
  }

  function IMax(a: int, b: int): (r: int)
    ensures r >= a && r >= b
    ensures r == a || r == b
  {
    if a >= b then a else b
  }

  /** A C++ `(int)` cast of a float: truncation toward zero. The result has
      the sign of `x` and lies within one unit of it, on the side of zero. */
  function Trunc(x: real): (r: int)
    ensures x >= 0.0 ==> 0 <= r && r as real <= x < r as real + 1.0
    ensures x < 0.0 ==> r <= 0 && r as real - 1.0 < x <= r as real
  {
    if x >= 0.0 then x.Floor else -((-x).Floor)
  }

  /** For non-negative arguments truncation is the floor, so it is monotone. */
  lemma TruncMonotoneNonNeg(a: real, b: real)
    requires 0.0 <= a <= b
    ensures Trunc(a) <= Trunc(b)
  {
  }

  /** Truncation of anything in (-1, 1) is zero: the reason an origin less
      than one cell to the left of the grid still lands in cell 0. */
  lemma TruncNearZero(x: real)
    requires -1.0 < x < 1.0
    ensures Trunc(x) == 0
  {
  }

  /** Multiplying both sides of an inequality by a positive factor. */
  lemma MulPos(a: real, b: real, y: real)
    requires y > 0.0
    ensures a <= b ==> a * y <= b * y
    ensures a < b ==> a * y < b * y
  {
  }

  /** A quotient of a value in [0, w] by w > 0 lies in [0, 1]. */
  lemma DivUnit(x: real, w: real)
    requires w > 0.0
    ensures 0.0 <= x <= w ==> 0.0 <= x / w <= 1.0
  {
  }

  /** C `fmod`: the remainder takes the sign of the dividend. */
  function FMod(x: real, y: real): (r: real)
    requires y > 0.0
    ensures x >= 0.0 ==> 0.0 <= r < y
    ensures x < 0.0 ==> -y < r <= 0.0
    ensures MultipleOf(x - r, y)
  {
    FModBounds(x, y);
    var q := Trunc(x / y);
    WholeMultiple(y, q);
    x - y * q as real
  }

  lemma WholeMultiple(y: real, q: int)
    requires y != 0.0
    ensures MultipleOf(y * q as real, y)
  {
    assert (y * q as real) / y == q as real;
  }

  /** `d` is a whole number of `y`s. */
  predicate MultipleOf(d: real, y: real)
    requires y != 0.0
  {
    (d / y).Floor as real == d / y
  }

  /** Scaling a quotient back: if `x == z * y` with `y > 0`, bounds on `z`
      become bounds on `x`. */
  lemma ScaledBounds(x: real, y: real, z: real, lo: real, hi: real)
    requires y > 0.0 && x == z * y
    ensures lo <= z ==> lo * y <= x
    ensures lo < z ==> lo * y < x
    ensures z <= hi ==> x <= hi * y
    ensures z < hi ==> x < hi * y
  {
    MulPos(lo, z, y);
    MulPos(z, hi, y);
  }

  lemma FModBounds(x: real, y: real)
    requires y > 0.0
    ensures var r := x - y * Trunc(x / y) as real;
            (x >= 0.0 ==> 0.0 <= r < y) && (x < 0.0 ==> -y < r <= 0.0)
  {
    var z := x / y;
    var qr := Trunc(z) as real;
    assert z * y == x;
    assert (qr + 1.0) * y == y * qr + y;
    assert (qr - 1.0) * y == y * qr - y;
    assert qr * y == y * qr;
    ScaledBounds(x, y, z, qr - 1.0, qr + 1.0);
    ScaledBounds(x, y, z, qr, qr);
  }
}
