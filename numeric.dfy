/**
 * Numeric conventions shared by the C# and C++ parts of the renderer.
 *
 * Every scalar is modelled as a `real`. The places where the programs turn a
 * floating-point value into an integer are written out here once:
 *  - `Floor` / `Ceil` are `Math.Floor` / `std::floor` and `std::ceil`;
 *  - `TruncToInt` is a C or C# cast `(int)x`, which truncates toward zero;
 *  - `RoundHalfEven` is .NET's default rounding (`Convert.ToInt32(double)`,
 *    `Math.Round`), which sends a tie to the even neighbour;
 *  - `TruncMod` is the `%` of C, C++ and C#, whose result takes the sign of
 *    the dividend (Dafny's own `%` is Euclidean).
 * Transcendental functions (square root, logarithm, sine, cosine, cube root)
 * are parameters of the members that use them; `IsSqrt` states what a square
 * root has to satisfy for the lemmas that need it.
 */
module Numeric {

  function Floor(x: real): (n: int)
    ensures n as real <= x < n as real + 1.0
  {
    x.Floor
  }

  function Ceil(x: real): (n: int)
    ensures n as real - 1.0 < x <= n as real
  {
    -((-x).Floor)
  }

  /** The C/C# conversion `(int)x`: drop the fraction, toward zero. */
  function TruncToInt(x: real): (n: int)
    ensures 0.0 <= x ==> 0 <= n && n as real <= x < n as real + 1.0
    ensures x < 0.0 ==> n <= 0 && n as real - 1.0 < x <= n as real
  {
    if x >= 0.0 then x.Floor else -((-x).Floor)
  }

  /** .NET's `Convert.ToInt32(double)`: nearest integer, ties to the even one. */
  function RoundHalfEven(x: real): (n: int)
    ensures x - 0.5 <= n as real <= x + 0.5
  {
    var f := x.Floor;
    var d := x - f as real;
    if d < 0.5 then f
    else if d > 0.5 then f + 1
    else if f % 2 == 0 then f
    else f + 1
  }

  /** Rounding never reverses the order of its arguments. */
  lemma RoundHalfEvenMonotone(x: real, y: real)
    requires x <= y
    ensures RoundHalfEven(x) <= RoundHalfEven(y)
  {
    var fx, fy := x.Floor, y.Floor;
    assert fx <= fy;
    if fx < fy {
      if fx + 1 < fy {
        assert RoundHalfEven(x) <= fx + 1 <= fy - 1 < fy <= RoundHalfEven(y);
      } else {
        // The floors are neighbours: x rounds to at most fx + 1 = fy.
        assert RoundHalfEven(x) <= fy <= RoundHalfEven(y);
      }
    }
  }

  /** A whole number rounds to itself. */
  lemma RoundHalfEvenOfInt(n: int)
    ensures RoundHalfEven(n as real) == n
  {
    assert (n as real).Floor == n;
  }

  /** The `%` operator of C, C++ and C#: the remainder takes the sign of `a`. */
  function TruncMod(a: int, b: int): (r: int)
    requires b != 0
    ensures a >= 0 ==> 0 <= r < (if b < 0 then -b else b)
    ensures a < 0 ==> -(if b < 0 then -b else b) < r <= 0
  {
    var m := (if a < 0 then -a else a) % (if b < 0 then -b else b);
    if a < 0 then -m else m
  }

  function Min(a: real, b: real): (r: real)
    ensures r <= a && r <= b && (r == a || r == b)
  {
    if a <= b then a else b
  }

  function Max(a: real, b: real): (r: real)
    ensures a <= r && b <= r && (r == a || r == b)
  {
    if a >= b then a else b
  }

  /** Clamp into [0, 1], as the discretised transfer-function table does. */
  function Clamp01(x: real): (r: real)
    ensures 0.0 <= r <= 1.0
    ensures 0.0 <= x <= 1.0 ==> r == x
  {
    if x < 0.0 then 0.0 else if x > 1.0 then 1.0 else x
  }

  /**
   * The square of a value. Squares are kept behind this function so that the
   * solver reasons about them as terms; `SquareSign` gives their sign.
   */
  function Square(v: real): real { v * v }

  lemma SquareSign(v: real)
    ensures Square(v) >= 0.0
    ensures v != 0.0 ==> Square(v) > 0.0
  {
    if v > 0.0 {
      calc { Square(v); v * v; > 0.0; }
    } else if v < 0.0 {
      calc { Square(v); (-v) * (-v); > 0.0; }
    } else {
      calc { Square(v); 0.0 * 0.0; 0.0; }
    }
  }

  /** What a square-root parameter must satisfy for the lemmas that rely on it. */
  ghost predicate IsSqrt(sqrt: real -> real)
  {
    forall s: real {:trigger sqrt(s)} :: 0.0 <= s ==> 0.0 <= sqrt(s) && Square(sqrt(s)) == s
  }

  /** The square root of a square is the absolute value. */
  lemma SqrtOfSquare(sqrt: real -> real, a: real)
    requires IsSqrt(sqrt)
    ensures sqrt(Square(a)) == (if a < 0.0 then -a else a)
  {
    SquareSign(a);
    var r := sqrt(Square(a));
    var b := if a < 0.0 then -a else a;
    assert Square(b) == Square(a);
    SquareInjective(r, b);
  }

  /** Two non-negative numbers with the same square are equal. */
  lemma SquareInjective(r: real, b: real)
    requires 0.0 <= r && 0.0 <= b && Square(r) == Square(b)
    ensures r == b
  {
    if r != b {
      var hi, lo := if r > b then r else b, if r > b then b else r;
      assert Square(hi) == Square(lo);
      PositiveProduct(hi - lo, hi + lo);
      assert false;
    }
  }

  lemma PositiveProduct(x: real, y: real)
    requires x > 0.0 && y > 0.0
    ensures x * y > 0.0
  {
  }
}
