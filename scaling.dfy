/**
 * Thumbnail dimensions. The handler computes, in `float`,
 * `factor = min(MAX_WIDTH / w, MAX_HEIGHT / h)` and truncates
 * `factor * w` and `factor * h` to `int`. Here the factor is the exact
 * fraction `num / den` and truncation is division on non-negative integers.
 */
module Scaling {

  const MaxWidth: nat := 100
  const MaxHeight: nat := 100

  /** A decoded image always has positive width and height. */
  type Dimension = x: int | x > 0 witness 1

  datatype Size = Size(width: int, height: int)

  /** The exact rational number `num / den`. */
  datatype Fraction = Fraction(num: nat, den: Dimension)

  /**
   * `min(MaxWidth / w, MaxHeight / h)`: no larger than either ratio
   * (compared by cross-multiplication), and equal to one of them.
   */
  function Factor(w: Dimension, h: Dimension): (f: Fraction)
    ensures f.num * w <= MaxWidth * f.den && f.num * h <= MaxHeight * f.den
    ensures f == Fraction(MaxWidth, w) || f == Fraction(MaxHeight, h)
  {
    if MaxWidth * h <= MaxHeight * w then Fraction(MaxWidth, w) else Fraction(MaxHeight, h)
  }

  /** `(int) (factor * side)`: the scaled side, truncated toward zero. */
  function Scale(f: Fraction, side: nat): (n: nat)
    ensures n * f.den <= f.num * side < (n + 1) * f.den
  {
    var p := f.num * side;
    assert p == (p / f.den) * f.den + p % f.den;
    p / f.den
  }

  /**
   * The size of the thumbnail for a `w` by `h` source image: it fits the
   * bounding box, and the side whose ratio gives the factor fills the box.
   */
  function TargetSize(w: Dimension, h: Dimension): (s: Size)
    ensures 0 <= s.width <= MaxWidth && 0 <= s.height <= MaxHeight
    ensures MaxWidth * h <= MaxHeight * w ==> s.width == MaxWidth
    ensures MaxHeight * w < MaxWidth * h ==> s.height == MaxHeight
  {
    var f := Factor(w, h);
    ScaleBounds(f, w, MaxWidth);
    ScaleBounds(f, h, MaxHeight);
    if MaxWidth * h <= MaxHeight * w then
      ScaleExact(w, MaxWidth);
      Size(Scale(f, w), Scale(f, h))
    else
      ScaleExact(h, MaxHeight);
      Size(Scale(f, w), Scale(f, h))
  }

  /** Multiplying by a positive number keeps strict order, in both directions. */
  lemma MulStrictIff(a: int, b: int, d: Dimension)
    ensures a * d < b * d <==> a < b
  {
    assert b * d - a * d == (b - a) * d;
  }

  /** A side scaled by `num / den` stays within `k` when `num * side <= k * den`, and is 0 exactly when `num * side < den`. */
  lemma {:induction false} ScaleBounds(f: Fraction, side: nat, k: nat)
    requires f.num * side <= k * f.den
    ensures Scale(f, side) <= k
    ensures Scale(f, side) == 0 <==> f.num * side < f.den
  {
    var q := Scale(f, side);
    MulStrictIff(k, q, f.den);
    MulStrictIff(q, 1, f.den);
  }

  /** The side that gives the factor is scaled to exactly `k`. */
  lemma {:induction false} ScaleExact(side: Dimension, k: nat)
    ensures Scale(Fraction(k, side), side) == k
  {
    var f := Fraction(k, side);
    var q := Scale(f, side);
    MulStrictIff(k, q, side);
    MulStrictIff(k, q + 1, side);
  }

  /**
   * With a square bounding box the factor is `100 / max(w, h)`: each side
   * is `(100 * side) / max(w, h)`.
   */
  lemma TargetSizeByLongerSide(w: Dimension, h: Dimension)
    ensures var m := if w >= h then w else h;
      TargetSize(w, h) == Size((100 * w) / m, (100 * h) / m)
  {
  }

  /**
   * Aspect ratio is kept up to truncation of one side: the cross products
   * `width * h` and `height * w` differ by less than the longer source side.
   */
  lemma {:induction false} TargetSizeKeepsAspect(w: Dimension, h: Dimension)
    ensures var s, m := TargetSize(w, h), if w >= h then w else h;
      0 <= s.width * h - s.height * w < m || 0 <= s.height * w - s.width * h < m
  {
    var f := Factor(w, h);
    assert TargetSize(w, h) == Size(Scale(f, w), Scale(f, h));
  }

  /**
   * No lower clamp: a side is truncated to 0 exactly when the other side is
   * more than 100 times longer.
   */
  lemma {:induction false} ZeroSideIffExtremeRatio(w: Dimension, h: Dimension)
    ensures TargetSize(w, h).height == 0 <==> 100 * h < w
    ensures TargetSize(w, h).width == 0 <==> 100 * w < h
  {
    var f := Factor(w, h);
    ScaleBounds(f, w, MaxWidth);
    ScaleBounds(f, h, MaxHeight);
    assert TargetSize(w, h) == Size(Scale(f, w), Scale(f, h));
  }

  /** Examples: a 2:1 image, a square, an image smaller than the box (enlarged), and a 1000:1 strip. */
  lemma TargetSizeExamples()
    ensures TargetSize(400, 200) == Size(100, 50)
    ensures TargetSize(640, 640) == Size(100, 100)
    ensures TargetSize(20, 10) == Size(100, 50)
    ensures TargetSize(1000, 1) == Size(100, 0)
  {
  }

  /** A square image of any size becomes exactly 100 by 100. */
  lemma SquareFillsBox(n: Dimension)
    ensures TargetSize(n, n) == Size(MaxWidth, MaxHeight)
  {
  }
}
