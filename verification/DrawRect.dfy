/**
 * sys/src/libdraw/badrect.c and bytesperline.c: which rectangles are accepted, computed in 32-bit
 * integers that wrap around, and how many units a row of an accepted rectangle takes.
 */
module DrawRect {
  const TWO32 := 0x1_0000_0000
  const TWO31 := 0x8000_0000

  /** A 32-bit int. */
  type Int = x: int | -TWO31 <= x < TWO31

  datatype Point = Point(x: Int, y: Int)
  datatype Rectangle = Rectangle(min: Point, max: Point)

  /** The value an int operation leaves when its result is `x`. */
  function Wrap(x: int): (r: Int)
    ensures exists k: int {:trigger Turns(x, r, k)} :: Turns(x, r, k)
    ensures -TWO31 <= x < TWO31 ==> r == x
  {
    var m := x % TWO32;
    var r := if m < TWO31 then m else m - TWO32;
    assert Turns(x, r, if m < TWO31 then x / TWO32 else x / TWO32 + 1);
    r
  }

  /** `r` is `x` less `k` whole turns. */
  ghost predicate Turns(x: int, r: int, k: int) { r == x - k * TWO32 }

  /** A uint. */
  function Unsigned(x: int): nat { x % TWO32 }

  /** Division as the machine does it, towards zero. */
  function Quotient(x: int, y: int): int
    requires y > 0
  {
    if x >= 0 then x / y else -((-x) / y)
  }

  predicate XOvfl(p: Point) { p.x < -0x200_0000 || p.x >= 0x200_0000 }

  predicate YOvfl(y: int) { y < -0x1000_0000 || y >= 0x1000_0000 }

  /** `badrect`. */
  function Badrect(r: Rectangle): bool {
    var x, y := Wrap(r.max.x - r.min.x), Wrap(r.max.y - r.min.y);
    if x > 0 && y > 0 then
      if XOvfl(r.min) || XOvfl(r.max) then true
      else
        var z, zy0, zy1 := Unsigned(x * y), Wrap(x * r.min.y), Wrap(x * r.max.y);
        !(z / x == y && Quotient(zy0, x) == r.min.y && !YOvfl(zy0) && Quotient(zy1, x) == r.max.y && !YOvfl(zy1))
    else true
  }

  /** The rectangles that fit, in plain integers. */
  predicate Fits(r: Rectangle) {
    var dx, dy := r.max.x - r.min.x, r.max.y - r.min.y;
    && dx > 0 && dy > 0
    && -0x200_0000 <= r.min.x && r.max.x < 0x200_0000
    && dx * dy < TWO32
    && -0x1000_0000 <= dx * r.min.y && dx * r.max.y < 0x1000_0000
    && -0x1000_0000 <= dx * r.max.y && dx * r.min.y < 0x1000_0000
  }

  lemma MulPositive(x: int, y: int)
    requires x > 0 && y >= 0
    ensures x * y >= y && x * y >= 0
  {
  }

  /** A quotient that comes out right shows that the product did not wrap. */
  lemma {:induction false} QuotientExact(x: int, y: Int)
    requires 0 < x < 0x400_0000 && Quotient(Wrap(x * y), x) == y
    ensures Wrap(x * y) == x * y
  {
    var z := Wrap(x * y);
    var k :| Turns(x * y, z, k);
    QuotientTimes(z, x);
    assert z - x * y == -k * TWO32;
  }

  lemma {:induction false} QuotientTimes(z: int, x: int)
    requires x > 0
    ensures -x < z - x * Quotient(z, x) < x
  {
    if z >= 0 {
      assert z == x * (z / x) + z % x;
    } else {
      assert -z == x * ((-z) / x) + (-z) % x;
      NegMul(x, (-z) / x);
    }
  }

  lemma NegMul(x: int, y: int)
    ensures x * -y == -(x * y)
  {
  }

  lemma {:induction false} MulQuotient(x: int, y: int)
    requires x > 0
    ensures Quotient(x * y, x) == y
  {
    QuotientTimes(x * y, x);
    var q := Quotient(x * y, x);
    SubMul(x, y, q);
    if q < y {
      MulPositive(x, y - q - 1);
    } else if q > y {
      MulPositive(x, q - y - 1);
    }
  }

  lemma SubMul(x: int, y: int, q: int)
    ensures x * y - x * q == x * (y - q) && x * (y - q) == x * (y - q - 1) + x && x * (q - y) == x * (q - y - 1) + x && x * (q - y) == -(x * (y - q))
  {
  }

  /** A factor no smaller than one does not make a bound easier to meet. */
  lemma {:induction false} FactorBound(x: int, y: int, b: int)
    requires x > 0 && b >= 0 && -b <= x * y < b
    ensures -b <= y < b
  {
    if y >= 0 {
      MulPositive(x, y);
    } else {
      MulPositive(x, -y);
      NegMul(x, -y);
    }
  }

  /** The unsigned product comes out right exactly when it is below 2^32. */
  lemma {:induction false} AreaExact(x: int, y: int)
    requires x > 0 && y > 0
    ensures Unsigned(x * y) / x == y <==> x * y < TWO32
  {
    MulPositive(x, y);
    if x * y < TWO32 {
      MulQuotient(x, y);
    } else {
      var z := Unsigned(x * y);
      assert z <= x * y - TWO32;
      assert z == x * (z / x) + z % x;
    }
  }

  lemma DistributeSub(x: int, a: int, b: int)
    ensures x * (a - b) == x * a - x * b
  {
  }

  /** With everything wrapping around, `badrect` accepts exactly the rectangles that fit. */
  lemma {:induction false} BadrectExact(r: Rectangle)
    ensures !Badrect(r) <==> Fits(r)
  {
    if !Badrect(r) {
      Accepted(r);
    }
    if Fits(r) {
      Fitting(r);
    }
  }

  lemma {:induction false} Accepted(r: Rectangle)
    requires !Badrect(r)
    ensures Fits(r)
  {
    var dx, dy := r.max.x - r.min.x, r.max.y - r.min.y;
    assert Wrap(dx) == dx;
    QuotientExact(dx, r.min.y);
    QuotientExact(dx, r.max.y);
    FactorBound(dx, r.min.y, 0x1000_0000);
    FactorBound(dx, r.max.y, 0x1000_0000);
    assert Wrap(dy) == dy;
    AreaExact(dx, dy);
  }

  lemma {:induction false} Fitting(r: Rectangle)
    requires Fits(r)
    ensures !Badrect(r)
  {
    var dx, dy := r.max.x - r.min.x, r.max.y - r.min.y;
    assert Wrap(dx) == dx;
    FactorBound(dx, r.min.y, 0x1000_0000);
    FactorBound(dx, r.max.y, 0x1000_0000);
    assert Wrap(dy) == dy;
    AreaExact(dx, dy);
    MulQuotient(dx, r.min.y);
    MulQuotient(dx, r.max.y);
  }

  // ----- rows -----

  /** `x & -b` for a power of two `b`: the multiple of `b` at or below `x`. */
  function RoundDown(x: int, b: int): int
    requires b > 0
  {
    x - x % b
  }

  /** `unitsperline`, every operation wrapping around. */
  function UnitsPerLine(r: Rectangle, d: int, b: int): int
    requires 1 <= d <= 32 && (b == 8 || b == 32)
  {
    Quotient(Wrap(Wrap(Wrap(Wrap(r.max.x * d) - RoundDown(Wrap(r.min.x * d), b)) + b) - 1), b)
  }

  /** `n` units, starting with the one that holds bit `lo`, reach up to bit `hi`. */
  predicate Cover(lo: int, hi: int, b: int, n: int)
    requires b > 0
  {
    hi <= RoundDown(lo, b) + n * b
  }

  lemma DepthBound(x: int, d: int)
    requires -0x200_0000 <= x < 0x200_0000 && 1 <= d <= 32
    ensures -0x200_0000 * d <= x * d <= 0x1ff_ffff * d
  {
    MulBetween(-0x200_0000, x, d);
    MulBetween(x, 0x1ff_ffff, d);
  }

  lemma MulBetween(x: int, y: int, d: int)
    requires x <= y && d >= 0
    ensures x * d <= y * d
  {
  }

  /** For a rectangle that fits, the result is the least number of units that cover a row. */
  lemma {:induction false} UnitsPerLineExact(r: Rectangle, d: int, b: int)
    requires !Badrect(r) && 1 <= d <= 32 && (b == 8 || b == 32)
    ensures var n := UnitsPerLine(r, d, b);
      n > 0 && Cover(r.min.x * d, r.max.x * d, b, n) && !Cover(r.min.x * d, r.max.x * d, b, n - 1)
  {
    var lo, hi := r.min.x * d, r.max.x * d;
    RowBounds(r, d);
    NoWrap(lo, hi, b);
    CeilLeast(hi - RoundDown(lo, b), b);
  }

  lemma {:induction false} RowBounds(r: Rectangle, d: int)
    requires !Badrect(r) && 1 <= d <= 32
    ensures -0x200_0000 * d <= r.min.x * d < r.max.x * d <= 0x1ff_ffff * d
  {
    BadrectExact(r);
    DepthBound(r.min.x, d);
    DepthBound(r.max.x, d);
    MulPositive(d, r.max.x - r.min.x);
    DistributeSub(d, r.max.x, r.min.x);
  }

  lemma NoWrap(lo: int, hi: int, b: int)
    requires -0x4000_0000 <= lo < hi <= 0x3fff_ffe0 && (b == 8 || b == 32)
    ensures Wrap(hi) == hi && Wrap(lo) == lo && lo - b < RoundDown(lo, b) <= lo
    ensures Wrap(Wrap(Wrap(hi - RoundDown(lo, b)) + b) - 1) == hi - RoundDown(lo, b) + b - 1
  {
    var w := hi - RoundDown(lo, b);
    assert RoundDown(lo, b) >= -0x4000_0000;
    assert 0 < w <= TWO31 - 32 && Wrap(w) == w;
    WrapLess(w + b);
  }

  /** One turn too many is taken back. */
  lemma WrapLess(x: int)
    requires 0 < x <= TWO31
    ensures Wrap(Wrap(x) - 1) == x - 1
  {
  }

  lemma {:induction false} CeilLeast(x: int, b: int)
    requires x > 0 && (b == 8 || b == 32)
    ensures var n := (x + b - 1) / b; n > 0 && n * b >= x > (n - 1) * b
  {
  }

  /** Every value computed on the way fits an int. */
  predicate StaysInRange(r: Rectangle, d: int, b: int)
    requires b > 0
  {
    var lo, hi := r.min.x * d, r.max.x * d;
    var w := hi - RoundDown(lo, b);
    && InRange(lo) && InRange(hi) && InRange(RoundDown(lo, b)) && InRange(w) && InRange(w + b) && InRange(w + b - 1)
  }

  predicate InRange(x: int) { -TWO31 <= x < TWO31 }

  /** The rectangle that takes up all of the range that `badrect` allows. */
  predicate Widest(r: Rectangle) { r.min.x == -0x200_0000 && r.max.x == 0x1ff_ffff }

  /** No value computed on the way overflows, except in one case: the widest rectangle of 32-bit pixels, counted in words. */
  lemma {:induction false} OverflowsOnlyWidest(r: Rectangle, d: int, b: int)
    requires !Badrect(r) && 1 <= d <= 32 && (b == 8 || b == 32)
    ensures StaysInRange(r, d, b) <==> !(b == 32 && d == 32 && Widest(r))
  {
    BadrectExact(r);
    RowBounds(r, d);
    if d < 32 {
      assert r.max.x * d - r.min.x * d <= 0x3ff_ffff * d <= 0x3ff_ffff * 31;
    }
  }

  /** That case is one that `badrect` lets through. */
  lemma WidestAccepted()
    ensures var r := Rectangle(Point(-0x200_0000, 0), Point(0x1ff_ffff, 1)); !Badrect(r) && Widest(r) && !StaysInRange(r, 32, 32)
  {
    var r := Rectangle(Point(-0x200_0000, 0), Point(0x1ff_ffff, 1));
    BadrectExact(r);
    OverflowsOnlyWidest(r, 32, 32);
  }
}
