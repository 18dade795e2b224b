/**
 `Rescale` of src/vgi_arrow_utils.cpp: a time value in another unit, in 64-bit arithmetic. The product
 that brings a value to a finer unit is not checked for overflow; it is taken here as two's complement
 gives it.
 */
module TimeUnits {
  import opened Basics
  import opened SchemaTypes

  const HALF: int := 0x8000_0000_0000_0000

  predicate Fits64(x: int) {
    -HALF <= x < HALF
  }

  /** The 64-bit number that the low bits of `x` make. */
  function Wrap64(x: int): (r: int)
    ensures Fits64(r) && (r == x <==> Fits64(x))
  {
    (x + HALF) % WORD - HALF
  }

  lemma {:induction false} WrapMoves(x: int) returns (k: int)
    ensures Wrap64(x) == x + k * WORD && (k == 0 <==> Fits64(x))
  {
    k := -((x + HALF) / WORD);
  }

  function UnitsPerSecond(u: Unit): (r: nat)
    ensures r > 0
  {
    match u
    case Second => 1
    case Milli => 1000
    case Micro => 1000000
    case Nano => 1000000000
  }

  /** Division and remainder as in C++: toward zero. */
  function Quotient(a: int, b: int): int
    requires b > 0
  {
    if a >= 0 then a / b else -((-a) / b)
  }

  function Rescale(value: int, from: Unit, to: Unit): int {
    var f, t := UnitsPerSecond(from), UnitsPerSecond(to);
    if f == t then value
    else if t > f then Wrap64(value * (t / f))
    else
      var d := f / t;
      var q := Quotient(value, d);
      if value - q * d != 0 && value < 0 then q - 1 else q
  }

  lemma {:induction false} FloorOf(value: int, d: int)
    requires d > 0
    ensures var q := Quotient(value, d);
      (if value - q * d != 0 && value < 0 then q - 1 else q) == value / d
  {
    if value < 0 {
      var m := -value;
      var q := m / d;
      assert m == q * d + m % d;
      if m % d == 0 {
        assert value == (-q) * d;
        DivideExact(-q, d);
      } else {
        assert value == (-q - 1) * d + (d - m % d);
        DivideWithin(-q - 1, d, d - m % d);
      }
    }
  }

  lemma {:induction false} DivideExact(q: int, d: int)
    requires d > 0
    ensures q * d / d == q
  {
    DivideWithin(q, d, 0);
  }

  lemma {:induction false} DivideWithin(q: int, d: int, r: int)
    requires d > 0 && 0 <= r < d
    ensures (q * d + r) / d == q
  {
    var x := q * d + r;
    var p := x / d;
    assert x == p * d + x % d;
    if p < q {
      assert (q - p) * d >= d by { Multiply(1, q - p, d); }
    } else if p > q {
      assert (p - q) * d >= d by { Multiply(1, p - q, d); }
    }
  }

  lemma {:induction false} Multiply(a: int, b: int, d: int)
    requires a <= b && d >= 0
    ensures a * d <= b * d
  {
  }

  /** How many of the finer unit make one of the coarser. */
  function Ratio(fine: Unit, coarse: Unit): (n: nat)
    requires UnitsPerSecond(fine) >= UnitsPerSecond(coarse)
    ensures n > 0 && (n == 1 <==> UnitsPerSecond(fine) == UnitsPerSecond(coarse))
  {
    UnitsPerSecond(fine) / UnitsPerSecond(coarse)
  }

  /** To a coarser unit rescaling rounds toward negative infinity. */
  lemma {:induction false} RescaleIsFloor(value: int, from: Unit, to: Unit)
    requires UnitsPerSecond(from) >= UnitsPerSecond(to)
    ensures Rescale(value, from, to) == value / Ratio(from, to)
  {
    if UnitsPerSecond(from) > UnitsPerSecond(to) {
      FloorOf(value, UnitsPerSecond(from) / UnitsPerSecond(to));
    }
  }

  lemma {:induction false} RescaleIsProduct(value: int, from: Unit, to: Unit)
    requires UnitsPerSecond(from) <= UnitsPerSecond(to) && Fits64(value)
    ensures Rescale(value, from, to) == Wrap64(value * Ratio(to, from))
  {
  }

  lemma {:induction false} FloorTrip(value: int, n: nat)
    requires n > 0
    ensures value * n / n == value && (value / n) * n <= value < (value / n) * n + n
  {
    DivideExact(value, n);
    assert value == (value / n) * n + value % n;
  }

  /** A product moved by a whole number of words is no longer within one unit of where it was. */
  lemma {:induction false} MovedQuotient(value: int, n: nat, k: int)
    requires 0 < n < WORD && k != 0
    ensures (value * n + k * WORD) / n != value
  {
    var moved := value * n + k * WORD;
    FloorTrip(moved, n);
  }

  /**
   To a finer unit, rescaling is exact, and rescaling back restores the value, exactly if the product
   fits 64 bits.
   */
  lemma {:induction false} FinerExactIffFits(value: int, coarse: Unit, fine: Unit)
    requires UnitsPerSecond(coarse) <= UnitsPerSecond(fine) && Fits64(value)
    ensures Rescale(value, coarse, fine) == value * Ratio(fine, coarse) <==> Fits64(value * Ratio(fine, coarse))
    ensures Rescale(Rescale(value, coarse, fine), fine, coarse) == value <==> Fits64(value * Ratio(fine, coarse))
  {
    var n := Ratio(fine, coarse);
    var up := Rescale(value, coarse, fine);
    RescaleIsProduct(value, coarse, fine);
    RescaleIsFloor(up, fine, coarse);
    FloorTrip(value, n);
    var k := WrapMoves(value * n);
    if k != 0 { MovedQuotient(value, n, k); }
  }

  /**
   To a coarser unit and back, less than one unit is lost, downward, exactly if the unit that the value
   lies in begins within 64 bits.
   */
  lemma {:induction false} CoarserLosesLessThanOneUnitIffFits(value: int, coarse: Unit, fine: Unit)
    requires UnitsPerSecond(coarse) <= UnitsPerSecond(fine) && Fits64(value)
    ensures
      var n, back := Ratio(fine, coarse), Rescale(Rescale(value, fine, coarse), coarse, fine);
      (back <= value < back + n <==> Fits64(value / n * n)) && (back <= value < back + n ==> back == value / n * n)
  {
    var n, down := Ratio(fine, coarse), Rescale(value, fine, coarse);
    RescaleIsFloor(value, fine, coarse);
    FloorTrip(value, n);
    SmallerFits(value, n);
    RescaleIsProduct(down, coarse, fine);
    var k := WrapMoves(down * n);
  }

  lemma {:induction false} SmallerFits(value: int, n: nat)
    requires n > 0 && Fits64(value)
    ensures Fits64(value / n)
  {
    FloorTrip(value, n);
    if value / n < value && value >= 0 { Multiply(1, n, value / n); }
    if value / n < -HALF { Multiply(value / n, -HALF - 1, n); Multiply(1, n, HALF + 1); }
  }

  /** The first second of the year 2300, in nanoseconds, lands centuries before. */
  lemma {:induction false} YearTwentyThreeHundredOverflows()
    ensures Rescale(10413792000, Second, Nano) == -8032952073709551616
    ensures Rescale(Rescale(10413792000, Second, Nano), Nano, Second) != 10413792000
  {
    FinerExactIffFits(10413792000, Second, Nano);
  }
}
