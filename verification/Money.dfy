/** Decimal arithmetic. A Python Decimal is a real number here; the only places where the
    program loses precision are its explicit quantize calls, which round half to even. */
module Money {

  /** Nearest integer, ties to even: Decimal.to_integral_value and the rounding of quantize. */
  function RoundHalfEven(x: real): (r: int)
    ensures -0.5 <= r as real - x <= 0.5
    ensures (r as real - x == 0.5 || r as real - x == -0.5) ==> r % 2 == 0
  {
    var below := x.Floor;
    var rest := x - below as real;
    if rest < 0.5 || (rest == 0.5 && below % 2 == 0) then below else below + 1
  }

  /** The contract of RoundHalfEven leaves exactly one possible value. */
  lemma RoundHalfEvenUnique(x: real, n: int)
    requires -0.5 <= n as real - x <= 0.5
    requires (n as real - x == 0.5 || n as real - x == -0.5) ==> n % 2 == 0
    ensures n == RoundHalfEven(x)
  {
    assert -1.0 <= (n - RoundHalfEven(x)) as real <= 1.0;
  }

  ghost predicate FourPlaces(x: real) { exists n: int :: x == Tenthousandths(n) }

  function Tenthousandths(n: int): real { n as real / 10000.0 }

  ghost predicate SixPlaces(x: real) { exists n: int :: x == Millionths(n) }

  function Millionths(n: int): real { n as real / 1000000.0 }

  /** value.quantize(Decimal("0.0001")) */
  function Quantize4(x: real): (r: real)
    ensures -0.00005 <= r - x <= 0.00005
    ensures FourPlaces(r)
  {
    Tenthousandths(RoundHalfEven(x * 10000.0))
  }

  /** value.quantize(Decimal("0.000001")) */
  function Quantize6(x: real): (r: real)
    ensures -0.0000005 <= r - x <= 0.0000005
    ensures SixPlaces(r)
  {
    Millionths(RoundHalfEven(x * 1000000.0))
  }

  /** Raw token units of six decimals: int((human * 10^6).to_integral_value()) */
  function ToRaw(human: real): int { RoundHalfEven(human * 1000000.0) }

  /** Each quantize gives the nearest number of its places, the even one of two that are equally near. */
  lemma QuantizeUnique(x: real, n: int, m: int)
    requires -0.5 <= n as real - x * 10000.0 <= 0.5 && (n as real - x * 10000.0 in {0.5, -0.5} ==> n % 2 == 0)
    requires -0.5 <= m as real - x * 1000000.0 <= 0.5 && (m as real - x * 1000000.0 in {0.5, -0.5} ==> m % 2 == 0)
    ensures Quantize4(x) == n as real / 10000.0 && Quantize6(x) == m as real / 1000000.0 && ToRaw(x) == m
  {
    RoundHalfEvenUnique(x * 10000.0, n);
    RoundHalfEvenUnique(x * 1000000.0, m);
  }

  lemma Quantize4Exact(x: real)
    requires FourPlaces(x)
    ensures Quantize4(x) == x
  {
    var n :| x == Tenthousandths(n);
    RoundHalfEvenUnique(x * 10000.0, n);
  }

  lemma FourPlacesSum(x: real, y: real)
    requires FourPlaces(x) && FourPlaces(y)
    ensures FourPlaces(x + y)
  {
    var n :| x == Tenthousandths(n);
    var m :| y == Tenthousandths(m);
    assert x + y == Tenthousandths(n + m);
  }

  function Max(x: real, y: real): real { if x < y then y else x }

  function Min(x: real, y: real): real { if x < y then x else y }

  /** An average rounded to within b is off by at most b times the quantity in total. */
  lemma RoundedAverage(quantity: real, cost: real, avg: real, b: real)
    requires quantity > 0.0 && -b <= avg - cost / quantity <= b
    ensures -(b * quantity) <= quantity * avg - cost <= b * quantity
  {
    var exact := cost / quantity;
    MulDiv(quantity, cost);
    ScaledBound(quantity, avg - exact, b);
    assert quantity * (avg - exact) == quantity * avg - quantity * exact;
  }

  lemma MulDiv(q: real, c: real)
    requires q != 0.0
    ensures q * (c / q) == c
  {
  }

  lemma ScaledBound(q: real, d: real, b: real)
    requires q >= 0.0 && -b <= d <= b
    ensures -(b * q) <= q * d <= b * q
  {
  }
}
