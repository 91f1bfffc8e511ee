/** Decimal arithmetic as the accounting code uses it.

    Sums, differences and products of decimals are exact, so a decimal is a `real` here. Rounding happens
    in three places only: division (16 places), the NUMERIC(20,8) columns and snapshot strings (8 places),
    and the daily_return column (10 places). All three round to nearest, ties away from zero. */
module Decimals {

  /** n half units in the eighth decimal place; storing one value is off by at most one of them. */
  function HalfUlps8(n: real): real {
    n / 200000000.0
  }

  /** n half units in the sixteenth decimal place; one division is off by at most one of them. */
  function HalfUlps16(n: real): real {
    n / 20000000000000000.0
  }

  function Abs(x: real): (r: real)
    ensures r >= 0.0 && (r == x || r == -x)
  {
    if x >= 0.0 then x else -x
  }

  /** The integer nearest to y, ties away from zero. */
  function Nearest(y: real): (n: int)
    ensures Abs(n as real - y) <= 0.5
    ensures Abs(n as real - y) == 0.5 ==> Abs(n as real) > Abs(y)
  {
    if y >= 0.0 then (y + 0.5).Floor else -(0.5 - y).Floor
  }

  function Round8(x: real): (r: real)
    ensures x >= 0.0 ==> r >= 0.0
  {
    Nearest(x * 100000000.0) as real / 100000000.0
  }

  function Round10(x: real): real {
    Nearest(x * 10000000000.0) as real / 10000000000.0
  }

  /** Division of decimals: sixteen places are kept. */
  function Div16(a: real, b: real): real
    requires b != 0.0
  {
    Nearest(a / b * 10000000000000000.0) as real / 10000000000000000.0
  }

  /** x has at most eight decimal places. */
  predicate IsGrid8(x: real) {
    (x * 100000000.0).Floor as real == x * 100000000.0
  }

  lemma NearestMonotone(x: real, y: real)
    requires x <= y
    ensures Nearest(x) <= Nearest(y)
  {
  }

  lemma NearestFixesIntegers(n: int)
    ensures Nearest(n as real) == n
  {
  }

  lemma Round8Error(x: real)
    ensures Abs(Round8(x) - x) <= HalfUlps8(1.0)
  {
    var n := Nearest(x * 100000000.0);
    assert Abs(n as real - x * 100000000.0) <= 0.5;
  }

  lemma Round8OnGrid(x: real)
    ensures IsGrid8(Round8(x))
  {
    var n := Nearest(x * 100000000.0);
    assert Round8(x) * 100000000.0 == n as real;
  }

  lemma Round8FixesGrid(x: real)
    requires IsGrid8(x)
    ensures Round8(x) == x
  {
    NearestFixesIntegers((x * 100000000.0).Floor);
  }

  lemma Round8Idempotent(x: real)
    ensures Round8(Round8(x)) == Round8(x)
  {
    Round8OnGrid(x);
    Round8FixesGrid(Round8(x));
  }

  lemma Round8Monotone(x: real, y: real)
    requires x <= y
    ensures Round8(x) <= Round8(y)
  {
    NearestMonotone(x * 100000000.0, y * 100000000.0);
  }

  /** Storing keeps a value exactly when it has at most eight decimals. */
  lemma Round8ExactIff(x: real)
    ensures Round8(x) == x <==> IsGrid8(x)
  {
    Round8OnGrid(x);
    if IsGrid8(x) {
      Round8FixesGrid(x);
    }
  }

  /** A value stores as zero exactly when it is below half a unit in the last place. */
  lemma Round8ZeroIff(x: real)
    ensures Round8(x) == 0.0 <==> Abs(x) < HalfUlps8(1.0)
  {
  }

  lemma GridFromUnits(x: real, n: int)
    requires x * 100000000.0 == n as real
    ensures IsGrid8(x)
  {
  }

  lemma Grid8Add(x: real, y: real)
    requires IsGrid8(x) && IsGrid8(y)
    ensures IsGrid8(x + y)
  {
    GridFromUnits(x + y, (x * 100000000.0).Floor + (y * 100000000.0).Floor);
  }

  lemma Grid8Sub(x: real, y: real)
    requires IsGrid8(x) && IsGrid8(y)
    ensures IsGrid8(x - y)
  {
    GridFromUnits(x - y, (x * 100000000.0).Floor - (y * 100000000.0).Floor);
  }

  lemma Round10Error(x: real)
    ensures Abs(Round10(x) - x) <= 0.00000000005
  {
    assert Abs(Nearest(x * 10000000000.0) as real - x * 10000000000.0) <= 0.5;
  }

  lemma Div16Error(a: real, b: real)
    requires b != 0.0
    ensures Abs(Div16(a, b) - a / b) <= HalfUlps16(1.0)
  {
    var q := a / b;
    assert Abs(Nearest(q * 10000000000000000.0) as real - q * 10000000000000000.0) <= 0.5;
  }

  /** A quotient between two values with at most eight decimals rounds to a value between them. */
  lemma Div16Between(a: real, b: real, lo: real, hi: real)
    requires b != 0.0 && IsGrid8(lo) && IsGrid8(hi)
    requires lo <= a / b <= hi
    ensures lo <= Div16(a, b) <= hi
  {
    var l, h := (lo * 100000000.0).Floor, (hi * 100000000.0).Floor;
    assert lo * 10000000000000000.0 == (l * 100000000) as real;
    assert hi * 10000000000000000.0 == (h * 100000000) as real;
    NearestFixesIntegers(l * 100000000);
    NearestFixesIntegers(h * 100000000);
    NearestMonotone(lo * 10000000000000000.0, a / b * 10000000000000000.0);
    NearestMonotone(a / b * 10000000000000000.0, hi * 10000000000000000.0);
  }
}
