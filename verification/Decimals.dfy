/** Decimal values held at the corpus scale of eight places, rounded half to even. */
module Decimals {

  const SCALE: real := 100000000.0

  /** The nearest integer; a tie goes to the even neighbour. */
  function RoundHalfEven(x: real): int {
    var f := x.Floor;
    var d := x - f as real;
    if d < 0.5 then f
    else if d > 0.5 then f + 1
    else if f % 2 == 0 then f else f + 1
  }

  /** `Decimal.quantize` to eight places. */
  function Quantize(x: real): real { RoundHalfEven(x * SCALE) as real / SCALE }

  lemma RoundMonotone(x: real, y: real)
    requires x <= y
    ensures RoundHalfEven(x) <= RoundHalfEven(y)
  {
    assert x.Floor <= y.Floor;
  }

  lemma QuantizeMonotone(x: real, y: real)
    requires x <= y
    ensures Quantize(x) <= Quantize(y)
  {
    assert x * SCALE <= y * SCALE;
    RoundMonotone(x * SCALE, y * SCALE);
  }

  lemma RoundNegates(x: real)
    ensures RoundHalfEven(-x) == -RoundHalfEven(x)
  {
    var f := x.Floor;
    if x == f as real {
      assert (-x).Floor == -f;
    } else {
      assert (-x).Floor == -f - 1;
    }
  }

  lemma QuantizeNegates(x: real)
    ensures Quantize(-x) == -Quantize(x)
  {
    assert (-x) * SCALE == -(x * SCALE);
    RoundNegates(x * SCALE);
  }

  /** Nothing moves by more than half a unit in the eighth place, and zero stays zero. */
  lemma QuantizeNear(x: real)
    ensures -0.5 / SCALE <= Quantize(x) - x <= 0.5 / SCALE
    ensures x >= 0.0 ==> Quantize(x) >= 0.0
    ensures Quantize(0.0) == 0.0
  {
    var r := RoundHalfEven(x * SCALE) as real;
    assert -0.5 <= r - x * SCALE <= 0.5;
    assert Quantize(x) - x == (r - x * SCALE) / SCALE;
  }

  /** A value already at the corpus scale is left alone. */
  lemma QuantizeFixes(n: int)
    ensures Quantize(n as real / SCALE) == n as real / SCALE
  {
    assert n as real / SCALE * SCALE == n as real;
  }
}
