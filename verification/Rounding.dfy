/** Python's round(x, digits) on the reals: to the nearest, halves to the even one. */
module Rounding {

  function Nearest(x: real): int {
    var below := x.Floor;
    var rest := x - below as real;
    if rest < 0.5 then below
    else if rest > 0.5 then below + 1
    else if below % 2 == 0 then below
    else below + 1
  }

  // Two, three and four digits are scales of 100, 1000 and 10000.
  function RoundAt(x: real, scale: real): real
    requires scale > 0.0
  {
    Nearest(x * scale) as real / scale
  }

  lemma NearestIsNear(x: real)
    ensures -0.5 <= Nearest(x) as real - x <= 0.5
  {
  }

  // It is the only whole number less than a half away, and between two that are a half away it is the even one.
  lemma NearestIs(x: real, k: int)
    ensures k as real - 0.5 < x < k as real + 0.5 ==> Nearest(x) == k
    ensures x == k as real + 0.5 ==> Nearest(x) == if k % 2 == 0 then k else k + 1
  {
    if k as real <= x < k as real + 1.0 {
      assert x.Floor == k;
    } else if k as real - 0.5 < x < k as real {
      assert x.Floor == k - 1;
    }
  }

  lemma NearestIsMonotone(x: real, y: real)
    requires x <= y
    ensures Nearest(x) <= Nearest(y)
  {
    assert x.Floor <= y.Floor;
  }

  lemma DivideMonotone(a: real, b: real, scale: real)
    requires a <= b && scale > 0.0
    ensures a / scale <= b / scale
  {
  }

  lemma RoundingIsMonotone(x: real, y: real, scale: real)
    requires x <= y && scale > 0.0
    ensures RoundAt(x, scale) <= RoundAt(y, scale)
  {
    assert x * scale <= y * scale;
    NearestIsMonotone(x * scale, y * scale);
    DivideMonotone(Nearest(x * scale) as real, Nearest(y * scale) as real, scale);
  }

  // A number with no more digits is left alone.
  lemma RoundingKeeps(x: real, scale: real, k: int)
    requires scale > 0.0 && x * scale == k as real
    ensures RoundAt(x, scale) == x
  {
    assert (k as real) / scale == x;
  }

  lemma DivideDifference(a: real, x: real, scale: real)
    requires scale > 0.0
    ensures a / scale - x == (a - x * scale) / scale
  {
    assert (x * scale) / scale == x;
  }

  // The error is at most half a unit of the last digit.
  lemma RoundingIsNear(x: real, scale: real)
    requires scale > 0.0
    ensures -0.5 / scale <= RoundAt(x, scale) - x <= 0.5 / scale
  {
    var n := Nearest(x * scale) as real;
    NearestIsNear(x * scale);
    DivideDifference(n, x, scale);
    DivideMonotone(-0.5, n - x * scale, scale);
    DivideMonotone(n - x * scale, 0.5, scale);
  }
}
