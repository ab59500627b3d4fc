/** Python's `round` on exact numbers: to the nearest, ties to the even neighbour. */
module Rounding {

  function Nearest(y: real): (k: int)
    ensures -0.5 <= k as real - y <= 0.5
    ensures y.Floor as real == y ==> k as real == y
    ensures k as real - y == 0.5 || k as real - y == -0.5 ==> k % 2 == 0
  {
    var k := y.Floor;
    var rest := y - k as real;
    if rest < 0.5 then k
    else if rest > 0.5 then k + 1
    else if k % 2 == 0 then k
    else k + 1
  }

  lemma NearestMonotone(a: real, b: real)
    requires a <= b
    ensures Nearest(a) <= Nearest(b)
  {
    assert a.Floor <= b.Floor;
  }

  /** `x` has at most four decimals. */
  predicate Whole4(x: real) {
    (x * 10000.0).Floor as real == x * 10000.0
  }

  function Round1(x: real): (r: real)
    ensures -0.05 <= r - x <= 0.05
  {
    Nearest(x * 10.0) as real / 10.0
  }

  function Round4(x: real): (r: real)
    ensures -0.00005 <= r - x <= 0.00005
    ensures Whole4(r) && (Whole4(x) ==> r == x)
  {
    Nearest(x * 10000.0) as real / 10000.0
  }

  function Round6(x: real): (r: real)
    ensures -0.0000005 <= r - x <= 0.0000005
  {
    Nearest(x * 1000000.0) as real / 1000000.0
  }

  lemma Whole4Sum(a: real, b: real)
    requires Whole4(a) && Whole4(b)
    ensures Whole4(a + b)
  {
    var m, n := (a * 10000.0).Floor, (b * 10000.0).Floor;
    assert (a + b) * 10000.0 == (m + n) as real;
  }

  function Abs(x: real): (r: real)
    ensures r >= 0.0 && (r == x || r == -x)
  {
    if x >= 0.0 then x else -x
  }
}
