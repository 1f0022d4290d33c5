/** The C# integer and conversion semantics the library relies on. Dafny's `/` and `%`
    are Euclidean; C# truncates toward zero, and a float-to-int cast truncates too. */
module Arith {

  /** C#'s `a / b` on integers: the quotient truncated toward zero. */
  function Quot(a: int, b: int): (q: int)
    requires b != 0
    ensures a >= 0 && b > 0 ==> q == a / b
  {
    var m := if a >= 0 then a else -a;
    var d := if b >= 0 then b else -b;
    if (a >= 0) == (b > 0) then m / d else -(m / d)
  }

  /** C#'s `a % b` on integers: the remainder takes the sign of `a`. */
  function Rem(a: int, b: int): (r: int)
    requires b != 0
    ensures a >= 0 && b > 0 ==> r == a % b
    ensures a >= 0 ==> 0 <= r
    ensures a <= 0 ==> r <= 0
  {
    var m := if a >= 0 then a else -a;
    var d := if b >= 0 then b else -b;
    if a >= 0 then m % d else -(m % d)
  }

  /** C#'s division identity: `(a / b) * b + a % b == a`, and the remainder is smaller than the divisor. */
  lemma QuotRemIdentity(a: int, b: int)
    requires b != 0
    ensures Quot(a, b) * b + Rem(a, b) == a
    ensures -(if b >= 0 then b else -b) < Rem(a, b) < (if b >= 0 then b else -b)
  {
    var m := if a >= 0 then a else -a;
    var d := if b >= 0 then b else -b;
    assert m == (m / d) * d + m % d;
    if b < 0 {
      assert Quot(a, b) * b == (if (a >= 0) == (b > 0) then m / d else -(m / d)) * b;
    }
  }

  /** `(int)r` on a float: truncation toward zero. */
  function TruncToInt(r: real): (i: int)
    ensures 0.0 <= r ==> 0 <= i && i as real <= r < i as real + 1.0
    ensures r <= 0.0 ==> i <= 0 && i as real - 1.0 < r <= i as real
  {
    if r >= 0.0 then r.Floor else -((-r).Floor)
  }

  /** `Mathf.CeilToInt(r)`: the least integer not below `r`. */
  function CeilToInt(r: real): (i: int)
    ensures r <= i as real < r + 1.0
  {
    -((-r).Floor)
  }

  /** `a % n` for `a` in `[0, 2n)`. */
  lemma ModSmall(a: int, n: int)
    requires n > 0
    ensures 0 <= a < n ==> a % n == a
    ensures a == n ==> a % n == 0
    ensures n <= a < 2 * n ==> a % n == a - n
    ensures 2 * n <= a < 3 * n ==> a % n == a - 2 * n
  {
    if n <= a < 2 * n {
      assert a == 1 * n + (a - n);
    } else if 2 * n <= a < 3 * n {
      assert a == 2 * n + (a - 2 * n);
    }
  }

  /** Euclidean division is unique: a quotient and a remainder in range are `a / n` and `a % n`. */
  lemma ModUnique(a: int, n: int, q: int, r: int)
    requires n > 0 && 0 <= r < n && a == q * n + r
    ensures a / n == q && a % n == r
  {
    var q0 := a / n;
    var r0 := a % n;
    var d := q - q0;
    assert d * n == r0 - r by {
      assert q * n - q0 * n == (q - q0) * n;
    }
    if d > 0 {
      MulAtLeast(d, n);
      assert false;
    } else if d < 0 {
      MulAtLeast(-d, n);
      assert false;
    }
  }

  lemma MulAtLeast(d: int, n: int)
    requires d >= 1 && n > 0
    ensures d * n >= n
  {
    assert d * n == (d - 1) * n + n;
  }

  /** Adding the divisor does not change the remainder. */
  lemma ModAddDivisor(a: int, n: int)
    requires a >= 0 && n > 0
    ensures (a + n) % n == a % n
  {
    var q, r := a / n, a % n;
    assert a + n == (q + 1) * n + r by {
      assert (q + 1) * n == q * n + n;
    }
    ModUnique(a + n, n, q + 1, r);
  }
}
