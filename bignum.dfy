/** Arbitrary-precision integer arithmetic as ethers' `BigNumber` and The Graph's
    `BigInt` perform it: products never overflow, and `div` truncates the quotient
    toward zero (unlike Dafny's `/`, which is Euclidean). */
module BigNum {

  function Abs(x: int): nat
  {
    if x < 0 then -x else x
  }

  /** `a.div(b)`: the quotient truncated toward zero. */
  function Quot(a: int, b: int): int
    requires b != 0
  {
    var m := Abs(a) / Abs(b);
    if (a < 0) == (b < 0) then m else -m
  }

  /** The truncated quotient: its magnitude is the floor of `|a| / |b|`, and
      its sign is that of the exact quotient. */
  lemma QuotBounds(a: int, b: int)
    requires b != 0
    ensures var q := Quot(a, b);
      Abs(q) * Abs(b) <= Abs(a) < (Abs(q) + 1) * Abs(b) &&
      (q != 0 ==> ((q < 0) <==> ((a < 0) != (b < 0)))) &&
      (a >= 0 && b > 0 ==> q == a / b)
  {
    var x, d := Abs(a), Abs(b);
    var m := x / d;
    DivBounds(x, d);
    assert Abs(Quot(a, b)) == m;
  }

  lemma DivBounds(x: nat, d: nat)
    requires d > 0
    ensures (x / d) * d <= x < (x / d + 1) * d
  {
    var m := x / d;
    assert x == m * d + x % d;
    assert (m + 1) * d == m * d + d;
  }

  lemma {:induction false} DivMonotone(x1: nat, x2: nat, d: nat)
    requires d > 0 && x1 <= x2
    ensures x1 / d <= x2 / d
  {
    var m1, m2 := x1 / d, x2 / d;
    DivBounds(x1, d);
    DivBounds(x2, d);
    if m1 > m2 {
      MulMonotone(d, m2 + 1, m1);
    }
  }

  /** `10 ** n`, as `BigNumber.from('10').pow(n)` for a non-negative exponent. */
  function Pow10(n: nat): (p: nat)
    ensures p >= 1
  {
    if n == 0 then 1 else 10 * Pow10(n - 1)
  }

  lemma MulMonotone(c: int, x: int, y: int)
    requires c >= 0 && x <= y
    ensures c * x <= c * y
  {
    assert c * y - c * x == c * (y - x);
  }

  lemma {:induction false} QuotZero(b: int)
    requires b != 0
    ensures Quot(0, b) == 0
  {
    QuotBounds(0, b);
  }

  lemma {:induction false} DivExact(x: nat, d: nat)
    requires d > 0
    ensures (x * d) / d == x
  {
    var m := (x * d) / d;
    DivBounds(x * d, d);
    if m < x {
      MulMonotone(d, m + 1, x);
    } else if m > x {
      MulMonotone(d, x + 1, m);
    }
  }

  /** Dividing an exact multiple gives the factor back. */
  lemma {:induction false} QuotExact(a: int, b: int)
    requires b > 0
    ensures Quot(a * b, b) == a
  {
    if a >= 0 {
      MulMonotone(b, 0, a);
      assert Abs(a * b) == a * b;
      DivExact(a, b);
    } else {
      MulMonotone(b, 1, -a);
      assert Abs(a * b) == (-a) * b;
      DivExact(-a, b);
    }
  }

  /** Truncating division by a positive divisor never decreases when the
      dividend grows. */
  lemma {:induction false} QuotMonotone(a1: int, a2: int, b: int)
    requires b > 0 && a1 <= a2
    ensures Quot(a1, b) <= Quot(a2, b)
  {
    if a1 >= 0 {
      DivMonotone(a1, a2, b);
    } else if a2 < 0 {
      DivMonotone(-a2, -a1, b);
    }
  }

  /** `x.mul(r).div(scale)` is at most `x` when `0 <= r <= scale`: a fee taken
      at a rate of at most 100% never exceeds the amount it is taken from. */
  lemma {:induction false} QuotScaledBound(x: int, r: int, scale: int)
    requires x >= 0 && 0 <= r <= scale && scale > 0
    ensures 0 <= Quot(x * r, scale) <= x
  {
    MulMonotone(x, r, scale);
    MulMonotone(x, 0, r);
    QuotMonotone(x * r, x * scale, scale);
    QuotMonotone(0, x * r, scale);
    QuotZero(scale);
    QuotExact(x, scale);
  }
}
