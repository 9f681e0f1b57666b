/** Facts about products, quotients and remainders that Dafny does not find by itself. */
module Arithmetic {

  // ----- Products -----

  lemma MulMonotone(n: nat, a: int, b: int)
    requires a <= b
    ensures n * a <= n * b
    ensures a * n <= b * n
  {
    assert n * (b - a) >= 0;
  }

  lemma MulOrder(n: nat, a: int, b: int)
    requires n > 0
    ensures n * a <= n * b <==> a <= b
    ensures a * n < b * n <==> a < b
  {
    if a <= b {
      MulMonotone(n, a, b);
    } else {
      MulMonotone(n, b + 1, a);
      MulDistributes(b, 1, n);
    }
    if a < b {
      MulMonotone(n, a + 1, b);
      MulDistributes(a, 1, n);
    } else {
      MulMonotone(n, b, a);
    }
  }

  lemma MulDistributes(a: int, b: int, n: int)
    ensures (a + b) * n == a * n + b * n
    ensures n * (a + b) == n * a + n * b
  {
  }

  lemma MulSwaps(a: int, b: int, c: int)
    ensures a * (b * c) == b * (a * c)
    ensures (a * b) * c == (a * c) * b
  {
  }

  lemma MulPositive(a: nat, b: nat)
    requires a > 0 && b > 0
    ensures a * b > 0
  {
  }

  lemma SmallMultiple(n: int, d: int)
    requires n > 0 && -n < n * d < n
    ensures d == 0
  {
    if d > 0 {
      MulMonotone(n, 1, d);
      assert false;
    } else if d < 0 {
      MulMonotone(n, d, -1);
      assert false;
    }
  }

  // ----- Quotients and remainders -----

  lemma DivModUnique(a: int, n: nat, q: int, r: int)
    requires 0 <= r < n && a == n * q + r
    ensures a / n == q && a % n == r
  {
    var d := a / n;
    assert a == n * d + a % n;
    MulDistributes(d, -q, n);
    SmallMultiple(n, d - q);
  }

  lemma MultipleHasNoRest(k: nat, m: nat)
    requires k > 0
    ensures (k * m) % k == 0 && (k * m) / k == m
  {
    DivModUnique(k * m, k, m, 0);
  }

  lemma DivisorOfDivisor(n: nat, d: nat, k: nat)
    requires d > 0 && k > 0 && n % d == 0 && d % k == 0
    ensures n % k == 0
  {
    var a, b := n / d, d / k;
    assert n == d * a && d == k * b;
    assert n == k * (b * a);
    MultipleHasNoRest(k, b * a);
  }

  /** Counting on, a remainder grows by one or starts again. */
  lemma NextModulo(k: nat, n: nat)
    requires n > 0
    ensures (k + 1) % n == if k % n + 1 == n then 0 else k % n + 1
  {
    var q, m := k / n, k % n;
    assert k == n * q + m;
    if m + 1 == n {
      MulDistributes(q, 1, n);
      DivModUnique(k + 1, n, q + 1, 0);
    } else {
      DivModUnique(k + 1, n, q, m + 1);
    }
  }

  lemma ModuloShift(a: int, n: nat)
    requires n > 0
    ensures (a - n) % n == a % n
    ensures 0 < a < n ==> a % n != 0
  {
    var q := a / n;
    assert a == n * q + a % n;
    MulDistributes(q, -1, n);
    DivModUnique(a - n, n, q - 1, a % n);
    if 0 < a < n {
      DivModUnique(a, n, 0, a);
    }
  }

  /** Multiples of n are at least n apart. */
  lemma WholeSteps(a: nat, b: nat, n: nat)
    requires n > 0 && a < b && a % n == 0 && b % n == 0
    ensures a + n <= b
  {
    var p, q := a / n, b / n;
    assert a == n * p && b == n * q;
    MulOrder(n, q, p);
    MulMonotone(n, p + 1, q);
    MulDistributes(p, 1, n);
  }

  lemma QuotientBelow(k: nat, n: nat, made: nat)
    requires n > 0
    ensures k < n * made <==> k / n < made
  {
    var q := k / n;
    assert k == n * q + k % n;
    if q < made {
      MulMonotone(n, q + 1, made);
      MulDistributes(q, 1, n);
    } else {
      MulMonotone(n, made, q);
    }
  }

  /** The quotient of a sum carries one when the remainders do. */
  lemma DivSum(a: nat, b: nat, n: nat)
    requires n > 0
    ensures (a + b) / n == a / n + b / n + if a % n + b % n >= n then 1 else 0
  {
    var p, q, r := a / n, b / n, a % n + b % n;
    assert a == n * p + a % n && b == n * q + b % n;
    MulDistributes(p, q, n);
    if r >= n {
      MulDistributes(p + q, 1, n);
      DivModUnique(a + b, n, p + q + 1, r - n);
    } else {
      DivModUnique(a + b, n, p + q, r);
    }
  }
}
