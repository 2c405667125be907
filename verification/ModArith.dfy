/** Congruences and modular exponentiation. */
module ModArith {

  function Pow(b: int, e: nat): int
  {
    if e == 0 then 1 else b * Pow(b, e - 1)
  }

  /** big.Int.Exp(b, e, n). */
  function ModExp(b: int, e: nat, n: nat): nat
    requires n > 0
  {
    Pow(b, e) % n
  }

  ghost predicate Congruent(x: int, y: int, n: nat)
    requires n > 0
  {
    x % n == y % n
  }

  // ---------- congruences ----------

  /** The remainder is determined by any quotient that leaves a small rest. */
  lemma RemainderUnique(x: int, n: nat, q: int, r: int)
    requires n > 0 && x == q * n + r && 0 <= r < n
    ensures x % n == r
  {
    var d := x / n - q;
    assert d * n == r - x % n;
    assert d >= 1 ==> d * n >= n;
    assert d <= -1 ==> d * n <= -1 * n;
  }

  /** Numbers that differ by a multiple of n are congruent, and the other way round. */
  lemma CongruentIfDiffer(x: int, y: int, n: nat, k: int)
    requires n > 0 && x == y + k * n
    ensures Congruent(x, y, n)
  {
    var q, r := y / n, y % n;
    assert x == (q + k) * n + r;
    RemainderUnique(x, n, q + k, r);
  }

  lemma CongruentQuotient(x: int, y: int, n: nat) returns (k: int)
    requires n > 0 && Congruent(x, y, n)
    ensures x == y + k * n
  {
    k := x / n - y / n;
    assert x == (x / n) * n + x % n && y == (y / n) * n + y % n;
    assert k * n == (x / n) * n - (y / n) * n;
  }

  lemma CongruentMod(x: int, n: nat)
    requires n > 0
    ensures Congruent(x % n, x, n)
  {
  }

  lemma CongruentScale(x: int, x': int, y: int, n: nat)
    requires n > 0 && Congruent(x, x', n)
    ensures Congruent(x * y, x' * y, n)
  {
    var k := CongruentQuotient(x, x', n);
    assert (x' + k * n) * y == x' * y + (k * n) * y;
    assert (k * n) * y == (k * y) * n;
    CongruentIfDiffer(x * y, x' * y, n, k * y);
  }

  lemma CongruentMul(x: int, x': int, y: int, y': int, n: nat)
    requires n > 0 && Congruent(x, x', n) && Congruent(y, y', n)
    ensures Congruent(x * y, x' * y', n)
  {
    CongruentScale(x, x', y, n);
    CongruentScale(y, y', x', n);
    assert x' * y == y * x' && x' * y' == y' * x';
  }

  lemma CongruentAdd(x: int, x': int, y: int, y': int, n: nat)
    requires n > 0 && Congruent(x, x', n) && Congruent(y, y', n)
    ensures Congruent(x + y, x' + y', n) && Congruent(x - y, x' - y', n)
  {
    var k := CongruentQuotient(x, x', n);
    var l := CongruentQuotient(y, y', n);
    assert (k + l) * n == k * n + l * n && (k - l) * n == k * n - l * n;
    CongruentIfDiffer(x + y, x' + y', n, k + l);
    CongruentIfDiffer(x - y, x' - y', n, k - l);
  }

  lemma {:induction false} CongruentPow(x: int, x': int, e: nat, n: nat)
    requires n > 0 && Congruent(x, x', n)
    ensures Congruent(Pow(x, e), Pow(x', e), n)
  {
    if e > 0 {
      CongruentPow(x, x', e - 1, n);
      CongruentMul(x, x', Pow(x, e - 1), Pow(x', e - 1), n);
    }
  }

  // ---------- powers ----------

  lemma Associate(a: int, b: int, c: int)
    ensures a * (b * c) == (a * b) * c
  {
  }

  lemma {:induction false} PowAdd(b: int, d: nat, e: nat)
    ensures Pow(b, d + e) == Pow(b, d) * Pow(b, e)
  {
    if d > 0 {
      PowAdd(b, d - 1, e);
      assert d - 1 + e == d + e - 1;
      Associate(b, Pow(b, d - 1), Pow(b, e));
    }
  }

  lemma {:induction false} PowMul(b: int, d: nat, e: nat)
    ensures d * e >= 0
    ensures Pow(b, d * e) == Pow(Pow(b, d), e)
    decreases e
  {
    if e > 0 {
      PowMul(b, d, e - 1);
      assert d * e == d + d * (e - 1);
      PowAdd(b, d, d * (e - 1));
    }
  }

  /** An odd modulus divides no power of two, prime or not. */
  lemma {:induction false} PowerOfTwoNotZero(e: nat, n: nat)
    requires n > 1 && n % 2 == 1
    ensures Pow(2, e) % n != 0
  {
    if e == 0 {
      RemainderUnique(1, n, 0, 1);
    } else {
      PowerOfTwoNotZero(e - 1, n);
      var m := Pow(2, e - 1);
      if (2 * m) % n == 0 {
        HalveMultiple(m, n);
      }
    }
  }

  lemma HalveMultiple(m: int, n: nat)
    requires n > 0 && n % 2 == 1 && (2 * m) % n == 0
    ensures m % n == 0
  {
    var q := (2 * m) / n;
    assert 2 * m == q * n;
    var j := n / 2;
    assert n == 2 * j + 1;
    assert q * n == 2 * (q * j) + q;
    var h := q / 2;
    assert q == 2 * h;
    assert 2 * m == 2 * (h * n);
    RemainderUnique(m, n, h, 0);
  }
}
