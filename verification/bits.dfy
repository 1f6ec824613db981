// Bitwise operators on unbounded two's complement integers (JavaScript's BigInt), with a non-negative right
// operand, and what they mean arithmetically.
module Bits {

  function Pow2(n: nat): (p: nat)
    ensures p >= 1
  {
    if n == 0 then 1 else 2 * Pow2(n - 1)
  }

  function Or(a: int, b: nat): int
    decreases b
  {
    if b == 0 then a else 2 * Or(a / 2, b / 2) + (if a % 2 == 1 || b % 2 == 1 then 1 else 0)
  }

  function And(a: int, b: nat): int
    decreases b
  {
    if b == 0 then 0 else 2 * And(a / 2, b / 2) + (if a % 2 == 1 && b % 2 == 1 then 1 else 0)
  }

  function Shl(a: int, n: nat): int { a * Pow2(n) }

  // Arithmetic shift: floor division, also below zero.
  function Shr(a: int, n: nat): int { a / Pow2(n) }

  lemma OrEven(half: int, b: nat)
    ensures Or(2 * half, b) == 2 * Or(half, b / 2) + b % 2
  {
  }

  lemma Double(a: int, m: int)
    ensures a * (2 * m) == 2 * (a * m)
  {
  }

  // Or of a multiple of 2^n with anything below 2^n is their sum.
  lemma {:induction false} OrIsSum(a: int, n: nat, b: nat)
    requires b < Pow2(n)
    ensures Or(Shl(a, n), b) == Shl(a, n) + b
    decreases n
  {
    if n > 0 {
      Double(a, Pow2(n - 1));
      OrEven(Shl(a, n - 1), b);
      hide Or;
      OrIsSum(a, n - 1, b / 2);
    }
  }

  // A mask of n ones keeps the remainder modulo 2^n.
  lemma {:induction false} AndIsRemainder(a: int, n: nat)
    ensures And(a, Pow2(n) - 1) == a % Pow2(n)
    decreases n
  {
    if n == 0 {
      RemainderByOne(a);
    } else {
      AndIsRemainder(a / 2, n - 1);
      AndStep(a, Pow2(n - 1));
    }
  }

  lemma AndStep(a: int, m: nat)
    requires m > 0 && And(a / 2, m - 1) == (a / 2) % m
    ensures And(a, 2 * m - 1) == a % (2 * m)
  {
    AndOnes(a, m);
    hide And;
    HalfRemainder(a, m);
  }

  lemma AndOnes(a: int, m: nat)
    requires m > 0
    ensures And(a, 2 * m - 1) == 2 * And(a / 2, m - 1) + a % 2
  {
    assert (2 * m - 1) / 2 == m - 1 && (2 * m - 1) % 2 == 1;
  }

  lemma RemainderByOne(a: int)
    ensures a % 1 == 0
  {
  }

  lemma HalfRemainder(a: int, m: int)
    requires m > 0
    ensures a % (2 * m) == 2 * ((a / 2) % m) + a % 2
  {
    var h, q, r := a / 2, a / 2 / m, (a / 2) % m;
    assert h == q * m + r;
    assert a == 2 * h + a % 2;
    assert a == (2 * m) * q + (2 * r + a % 2) by {
      assert 2 * (q * m) == (2 * m) * q;
    }
    QuotientIs(a, 2 * m, q, 2 * r + a % 2);
  }

  lemma QuotientIs(a: int, m: int, q: int, r: int)
    requires m > 0 && a == m * q + r && 0 <= r < m
    ensures a / m == q && a % m == r
  {
    var d := a / m - q;
    assert a == m * (a / m) + a % m;
    assert m * d == r - a % m by {
      assert m * (a / m) - m * q == m * d;
    }
    assert d >= 1 ==> m * d >= m;
    assert d <= -1 ==> m * d <= -m;
  }
}
