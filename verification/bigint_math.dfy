/**
 Integer semantics of the graph-ts `BigInt` operations the indexer uses.

 `BigInt` is a signed arbitrary-precision integer, so `plus`, `minus` and
 `times` are Dafny's `+`, `-` and `*` on `int`. Its `div` truncates toward
 zero, whereas Dafny's `/` is Euclidean; `TDiv` is the truncating quotient.
 */
module BigIntMath {

  function Abs(x: int): nat {
    if x < 0 then -x else x
  }

  /** The product of a quotient's magnitude with the divisor's magnitude is the
      magnitude of the product. */
  lemma AbsMul(q: int, b: int)
    ensures Abs(q * b) == Abs(q) * Abs(b)
  {
    if q < 0 && b < 0 {
      assert q * b == (-q) * (-b);
    } else if q < 0 {
      assert q * b == -((-q) * b);
    } else if b < 0 {
      assert q * b == -(q * (-b));
    }
  }

  /** `BigInt.div`: the quotient rounded toward zero. The contract pins the
      quotient down completely: `q * b` lies between zero and `a`, on the same
      side of zero as `a`, less than one divisor away from it. */
  function TDiv(a: int, b: int): (q: int)
    requires b != 0
    ensures Abs(q * b) <= Abs(a) < Abs(q * b) + Abs(b)
    ensures q * b == 0 || (q * b < 0 <==> a < 0)
  {
    var n: int := Abs(a) / Abs(b);
    var q := if (a < 0) == (b < 0) then n else -n;
    SignedQuotient(a, b, n, q);
    q
  }

  /** The facts behind `TDiv`'s contract, for the magnitude quotient `n` with
      the sign of `a / b` attached. */
  lemma SignedQuotient(a: int, b: int, n: int, q: int)
    requires b != 0 && n == Abs(a) / Abs(b)
    requires q == if (a < 0) == (b < 0) then n else -n
    ensures Abs(q * b) <= Abs(a) < Abs(q * b) + Abs(b)
    ensures q * b == 0 || (q * b < 0 <==> a < 0)
  {
    AbsMul(q, b);
    assert Abs(q) * Abs(b) == n * Abs(b);
    if n == 0 {
      assert q * b == 0;
    } else if (a < 0) == (b < 0) {
      if b < 0 {
        assert q * b == n * b;
        assert n * b < 0 by { MulMonotone(b, 0, n); assert b * n == n * b; }
      } else {
        assert q * b == n * b;
        assert n * b > 0;
      }
    } else {
      if b < 0 {
        assert q * b == (-n) * b == n * (-b);
        assert n * (-b) > 0;
      } else {
        assert q * b == -(n * b);
        assert n * b > 0;
      }
    }
  }

  /** Any quotient that meets `TDiv`'s contract is `TDiv`'s result: the
      contract is a complete description of truncating division. */
  lemma TDivUnique(a: int, b: int, q: int)
    requires b != 0
    requires Abs(q * b) <= Abs(a) < Abs(q * b) + Abs(b)
    requires q * b == 0 || (q * b < 0 <==> a < 0)
    ensures q == TDiv(a, b)
  {
    var t := TDiv(a, b);
    AbsMul(q, b);
    AbsMul(t, b);
    // Both |q| and |t| are the Euclidean quotient of |a| by |b|.
    DivFromBounds(Abs(a), Abs(b), Abs(q));
    DivFromBounds(Abs(a), Abs(b), Abs(t));
    assert Abs(q) == Abs(t);
  }

  /** A non-negative `n` with `n * d <= x < n * d + d` is `x / d`. */
  lemma DivFromBounds(x: nat, d: nat, n: nat)
    requires d > 0
    requires n * d <= x < n * d + d
    ensures n == x / d
  {
    var e := x / d;
    assert e * d <= x < e * d + d;
    if n < e {
      assert (n + 1) * d <= e * d by { MulMonotone(n + 1, e, d); }
    } else if e < n {
      assert (e + 1) * d <= n * d by { MulMonotone(e + 1, n, d); }
    }
  }

  /** On a non-negative dividend and a positive divisor, truncation and
      Euclidean division agree. */
  lemma TDivNonNegative(a: int, b: int)
    requires a >= 0 && b > 0
    ensures TDiv(a, b) == a / b
  {
  }

  /** Dividing an exact multiple gives the multiplier back, whatever the signs. */
  lemma {:induction false} TDivExact(k: int, b: int)
    requires b != 0
    ensures TDiv(k * b, b) == k
  {
    AbsMul(k, b);
    TDivUnique(k * b, b, k);
  }

  lemma MulMonotone(x: int, y: int, c: int)
    requires x <= y && c >= 0
    ensures x * c <= y * c
  {
    assert y * c - x * c == (y - x) * c;
  }

  /** Euclidean division by a positive divisor is monotone in the dividend. */
  lemma DivMonotone(x: int, y: int, d: int)
    requires 0 <= x <= y && d > 0
    ensures x / d <= y / d
  {
    var qx, qy := x / d, y / d;
    if qy < qx {
      assert (qy + 1) * d <= qx * d by { MulMonotone(qy + 1, qx, d); }
    }
  }

  /** `x * c / d <= c` when `0 <= x <= d`: a fraction at most one of `c`. */
  lemma ScaledFractionBound(x: int, c: int, d: int)
    requires 0 <= x <= d && d > 0 && c >= 0
    ensures 0 <= x * c / d <= c
  {
    MulMonotone(x, d, c);
    assert x * c >= 0;
    DivMonotone(x * c, d * c, d);
    assert d * c / d == c by { assert d * c == c * d; }
  }
}
