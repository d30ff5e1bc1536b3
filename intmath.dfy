/**
  Integer helpers: C#'s truncating `/` and `%`, `ushort` casts, and the division facts the
  index mappings need.
*/
module IntMath {

  /** C# integer division `a / b`: the quotient rounded toward zero. */
  function CDiv(a: int, b: int): int
    requires b != 0
  {
    var q := Abs(a) / Abs(b);
    if (a < 0) == (b < 0) then q else -q
  }

  /** C# remainder `a % b`: it takes the sign of the dividend. */
  function CRem(a: int, b: int): int
    requires b != 0
  {
    a - b * CDiv(a, b)
  }

  function Abs(a: int): nat {
    if a < 0 then -a else a
  }

  /** The C# cast `(ushort)v`: the value modulo 2^16. */
  function ToUShort(v: int): (r: int)
    ensures 0 <= r < 65536
    ensures 0 <= v < 65536 ==> r == v
  {
    v % 65536
  }

  /** For a non-negative dividend and a positive divisor C# and Dafny agree. */
  lemma CDivAgrees(a: int, b: int)
    requires a >= 0 && b > 0
    ensures CDiv(a, b) == a / b && CRem(a, b) == a % b
  {
  }

  /** Truncation differs from Dafny's division for a negative dividend: -1 / 16 is 0 in C#. */
  lemma CDivTruncates()
    ensures CDiv(-1, 16) == 0 && CRem(-1, 16) == -1
    ensures -1 / 16 == -1 && -1 % 16 == 15
  {
  }

  /** Quotient and remainder are determined by any decomposition with a remainder in range. */
  lemma DivModUnique(n: int, d: int, q: int, r: int)
    requires d > 0 && 0 <= r < d && n == q * d + r
    ensures n / d == q && n % d == r
  {
    var q', r' := n / d, n % d;
    assert n == q' * d + r';
    assert (q - q') * d == r' - r;
    if q > q' {
      MulMonotone(q - q', 1, d);
    } else if q < q' {
      MulMonotone(q' - q, 1, d);
    }
  }

  lemma MulMonotone(a: int, b: int, c: int)
    requires a >= b && c >= 0
    ensures a * c >= b * c
  {
  }

  /** Dividing twice is dividing by the product. */
  lemma DivDiv(i: int, a: int, b: int)
    requires i >= 0 && a > 0 && b > 0
    ensures (i / a) / b == i / (a * b)
    ensures 0 <= (i / a) % b < b
  {
    var q, r := (i / a) / b, (i / a) % b;
    var s := i % a;
    assert i / a == q * b + r;
    assert i == (q * b + r) * a + s;
    assert i == q * (a * b) + (r * a + s) by {
      assert (q * b + r) * a == q * (a * b) + r * a;
    }
    assert r * a <= (b - 1) * a by {
      MulMonotone(b - 1, r, a);
    }
    assert (b - 1) * a == a * b - a;
    DivModUnique(i, a * b, q, r * a + s);
  }

  /** A non-negative value below `k * d` has a quotient below `k`. */
  lemma DivBelow(i: int, d: int, k: int)
    requires 0 <= i < k * d && d > 0
    ensures 0 <= i / d < k
  {
    if i / d >= k {
      MulMonotone(i / d, k, d);
    }
  }
}
