/** Facts about integer division used by the byte encoding and the time buckets. */
module Arith {

  /** The quotient is determined by any decomposition v == q * m + r with 0 <= r < m. */
  lemma DivUnique(v: int, m: int, q: int, r: int)
    requires m >= 1 && 0 <= r < m && v == q * m + r
    ensures v / m == q
  {
    var q', r' := v / m, v % m;
    var d := q - q';
    assert d * m == r' - r by {
      assert v == q' * m + r';
      assert q * m - q' * m == d * m;
    }
    if d >= 1 {
      MulAtLeast(d, m);
    } else if d <= -1 {
      MulAtLeast(-d, m);
    }
  }

  lemma MulAtLeast(a: int, m: int)
    requires a >= 1 && m >= 1
    ensures a * m >= m
  {
    assert a * m == (a - 1) * m + m;
    assert (a - 1) * m >= 0;
  }

  /** Dividing by a and then by b is dividing by a * b; the remainder splits accordingly. */
  lemma DivDiv(v: nat, a: nat, b: nat)
    requires a >= 1 && b >= 1
    ensures (v / a) / b == v / (a * b)
    ensures v % (a * b) == a * ((v / a) % b) + v % a
  {
    var q, r := (v / a) / b, (v / a) % b;
    assert v / a == q * b + r;
    assert v == a * (q * b) + (a * r + v % a);
    assert a * (q * b) == q * (a * b);
    assert a * r + v % a < a * b by {
      assert a * r <= a * (b - 1) by {
        MulMono(a, r, b - 1);
      }
    }
    DivUnique(v, a * b, q, a * r + v % a);
    assert v == (v / (a * b)) * (a * b) + v % (a * b);
  }

  lemma MulMono(a: nat, x: nat, y: nat)
    requires x <= y
    ensures a * x <= a * y
  {
    assert a * y - a * x == a * (y - x);
  }

  /** Integer division by a positive number is monotone. */
  lemma DivMono(x: int, y: int, m: int)
    requires x <= y && m >= 1
    ensures x / m <= y / m
  {
    if x / m > y / m {
      assert x == (x / m) * m + x % m;
      assert y == (y / m) * m + y % m;
      assert (x / m) * m - (y / m) * m == (x / m - y / m) * m;
      MulAtLeast(x / m - y / m, m);
    }
  }
}
