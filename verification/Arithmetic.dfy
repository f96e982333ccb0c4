/** Facts about quotients and remainders that the solver is not good at. */
module Arithmetic {

  /** A product the solver need not look into. */
  function Times(a: int, b: int): (r: int)
    ensures a >= 0 && b >= 0 ==> r >= 0
  {
    a * b
  }

  lemma Distributes(a: int, b: int, m: int)
    ensures (a + b) * m == a * m + b * m
    ensures (a - b) * m == a * m - b * m
  {
  }

  lemma MultipleIsLarge(k: int, m: int)
    requires m >= 1
    ensures k >= 1 ==> k * m >= m
    ensures k <= -1 ==> k * m <= 0 - m
  {
    if k >= 1 {
      Distributes(k - 1, 1, m);
    } else if k <= -1 {
      Distributes(k + 1, -1, m);
    }
  }

  lemma QuotientAndRemainderAreUnique(m: int, q: int, r: int, q': int, r': int)
    requires 0 <= r < m && 0 <= r' < m && q * m + r == q' * m + r'
    ensures q == q' && r == r'
  {
    Distributes(q, q', m);
    MultipleIsLarge(q - q', m);
  }

  lemma RemainderOf(m: int, q: int, r: int)
    requires 0 <= r < m
    ensures (q * m + r) / m == q && (q * m + r) % m == r
  {
    var x := q * m + r;
    QuotientAndRemainderAreUnique(m, q, r, x / m, x % m);
  }

  lemma ModuloOfSum(a: int, m: int, k: int)
    requires m >= 1
    ensures (a + m * k) % m == a % m
  {
    var q, r := a / m, a % m;
    Distributes(q, k, m);
    RemainderOf(m, q + k, r);
  }

  lemma RemaindersDiffer(a: int, b: int, m: int)
    requires m >= 1 && a < b < a + m
    ensures a % m != b % m
  {
    var p, q := a / m, b / m;
    if a % m == b % m {
      Distributes(q, p, m);
      MultipleIsLarge(q - p, m);
    }
  }
}
