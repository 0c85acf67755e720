/** Powers of two. */
module Arithmetic {
  function Pow2(k: nat): (p: nat)
    ensures p >= 1
  {
    if k == 0 then 1 else 2 * Pow2(k - 1)
  }

  lemma {:induction false} Pow2Grows(k: nat, j: nat)
    requires k <= j
    ensures Pow2(k) <= Pow2(j)
    decreases j
  {
    if k < j { Pow2Grows(k, j - 1); }
  }

  lemma {:induction false} Pow2Values()
    ensures Pow2(3) == 8 && Pow2(8) == 256 && Pow2(10) == 1024 && Pow2(11) == 2048 && Pow2(12) == 4096
    ensures Pow2(30) == 0x4000_0000 && Pow2(31) == 0x8000_0000
  {
    assert Pow2(3) == 8;
    assert Pow2(6) == 64;
    assert Pow2(8) == 256;
    assert Pow2(10) == 1024;
    Pow2Sum(10, 10);
    Pow2Sum(20, 10);
  }

  lemma {:induction false} Pow2Sum(k: nat, j: nat)
    ensures Pow2(k + j) == Pow2(k) * Pow2(j)
    decreases j
  {
    if j > 0 {
      Pow2Sum(k, j - 1);
      assert Pow2(k + j) == 2 * Pow2(k + (j - 1));
    }
  }

  /** The section of length `size` that position c falls in. */
  function Quotient(c: nat, size: nat): (n: nat)
    requires size > 0
    ensures n * size <= c
  {
    c / size
  }

  /** Position r of section q, and where it lies. */
  lemma {:induction false} DivMod(c: nat, size: nat)
    requires size > 0
    ensures c == c / size * size + c % size && c % size < size
  {
  }

  lemma {:induction false} DivUnique(q: nat, r: nat, size: nat)
    requires r < size
    ensures (q * size + r) / size == q && (q * size + r) % size == r
  {
    var c := q * size + r;
    DivMod(c, size);
    SameQuotient(q, r, c / size, c % size, size);
  }

  lemma {:induction false} QuotientOf(a: nat, q: nat, size: nat)
    requires size > 0 && a == q * size
    ensures Quotient(a, size) == q
  {
    DivUnique(q, 0, size);
  }

  lemma {:induction false} SameQuotient(q: nat, r: nat, p: nat, s: nat, size: nat)
    requires q * size + r == p * size + s && r < size && s < size
    ensures q == p && r == s
  {
    if q < p { MulLess(q, p, size); }
    if p < q { MulLess(p, q, size); }
  }

  lemma {:induction false} MulLess(q: nat, p: nat, size: nat)
    requires q < p
    ensures q * size + size <= p * size
    decreases p
  {
    assert p * size == (p - 1) * size + size;
    if q < p - 1 { MulLess(q, p - 1, size); }
  }

  lemma {:induction false} HalfDivides(n: nat, p: nat)
    requires p > 0 && n % (2 * p) == 0
    ensures n % p == 0
  {
    DivMod(n, 2 * p);
    var q := n / (2 * p);
    assert n == (2 * q) * p;
    DivUnique(2 * q, 0, p);
  }

  lemma {:induction false} Pow2Divides(n: nat, k: nat, m: nat)
    requires k <= m && n % Pow2(m) == 0
    ensures n % Pow2(k) == 0
    decreases m
  {
    if k < m {
      HalfDivides(n, Pow2(m - 1));
      Pow2Divides(n, k, m - 1);
    }
  }

  lemma {:induction false} MulNext(n: nat, size: nat)
    ensures (n + 1) * size == n * size + size
  {
  }
}
