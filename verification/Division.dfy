/** Quotient and remainder by a variable divisor. */
module Division {
  lemma Scale(s: nat, d: int)
    ensures d >= 1 ==> s * d >= s
    ensures d <= -1 ==> s * d <= -(s as int)
  {
  }

  lemma QuotientIs(i: nat, s: nat, q: nat, r: nat)
    requires i == s * q + r && r < s
    ensures i / s == q && i % s == r
  {
    var d := i / s - q;
    assert s * d == s * (i / s) - s * q;
    Scale(s, d);
  }

  lemma QuotientBelow(n: nat, s: nat, q: nat)
    requires s > 0 && n < q * s
    ensures 0 <= n / s < q && 0 <= n % s < s
  {
    var d := n / s - q;
    assert s * d == s * (n / s) - s * q;
    Scale(s, d);
  }

  /** Pieces of equal width do not run past the end of all of them. */
  lemma PieceFits(i: nat, n: nat, width: nat)
    requires i < n
    ensures i * width + width == (i + 1) * width <= n * width
  {
    Scale(width, n - i);
    assert width * (n - i) == n * width - i * width;
  }
}
