/** Multiples of a variable alignment, by repeated subtraction. */
module Alignment {
  import opened Division

  predicate Multiple(n: nat, a: nat) {
    n == 0 || (0 < a <= n && Multiple(n - a, a))
  }

  /** The least multiple that is not below n. */
  function RoundUp(n: nat, a: nat): (r: nat)
    requires a > 0
    ensures n <= r < n + a && Multiple(r, a)
  {
    if n == 0 then 0 else if n <= a then a else a + RoundUp(n - a, a)
  }

  lemma {:induction false} MultipleQuotient(n: nat, a: nat) returns (q: nat)
    requires a > 0 && Multiple(n, a)
    ensures n == a * q
    decreases n
  {
    if n == 0 {
      q := 0;
    } else {
      var p := MultipleQuotient(n - a, a);
      q := p + 1;
    }
  }

  lemma {:induction false} ProductIsMultiple(a: nat, q: nat)
    requires a > 0
    ensures Multiple(a * q, a)
    decreases q
  {
    if q > 0 {
      ProductIsMultiple(a, q - 1);
      assert a * q == a * (q - 1) + a;
    }
  }

  /** A multiple is what leaves no remainder. */
  lemma {:induction false} MultipleIsRemainder(n: nat, a: nat)
    requires a > 0
    ensures Multiple(n, a) <==> n % a == 0
  {
    if Multiple(n, a) {
      var q := MultipleQuotient(n, a);
      QuotientIs(n, a, q, 0);
    }
    if n % a == 0 {
      assert n == a * (n / a);
      ProductIsMultiple(a, n / a);
    }
  }

  /** Rounding up, in one division. */
  lemma {:induction false} RoundUpIs(n: nat, a: nat)
    requires a > 0
    ensures RoundUp(n, a) == (n + a - 1) / a * a
  {
    var r := RoundUp(n, a);
    var q := MultipleQuotient(r, a);
    QuotientIs(n + a - 1, a, q, n + a - 1 - r);
  }
}
