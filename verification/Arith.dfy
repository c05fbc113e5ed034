/** Facts about multiplication and integer division the solver needs spelled out. */
module Arith {

  lemma MulMonotone(x: int, y: int, base: nat)
    requires x <= y
    ensures x * base <= y * base
  {
    assert (y - x) * base >= 0;
  }

  lemma QuotientBrackets(v: nat, base: nat)
    requires base > 0
    ensures v / base * base <= v < (v / base + 1) * base
  {
    assert v == v / base * base + v % base;
    assert (v / base + 1) * base == v / base * base + base;
  }

  lemma Regroup(x: int, y: int, z: int)
    ensures x * y * z == x * (z * y)
  {
    assert y * z == z * y;
    assert x * y * z == x * (y * z);
  }

  /** The quotient is the one number whose multiple lies just below v. */
  lemma QuotientUnique(v: nat, base: nat, q: nat)
    requires base > 0 && q * base <= v < (q + 1) * base
    ensures v / base == q
  {
    var p := v / base;
    QuotientBrackets(v, base);
    if p < q {
      MulMonotone(p + 1, q, base);
    } else if q < p {
      MulMonotone(q + 1, p, base);
    }
  }

  lemma Quotient(low: nat, base: nat, high: nat)
    requires low < base
    ensures (low + base * high) / base == high
    ensures (low + base * high) % base == low
  {
    assert high * base == base * high && (high + 1) * base == base * high + base;
    QuotientUnique(low + base * high, base, high);
  }

  lemma QuotientBounded(v: nat, base: nat)
    requires base > 0
    ensures 0 <= v / base <= v
  {
    MulMonotone(1, base, v / base);
    assert v == v / base * base + v % base;
  }

  /** Multiples that bracket the same number: the larger base needs no larger factor. */
  lemma FloorAntitone(v: nat, m: nat, m': nat, q: nat, q': nat)
    requires m <= m'
    requires v < (q + 1) * m && q' * m' <= v
    ensures q' <= q
  {
    MulMonotone(m, m', q');
    assert q' * m == m * q' && q' * m' == m' * q';
    if q < q' {
      MulMonotone(q + 1, q', m);
    }
  }
}
