/** Facts about division that several modules need. */
module Division {

  lemma QuotientIsUnique(n: int, d: int, q: int, r: int)
    requires d > 0 && n == q * d + r && 0 <= r < d
    ensures n / d == q && n % d == r
  {
    var e := n / d - q;
    assert n == (n / d) * d + n % d;
    assert e * d == r - n % d;
    if e >= 1 {
      AtLeastOnce(e, d);
    } else if e <= -1 {
      assert (-e) * d == -(e * d);
      AtLeastOnce(-e, d);
    }
  }

  lemma AtLeastOnce(e: int, d: int)
    requires e >= 1 && d > 0
    ensures e * d >= d
  {
  }

  lemma DividedTwice(v: nat, d: nat, e: nat)
    requires d > 0 && e > 0
    ensures d * e == e * d > 0 && v / d / e == v / (d * e)
  {
    var q, r := v / d, v % d;
    var q1, r1 := q / e, q % e;
    AtLeastOnce(e, d);
    RemainderFits(d, e, r, r1);
    Distributed(q1, e, r1, d);
    QuotientIsUnique(v, e * d, q1, r1 * d + r);
  }

  lemma RemainderFits(d: nat, e: nat, r: nat, r1: nat)
    requires r < d && r1 < e
    ensures 0 <= r1 * d + r < e * d
  {
    AtLeastOnce(e - r1, d);
    assert (e - r1) * d == e * d - r1 * d;
  }

  lemma Distributed(q1: int, e: int, r1: int, d: int)
    ensures (e * q1 + r1) * d == q1 * (e * d) + r1 * d
  {
  }
}
