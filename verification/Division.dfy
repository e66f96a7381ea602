/** What the solver has to be told about quotients and remainders. */
module Division {

  lemma RemainderOfProduct(d: nat, q: nat, r: nat)
    requires r < d
    ensures (d * q + r) % d == r && (d * q + r) / d == q
  {
    var n := d * q + r;
    assert n == d * (n / d) + n % d;
    var k := q - n / d;
    assert d * k == n % d - r;
    assert k >= 1 ==> d * k >= d;
    assert k <= -1 ==> d * k <= d * -1;
    assert k == 0;
  }
}
