/** Numbers counted in rows of q: the row of a number, its place in the row and
    the first number of a row. By IsQuotient and IsProduct these are a quotient, a
    remainder and a product.
 */
module Rows {
  import opened Division

  function Row(n: nat, q: nat): nat
    requires q >= 1
  {
    if n < q then 0 else 1 + Row(n - q, q)
  }

  function Place(n: nat, q: nat): (place: nat)
    requires q >= 1
    ensures place < q
  {
    if n < q then n else Place(n - q, q)
  }

  function First(row: nat, q: nat): nat {
    if row == 0 then 0 else First(row - 1, q) + q
  }

  lemma {:induction false} IsQuotient(n: nat, q: nat)
    requires q >= 1
    ensures Row(n, q) == n / q && Place(n, q) == n % q
  {
    Parts(n, q);
    IsProduct(Row(n, q), q);
    assert n == q * Row(n, q) + Place(n, q);
    RemainderOfProduct(q, Row(n, q), Place(n, q));
  }

  lemma {:induction false} IsProduct(row: nat, q: nat)
    ensures First(row, q) == row * q
  {
    if row > 0 {
      IsProduct(row - 1, q);
      assert row * q == (row - 1) * q + q;
    }
  }

  lemma {:induction false} Parts(n: nat, q: nat)
    requires q >= 1
    ensures n == First(Row(n, q), q) + Place(n, q)
  {
    if n >= q {
      Parts(n - q, q);
    }
  }

  lemma {:induction false} PartsOf(row: nat, q: nat, place: nat)
    requires place < q
    ensures Row(First(row, q) + place, q) == row && Place(First(row, q) + place, q) == place
    decreases row
  {
    if row > 0 {
      PartsOf(row - 1, q, place);
    }
  }

  lemma InRowIff(n: nat, q: nat, row: nat)
    requires q >= 1
    ensures Row(n, q) == row <==> First(row, q) <= n < First(row, q) + q
  {
    Parts(n, q);
    if First(row, q) <= n < First(row, q) + q {
      PartsOf(row, q, n - First(row, q));
    }
  }

  lemma NextPlace(n: nat, q: nat)
    requires q >= 1
    ensures if Place(n, q) == q - 1
            then Place(n + 1, q) == 0 && Row(n + 1, q) == Row(n, q) + 1
            else Place(n + 1, q) == Place(n, q) + 1 && Row(n + 1, q) == Row(n, q)
  {
    Parts(n, q);
    if Place(n, q) == q - 1 {
      PartsOf(Row(n, q) + 1, q, 0);
    } else {
      PartsOf(Row(n, q), q, Place(n, q) + 1);
    }
  }

  lemma {:induction false} FirstGrows(a: nat, b: nat, q: nat)
    requires a <= b
    ensures First(a, q) <= First(b, q) && (a < b ==> First(a, q) + q <= First(b, q))
    decreases b
  {
    if a < b {
      FirstGrows(a, b - 1, q);
    }
  }
}
