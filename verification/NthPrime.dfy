/** The n-th prime by trial division: an endless loop that ends because there
    are infinitely many primes.
 */
module NthPrime {
  import opened Division

  ghost predicate IsPrime(n: int) {
    2 <= n && forall d {:trigger n % d} :: 2 <= d < n ==> n % d != 0
  }

  /** The number of primes up to and including n. */
  ghost function PrimesUpTo(n: int): nat {
    if n < 2 then 0 else PrimesUpTo(n - 1) + if IsPrime(n) then 1 else 0
  }

  lemma {:induction false} PrimesUpToIsMonotone(m: int, n: int)
    requires m <= n
    ensures PrimesUpTo(m) <= PrimesUpTo(n)
    decreases n - m
  {
    if m < n {
      PrimesUpToIsMonotone(m, n - 1);
    }
  }

  /** There is only one n-th prime. */
  lemma NthPrimeIsUnique(p: int, q: int)
    requires IsPrime(p) && IsPrime(q) && PrimesUpTo(p) == PrimesUpTo(q)
    ensures p == q
  {
    if p < q {
      PrimesUpToIsMonotone(p, q - 1);
    } else if q < p {
      PrimesUpToIsMonotone(q, p - 1);
    }
  }

  // -------------------------------------------------------- Euclid's theorem

  function Factorial(n: nat): nat {
    if n == 0 then 1 else n * Factorial(n - 1)
  }

  /** Factorial(n) divided by one of its factors. */
  lemma {:induction false} FactorialIsMultiple(n: nat, d: nat) returns (q: nat)
    requires 1 <= d <= n
    ensures Factorial(n) == d * q
    decreases n
  {
    if d == n {
      q := Factorial(n - 1);
    } else {
      var p := FactorialIsMultiple(n - 1, d);
      q := n * p;
      assert n * (d * p) == d * (n * p);
    }
  }

  lemma {:induction false} FactorialIsPositive(n: nat)
    ensures Factorial(n) >= 1
  {
    if n > 0 {
      FactorialIsPositive(n - 1);
      assert n * Factorial(n - 1) >= Factorial(n - 1);
    }
  }

  lemma {:induction false} LeastDivisor(n: nat, from: nat) returns (p: nat)
    requires 2 <= from <= n
    requires forall d {:trigger n % d} :: 2 <= d < from ==> n % d != 0
    ensures 2 <= p <= n && n % p == 0
    ensures forall d {:trigger n % d} :: 2 <= d < p ==> n % d != 0
    decreases n - from
  {
    if n % from == 0 {
      p := from;
    } else {
      assert from != n;
      p := LeastDivisor(n, from + 1);
    }
  }

  lemma {:induction false} LeastDivisorIsPrime(n: nat) returns (p: nat)
    requires n >= 2
    ensures IsPrime(p) && n % p == 0
  {
    p := LeastDivisor(n, 2);
    forall d | 2 <= d < p
      ensures p % d != 0
    {
      if p % d == 0 {
        var a, b := n / p, p / d;
        assert n == p * a && p == d * b;
        assert (d * b) * a == d * (b * a);
        RemainderOfProduct(d, b * a, 0);
      }
    }
  }

  /** No prime is the last one. */
  lemma PrimeBeyond(n: nat) returns (p: nat)
    ensures IsPrime(p) && p > n
  {
    FactorialIsPositive(n);
    p := LeastDivisorIsPrime(Factorial(n) + 1);
    if p <= n {
      var q := FactorialIsMultiple(n, p);
      RemainderOfProduct(p, q, 1);
    }
  }

  lemma {:induction false} EnoughPrimes(n: nat) returns (bound: nat)
    ensures PrimesUpTo(bound) >= n
    decreases n
  {
    if n == 0 {
      bound := 0;
    } else {
      var smaller := EnoughPrimes(n - 1);
      bound := PrimeBeyond(smaller);
      PrimesUpToIsMonotone(smaller, bound - 1);
    }
  }

  // ---------------------------------------------------------- trial division

  /** Factors above half the candidate need not be tried. */
  lemma NoFactorAboveHalf(candidate: int, d: int)
    requires candidate / 2 < d < candidate && d >= 2
    ensures candidate % d != 0
  {
    var q := candidate / d;
    assert candidate == d * q + candidate % d;
    assert q >= 2 ==> d * q >= d * 2;
    assert q <= 0 ==> d * q <= 0;
  }

  lemma TrialDivisionDecides(candidate: int, isPrime: bool)
    requires candidate >= 2
    requires isPrime ==> forall d {:trigger candidate % d} :: 2 <= d <= candidate / 2 ==> candidate % d != 0
    requires !isPrime ==> exists d {:trigger candidate % d} :: 2 <= d <= candidate / 2 && candidate % d == 0
    ensures isPrime <==> IsPrime(candidate)
  {
    if isPrime {
      forall d | 2 <= d < candidate
        ensures candidate % d != 0
      {
        if d > candidate / 2 {
          NoFactorAboveHalf(candidate, d);
        }
      }
    }
  }

  /** The program's global variable for the result and its thread function. */
  class Finder {
    var prime: int

    constructor ()
      ensures prime == 0
    {
      prime := 0;
    }

    /** Leaves the result alone for a number that is not positive and otherwise
        ends with the n-th prime in it. */
    method ComputePrime(arg: int)
      modifies this
      ensures arg <= 0 ==> prime == old(prime)
      ensures arg >= 1 ==> IsPrime(prime) && PrimesUpTo(prime) == arg
    {
      var candidate := 2;
      var n := arg;
      if n <= 0 {
        return;
      }
      ghost var bound := EnoughPrimes(arg);
      while true
        invariant candidate >= 2 && n >= 1
        invariant PrimesUpTo(candidate - 1) + n == arg
        invariant candidate <= bound
        decreases bound - candidate
      {
        var isPrime := true;
        var factor := 2;
        while factor <= candidate / 2
          invariant 2 <= factor
          invariant forall d {:trigger candidate % d} :: 2 <= d < factor ==> candidate % d != 0
        {
          if candidate % factor == 0 {
            isPrime := false;
            break;
          }
          factor := factor + 1;
        }
        TrialDivisionDecides(candidate, isPrime);
        if isPrime {
          n := n - 1;
          if n == 0 {
            prime := candidate;
            return;
          }
        }
        candidate := candidate + 1;
        if candidate > bound {
          PrimesUpToIsMonotone(bound, candidate - 1);
        }
      }
    }
  }
}
