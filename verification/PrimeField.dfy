/** Arithmetic modulo a prime: the scalars and, up to isomorphism, the points of a group of
    prime order such as secp256k1. */
module PrimeField {
  import opened Integers

  ghost predicate Prime(q: nat) {
    q > 1 && forall d :: 1 < d < q ==> q % d != 0
  }

  // ----- Modular arithmetic over the integers -----

  lemma ModUnique(x: int, q: int, k: int, r: int)
    requires 0 <= r < q && x == k * q + r
    ensures x % q == r
  {
    assert x == (x / q) * q + x % q;
    if x / q < k {
      MultiplesApart(x / q, k, q);
    } else if x / q > k {
      MultiplesApart(k, x / q, q);
    }
  }

  lemma Quotient(x: int, q: int) returns (k: int)
    requires q > 0
    ensures x == k * q + x % q
    ensures 0 <= x % q < q
  {
    k := x / q;
  }

  lemma ModShift(x: int, k: int, q: int)
    requires q > 0
    ensures (x + k * q) % q == x % q
  {
    var j := Quotient(x, q);
    assert x + k * q == (j + k) * q + x % q by {
      Distribute(j, k, q);
    }
    ModUnique(x + k * q, q, j + k, x % q);
  }

  lemma Distribute(a: int, b: int, c: int)
    ensures (a + b) * c == a * c + b * c
  {
  }

  lemma MulAssoc(a: int, b: int, c: int)
    ensures a * (b * c) == (a * b) * c == b * (a * c)
  {
  }

  lemma AddMod(x: int, y: int, q: int)
    requires q > 0
    ensures (x % q + y) % q == (x + y) % q
  {
    var k := Quotient(x, q);
    ModShift(x % q + y, k, q);
  }

  lemma SubMod(x: int, y: int, q: int)
    requires q > 0
    ensures (x - y % q) % q == (x - y) % q
  {
    var k := Quotient(y, q);
    ModShift(x - y, k, q);
  }

  lemma MulMod(x: int, y: int, q: int)
    requires q > 0
    ensures (x * (y % q)) % q == (x * y) % q
  {
    var k := Quotient(y, q);
    assert x * y == x * (y % q) + (x * k) * q by {
      assert x * y == x * (k * q + y % q);
      MulAssoc(x, k, q);
    }
    ModShift(x * (y % q), x * k, q);
  }

  lemma ModSmall(x: int, q: int)
    requires 0 <= x < q
    ensures x % q == x
  {
    ModUnique(x, q, 0, x);
  }

  // ----- Primes -----

  /** t * b is a multiple of q when a * b is and t = q mod a. */
  lemma RemainderTimes(a: int, b: int, q: int)
    requires 0 < a && q > 0
    ensures ((q % a) * b) % q == (-((q / a) * (a * b))) % q
  {
    var s, t := q / a, q % a;
    assert q == s * a + t;
    assert t * b == -(s * (a * b)) + b * q by {
      assert t * b == (q - s * a) * b;
      Distribute(q, -(s * a), b);
      MulAssoc(s, a, b);
    }
    ModShift(-(s * (a * b)), b, q);
  }

  lemma MultipleOfMultiple(x: int, s: int, q: int)
    requires q > 0 && x % q == 0
    ensures (-(s * x)) % q == 0
  {
    var k := Quotient(x, q);
    MulAssoc(s, k, q);
    NegMul(q, s * k);
    ModUnique(-(s * x), q, -(s * k), 0);
  }

  lemma EqualRemainders(u: int, v: int, q: int)
    requires q > 0 && u % q == v % q
    ensures (v - u) % q == 0
  {
    var j := Quotient(u, q);
    var k := Quotient(v, q);
    Distribute(k, -j, q);
    NegMul(q, j);
    ModUnique(v - u, q, k - j, 0);
  }

  /** Euclid's lemma: the product of two nonzero residues is nonzero. */
  lemma {:induction false} NoZeroDivisors(a: nat, b: nat, q: nat)
    requires Prime(q) && 0 < a < q && 0 < b < q
    ensures (a * b) % q != 0
    decreases a
  {
    if a == 1 {
      ModSmall(b, q);
    } else {
      RemainderTimes(a, b, q);
      if (a * b) % q == 0 {
        MultipleOfMultiple(a * b, q / a, q);
        NoZeroDivisors(q % a, b, q);
      }
    }
  }

  /** Every nonzero residue has an inverse. */
  lemma {:induction false} Inverse(a: nat, q: nat) returns (i: nat)
    requires Prime(q) && 0 < a < q
    ensures i < q && (a * i) % q == 1
    decreases a
  {
    if a == 1 {
      i := 1;
      ModSmall(1, q);
    } else {
      var s, t := q / a, q % a;
      var j := Inverse(t, q);
      i := (-(s * j)) % q;
      MulMod(a, -(s * j), q);
      RemainderTimes(a, j, q);
      assert a * -(s * j) == -(s * (a * j)) by {
        MulAssoc(a, s, j);
      }
    }
  }

  lemma NegMul(a: int, b: int)
    ensures a * -b == -(a * b)
  {
  }

  /** Multiplication by a nonzero residue loses nothing. */
  lemma CancelFactor(x: nat, y: nat, g: nat, q: nat)
    requires Prime(q) && x < q && y < q && 0 < g < q
    requires (x * g) % q == (y * g) % q
    ensures x == y
  {
    if x < y {
      CancelOrdered(x, y, g, q);
    } else if y < x {
      CancelOrdered(y, x, g, q);
    }
  }

  lemma CancelOrdered(x: nat, y: nat, g: nat, q: nat)
    requires Prime(q) && x < y < q && 0 < g < q
    ensures (x * g) % q != (y * g) % q
  {
    if (x * g) % q == (y * g) % q {
      EqualRemainders(x * g, y * g, q);
      Distribute(y - x, x, g);
      NoZeroDivisors(y - x, g, q);
    }
  }
}
