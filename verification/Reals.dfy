// Minima, maxima and the laws of products that the solver is given by name.
module Reals {

  function Min(a: real, b: real): real { if a <= b then a else b }

  function Max(a: real, b: real): real { if a >= b then a else b }

  function Times(a: real, b: real): real { a * b }

  lemma KeepOrder(a: real, b: real, f: real)
    requires a <= b && f >= 0.0
    ensures Times(a, f) <= Times(b, f) && Times(f, a) <= Times(f, b)
  {
  }

  lemma KeepStrict(a: real, b: real, f: real)
    requires a < b && f > 0.0
    ensures Times(a, f) < Times(b, f) && Times(f, a) < Times(f, b)
  {
  }

  lemma QuotientTimes(a: real, b: real)
    requires b != 0.0
    ensures a / b * b == a
  {
  }

  /** A product with a factor other than zero tells the other factor. */
  lemma TimesTells(a: real, b: real, f: real)
    requires f != 0.0
    ensures Times(a, f) == Times(b, f) <==> a == b
  {
    if a != b {
      assert (a - b) * f != 0.0;
    }
  }

  lemma OneLess(q: real, r: real)
    ensures (1.0 - q) * r == r - q * r
  {
  }

  lemma Cancel(a: real, b: real, n: real)
    requires n > 0.0
    ensures Times(a, n) >= Times(b, n) ==> a >= b
    ensures Times(a, n) == Times(b, n) ==> a == b
  {
    if a < b {
      KeepStrict(a, b, n);
    } else if b < a {
      KeepStrict(b, a, n);
    }
  }
}
