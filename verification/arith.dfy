/** Natural-number helpers: rounded-up division and the division facts the chunk planner and
    the progress reporter use, and strictly increasing index lists. */
module Arith {

  predicate StrictlyIncreasing(s: seq<nat>)
  {
    forall i, j :: 0 <= i < j < |s| ==> s[i] < s[j]
  }

  /** The product `a * b`, by repeated addition. Sizes are built from this and `Quot` rather
      than from `*` and `/` between variables, so the solver meets nonlinear arithmetic only
      inside the lemmas below that relate the two (`MulIsProduct`, `QuotIsDivision`). */
  function Mul(a: nat, b: nat): (p: nat)
    ensures a == 0 || b == 0 <==> p == 0
    decreases a
  {
    if a == 0 then 0 else Mul(a - 1, b) + b
  }

  /** The truncated quotient of `a` by `d`, by repeated subtraction. */
  function Quot(a: nat, d: nat): (q: nat)
    requires d > 0
    ensures q == 0 <==> a < d
    decreases a
  {
    if a < d then 0 else Quot(a - d, d) + 1
  }

  /** The quotient of naturals rounded up to the next whole number. */
  function CeilDiv(a: nat, b: nat): nat
    requires b > 0
  {
    Quot(a + b - 1, b)
  }

  lemma {:induction false} MulIsProduct(a: nat, b: nat)
    ensures Mul(a, b) == a * b
    decreases a
  {
    if a > 0 {
      MulIsProduct(a - 1, b);
      assert a * b == (a - 1) * b + b;
    }
  }

  /** A quotient and remainder with the remainder below the divisor are the ones `/` gives. */
  lemma DivUnique(a: nat, d: nat, q: nat, r: nat)
    requires d > 0 && r < d && a == q * d + r
    ensures a / d == q
  {
    var q0 := a / d;
    assert q0 * d + a % d == a;
    if q0 < q {
      MulMonotone(q0 + 1, q, d);
      assert false;
    } else if q0 > q {
      MulMonotone(q + 1, q0, d);
      assert false;
    }
  }

  lemma {:induction false} QuotIsDivision(a: nat, d: nat)
    requires d > 0
    ensures Quot(a, d) == a / d
    decreases a
  {
    if a < d {
      DivUnique(a, d, 0, a);
    } else {
      QuotIsDivision(a - d, d);
      var q, r := (a - d) / d, (a - d) % d;
      assert a - d == q * d + r;
      assert a == (q + 1) * d + r;
      DivUnique(a, d, q + 1, r);
    }
  }

  lemma MulMonotone(x: nat, y: nat, d: nat)
    requires x <= y
    ensures x * d <= y * d
  {
    assert y * d == x * d + (y - x) * d;
  }

  lemma DivMonotone(a: nat, b: nat, d: nat)
    requires a <= b && d > 0
    ensures a / d <= b / d
  {
    var qa, qb := a / d, b / d;
    assert qa * d + a % d == a;
    assert qb * d + b % d == b;
    if qa > qb {
      MulMonotone(qb + 1, qa, d);
      assert false;
    }
  }

  /** `a / d` is below `k` whenever `a` is below `k * d`. */
  lemma DivBelow(a: nat, d: nat, k: nat)
    requires d > 0 && a < k * d
    ensures a / d < k
  {
    var q := a / d;
    assert q * d + a % d == a;
    if q >= k {
      MulMonotone(k, q, d);
      assert false;
    }
  }

  /** `CeilDiv(t, d)` is the least `c` with `t <= c * d`. */
  lemma CeilDivCovers(t: nat, d: nat)
    requires d > 0
    ensures t <= CeilDiv(t, d) * d
    ensures CeilDiv(t, d) > 0 ==> (CeilDiv(t, d) - 1) * d < t
  {
    var c := CeilDiv(t, d);
    QuotIsDivision(t + d - 1, d);
    assert c * d + (t + d - 1) % d == t + d - 1;
    if c > 0 {
      assert (c - 1) * d == c * d - d;
    }
  }

  lemma CeilDivLeast(t: nat, d: nat, x: nat)
    requires d > 0 && t <= x * d
    ensures CeilDiv(t, d) <= x
  {
    var c := CeilDiv(t, d);
    CeilDivCovers(t, d);
    if c > x {
      MulMonotone(x, c - 1, d);
      assert false;
    }
  }

  lemma CeilDivPositive(t: nat, d: nat)
    requires d > 0 && t > 0
    ensures CeilDiv(t, d) >= 1
  {
    CeilDivCovers(t, d);
  }

  /** A rounded-up quotient of at least two means the dividend exceeds the divisor. */
  lemma CeilDivAtLeastTwo(t: nat, d: nat)
    requires d > 0 && CeilDiv(t, d) >= 2
    ensures t > d
  {
    var c := CeilDiv(t, d);
    CeilDivCovers(t, d);
    MulMonotone(1, c - 1, d);
  }

  /** A truncated quotient of at least two means the dividend is at least twice the divisor. */
  lemma DivAtLeastTwo(t: nat, d: nat)
    requires d > 0 && t / d >= 2
    ensures t >= 2 * d
  {
    var q := t / d;
    assert q * d + t % d == t;
    MulMonotone(2, q, d);
  }
}
