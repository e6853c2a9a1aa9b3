/** Small stock wrapper used for the source's `false`-or-value returns. */
module Wrappers {
  datatype Option<+T> = None | Some(value: T)
}

/**
 * The numeric primitives the simulation borrows from JavaScript: the host's
 * Math library, kept uninterpreted, and the `%` operator, written out exactly.
 */
module JsMath {

  /**
   * The host's Math library as the simulation sees it: Math.PI, Math.cos,
   * Math.sin, Math.sqrt, Math.atan, and IEEE division `/` (which yields an
   * infinity or NaN on a zero divisor and so is not Dafny's `/`). Nothing is
   * known about them except what the predicates below state.
   */
  datatype Numerics = Numerics(
    pi: real,
    cos: real -> real,
    sin: real -> real,
    sqrt: real -> real,
    atan: real -> real,
    quot: (real, real) -> real)
  {
    /** The only fact every part of the model relies on. */
    predicate Valid() {
      3.0 < pi < 4.0
    }

    /** `Math.PI2`, precomputed at load time. */
    function TwoPi(): real {
      pi * 2.0
    }

    /** `halfPI` of the reflection rule. */
    function HalfPi(): real {
      pi / 2.0
    }
  }

  /** Math.sqrt is the non-negative square root on non-negative arguments. */
  ghost predicate SqrtFacts(num: Numerics) {
    forall a :: 0.0 <= a ==> 0.0 <= num.sqrt(a) && num.sqrt(a) * num.sqrt(a) == a
  }

  /** The truncation toward zero that JavaScript's `%` is built on. */
  function Trunc(q: real): (t: int)
    ensures 0.0 <= q ==> 0 <= t && t as real <= q < t as real + 1.0
    ensures q < 0.0 ==> t <= 0 && t as real - 1.0 < q <= t as real
  {
    if q >= 0.0 then q.Floor else -((-q).Floor)
  }

  /**
   * JavaScript's `a % m` on numbers: the remainder of the division truncated
   * toward zero, so it has the sign of the dividend (unlike Dafny's `%`).
   */
  function Rem(a: real, m: real): (r: real)
    requires m != 0.0
  {
    a - m * Trunc(a / m) as real
  }

  /** `k` whole turns of size `m`. */
  function Turns(k: int, m: real): real {
    k as real * m
  }

  /** `a` and `b` differ by a whole number of turns of size `m`. */
  ghost predicate Congruent(a: real, b: real, m: real) {
    exists k: int :: a - b == Turns(k, m)
  }

  /** For a positive divisor the remainder keeps the dividend's sign and stays below the divisor in magnitude. */
  lemma RemBounds(a: real, m: real)
    requires 0.0 < m
    ensures 0.0 <= a ==> 0.0 <= Rem(a, m) < m
    ensures a < 0.0 ==> -m < Rem(a, m) <= 0.0
  {
    var t := Trunc(a / m);
    QuotientSign(a, m);
    if 0.0 <= a {
      QuotientBetween(a, m, t as real, t as real + 1.0);
    } else {
      QuotientBetween(a, m, t as real - 1.0, t as real);
    }
  }

  /** Bounds on a quotient by a positive number carry over to the dividend. */
  lemma QuotientBetween(a: real, m: real, lo: real, hi: real)
    requires 0.0 < m
    ensures lo <= a / m ==> m * lo <= a
    ensures lo < a / m ==> m * lo < a
    ensures a / m < hi ==> a < m * hi
    ensures a / m <= hi ==> a <= m * hi
  {
    var q := a / m;
    assert q * m == a;
    ScaleBetween(q, m, lo, hi);
  }

  /** Dividing by a positive number keeps the sign. */
  lemma QuotientSign(a: real, m: real)
    requires 0.0 < m
    ensures 0.0 <= a <==> 0.0 <= a / m
  {
    var q := a / m;
    assert q * m == a;
    if q < 0.0 {
      ScaleBetween(q, m, 0.0, 0.0);
    }
    if 0.0 <= q {
      ScaleBetween(q, m, 0.0, 0.0);
    }
  }

  /** Scaling by a positive factor preserves where a value lies between two bounds. */
  lemma ScaleBetween(u: real, m: real, lo: real, hi: real)
    requires 0.0 < m
    ensures lo <= u ==> lo * m <= u * m
    ensures lo < u ==> lo * m < u * m
    ensures u < hi ==> u * m < hi * m
    ensures u <= hi ==> u * m <= hi * m
  {
  }

  /** The remainder differs from the dividend by whole turns of the divisor. */
  lemma RemCongruent(a: real, m: real)
    requires m != 0.0
    ensures Congruent(Rem(a, m), a, m)
  {
    var k := -Trunc(a / m);
    assert Rem(a, m) - a == Turns(k, m);
  }

  /** A value already strictly inside (-m, m) is left as it is. */
  lemma RemOfSmall(a: real, m: real)
    requires 0.0 < m
    ensures -m < a < m ==> Rem(a, m) == a
  {
    if -m < a < m {
      var q := a / m;
      assert a == q * m;
      if q <= -1.0 {
        ScaleBetween(q, m, -1.0, -1.0);
      }
      if 1.0 <= q {
        ScaleBetween(q, m, 1.0, 1.0);
      }
      assert -1.0 < q < 1.0;
      assert Trunc(q) == 0;
    }
  }

  /** Two values congruent to a common third are congruent to each other. */
  lemma CongruentTrans(a: real, b: real, c: real, m: real)
    requires Congruent(a, b, m) && Congruent(b, c, m)
    ensures Congruent(a, c, m)
  {
    var k1 :| a - b == Turns(k1, m);
    var k2 :| b - c == Turns(k2, m);
    assert a - c == Turns(k1 + k2, m);
  }

  /** Congruence survives the same affine map `x -> s * x + c` with `s` = 1 or -1 on both sides. */
  lemma CongruentAffine(a: real, b: real, m: real, negate: bool, c: real)
    requires Congruent(a, b, m)
    ensures Congruent((if negate then -a else a) + c, (if negate then -b else b) + c, m)
  {
    var k :| a - b == Turns(k, m);
    if negate {
      assert (-a + c) - (-b + c) == Turns(-k, m);
    } else {
      assert (a + c) - (b + c) == Turns(k, m);
    }
  }

  /** Adding a whole number of turns does not change the class. */
  lemma CongruentShift(a: real, k: int, m: real)
    ensures Congruent(a + Turns(k, m), a, m)
  {
    assert (a + Turns(k, m)) - a == Turns(k, m);
  }
}
