/** The conversion of integers to doubles: to the nearest one, and to the even one of two. */
module Doubles {
  import opened Json

  predicate IsPower(u: nat) { u == 1 || (u > 1 && u % 2 == 0 && IsPower(u / 2)) }

  /** m times u is a double: a significand of 53 bits and a power of two. */
  ghost predicate Represents(m: nat, u: nat) { m < 0x20_0000_0000_0000 && IsPower(u) }

  ghost predicate IsDouble(x: nat) { exists m: nat, u: nat :: Represents(m, u) && x == m * u }

  function Distance(a: nat, b: nat): nat { if a < b then b - a else a - b }

  /** The spacing is a power of two, and the significand of n has exactly 53 bits if it is not 1. */
  lemma {:induction false} UlpIs(n: nat)
    ensures var u := Ulp(n);
      IsPower(u) && n / u < TWO_TO_53 && (u > 1 ==> 2 * (n / u) >= TWO_TO_53)
  {
    if n >= TWO_TO_53 {
      UlpIs(n / 2);
      var u := Ulp(n / 2);
      HalfThenRest(n, u);
      if u == 1 {
        assert n / 2 / u == n / 2;
      }
    }
  }

  lemma HalfThenRest(n: nat, u: nat)
    requires u > 0
    ensures n / (2 * u) == n / 2 / u
  {
    var h, q := n / 2, n / 2 / u;
    assert h == u * q + h % u;
    Between(n, 2 * u, q);
  }

  lemma Between(n: nat, d: nat, q: nat)
    requires d > 0 && q * d <= n < q * d + d
    ensures n / d == q
  {
    var p := n / d;
    assert n == d * p + n % d;
    if p < q {
      Product(p + 1, q, d);
    } else if p > q {
      Product(q + 1, p, d);
    }
  }

  lemma Product(a: nat, b: nat, d: nat)
    requires a <= b
    ensures a * d <= b * d
  {
  }

  /** Of two powers the greater is a multiple of the lesser, and of twice the lesser if they differ. */
  lemma {:induction false} PowersDivide(u: nat, v: nat) returns (k: nat)
    requires IsPower(u) && IsPower(v) && u <= v
    ensures v == k * u && k >= 1 && (u < v ==> k >= 2)
    decreases v
  {
    if u == v {
      k := 1;
    } else if u == 1 {
      k := v;
    } else {
      var j := PowersDivide(u / 2, v / 2);
      k := j;
    }
  }

  lemma MultipleApart(n: nat, u: nat, t: nat)
    requires u > 0
    ensures t <= n / u ==> n - t * u >= n % u && (t < n / u ==> n - t * u > n % u)
    ensures t > n / u ==> t * u - n >= u - n % u && (t > n / u + 1 ==> t * u - n > u - n % u)
  {
    var q := n / u;
    assert n == q * u + n % u;
    if t < q {
      Product(t + 1, q, u);
    } else if t > q + 1 {
      Product(q + 2, t, u);
    }
  }

  /** How far the rounded value is away, on either side. */
  lemma RoundedIs(n: nat)
    ensures var u := Ulp(n); var q, r, x := n / u, n % u, RoundMagnitude(n);
      && n == q * u + r && r < u
      && (|| (x == q * u && Distance(n, x) == r && (2 * r < u || (2 * r == u && q % 2 == 0)))
          || (x == (q + 1) * u && Distance(n, x) == u - r && (2 * r > u || (2 * r == u && q % 2 == 1))))
  {
    hide Ulp;
    var u := Ulp(n);
    var q, r := n / u, n % u;
    assert n == u * q + r;
    assert (q + 1) * u == q * u + u;
  }

  lemma RoundedIsDouble(n: nat)
    ensures IsDouble(RoundMagnitude(n))
  {
    UlpIs(n);
    RoundedIs(n);
    hide Ulp, RoundMagnitude;
    var u := Ulp(n);
    var q := n / u;
    if q + 1 < TWO_TO_53 {
      assert Represents(q, u) && Represents(q + 1, u);
    } else {
      assert Represents(q, u) && Represents(0x10_0000_0000_0000, 2 * u);
      assert (q + 1) * u == 0x10_0000_0000_0000 * (2 * u);
    }
  }

  /** A double lies at a multiple of the spacing around n, or well below n. */
  lemma DoublesAround(n: nat, m: nat, v: nat) returns (t: nat, multiple: bool)
    requires Represents(m, v)
    ensures multiple ==> m * v == t * Ulp(n)
    ensures !multiple ==> m * v < n / Ulp(n) * Ulp(n)
  {
    UlpIs(n);
    hide Ulp;
    var u := Ulp(n);
    if u <= v {
      var k := PowersDivide(u, v);
      t, multiple := m * k, true;
      assert m * v == m * k * u;
    } else {
      var k := PowersDivide(v, u);
      t, multiple := 0, false;
      BelowHalf(m, v, k, u, n / u);
    }
  }

  lemma BelowHalf(m: nat, v: nat, k: nat, u: nat, q: nat)
    requires m < TWO_TO_53 <= 2 * q && u == k * v && k >= 2 && v >= 1
    ensures m * v < q * u
  {
    Product(2, k, q * v);
    assert q * u == k * (q * v);
    Product(m + 1, 2 * q, v);
  }

  /** The double image is itself a double, no double is nearer to the integer, and if another one is
      as near, its significand is even. */
  lemma NearestDouble(n: nat, m: nat, v: nat)
    requires Represents(m, v)
    ensures IsDouble(RoundMagnitude(n))
    ensures Distance(n, RoundMagnitude(n)) <= Distance(n, m * v)
    ensures Distance(n, RoundMagnitude(n)) == Distance(n, m * v) && m * v != RoundMagnitude(n) ==>
      exists e: nat :: e % 2 == 0 && RoundMagnitude(n) == e * Ulp(n)
  {
    RoundedIsDouble(n);
    RoundedIs(n);
    var t, multiple := DoublesAround(n, m, v);
    hide Ulp, RoundMagnitude, IsPower;
    var u, x := Ulp(n), RoundMagnitude(n);
    var q, r := n / u, n % u;
    if multiple {
      MultipleApart(n, u, t);
      assert t == q ==> m * v == q * u;
      assert t == q + 1 ==> m * v == (q + 1) * u;
    }
    assert q % 2 == 0 ==> (q + 1) % 2 == 1;
    assert q % 2 == 1 ==> (q + 1) % 2 == 0;
  }
}
