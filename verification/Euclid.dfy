/** Greatest common divisor and least common multiple, as the pattern restart computes them. */
module Euclid {
  import opened Arith

  ghost predicate Divides(d: int, n: int) {
    exists k :: d * k == n
  }

  /** What the loop of GcdPositive computes on non-negative operands; 1 when both are zero. */
  function Gcd(a: nat, b: nat): (g: int)
    ensures 1 <= g
    decreases b
  {
    if b == 0 then (if a == 0 then 1 else a) else Gcd(b, a % b)
  }

  function Abs(x: int): nat {
    if x < 0 then -x else x
  }

  method GcdPositive(a: int, b: int) returns (g: int)
    ensures g == Gcd(Abs(a), Abs(b))
  {
    var x, y := a, b;
    if x < 0 {
      x := -x;
    }
    if y < 0 {
      y := -y;
    }
    while y != 0
      invariant 0 <= x && 0 <= y
      invariant Gcd(x, y) == Gcd(Abs(a), Abs(b))
      decreases y
    {
      x, y := y, x % y;
    }
    if x <= 0 {
      return 1;
    }
    return x;
  }

  function Lcm(a: int, b: int): int {
    if a <= 0 || b <= 0 then 1 else a / Gcd(a, b) * b
  }

  method PositiveLCM(a: int, b: int) returns (l: int)
    ensures l == Lcm(a, b)
  {
    if a <= 0 || b <= 0 {
      return 1;
    }
    var g := GcdPositive(a, b);
    return a / g * b;
  }

  /** The greatest common divisor is a combination of the operands, and divides both. */
  lemma {:induction false} Bezout(a: nat, b: nat) returns (u: int, v: int, p: int, q: int)
    requires 0 < a || 0 < b
    ensures u * a + v * b == Gcd(a, b)
    ensures Gcd(a, b) * p == a && Gcd(a, b) * q == b
    decreases b
  {
    if b == 0 {
      u, v, p, q := 1, 0, 1, 0;
    } else {
      var k, r := a / b, a % b;
      var u', v', p', q' := Bezout(b, r);
      u, v, p, q := v', u' - v' * k, k * p' + q', p';
      BezoutStep(a, b, k, r, Gcd(b, r), u', v', p', q');
    }
  }

  lemma BezoutStep(a: int, b: int, k: int, r: int, g: int, u: int, v: int, p: int, q: int)
    requires a == k * b + r
    requires u * b + v * r == g && g * p == b && g * q == r
    ensures v * a + (u - v * k) * b == g
    ensures g * (k * p + q) == a
  {
    assert v * a == v * (k * b) + v * r;
    assert (u - v * k) * b == u * b - v * (k * b);
    assert g * (k * p + q) == k * (g * p) + g * q;
  }

  /** Lcm(a, b) is a common multiple of positive operands and divides every other one, so it is the least. */
  lemma LcmIsLeast(a: int, b: int, m: int)
    requires 0 < a && 0 < b
    ensures 0 < Lcm(a, b) && Divides(a, Lcm(a, b)) && Divides(b, Lcm(a, b))
    ensures Divides(a, m) && Divides(b, m) ==> Divides(Lcm(a, b), m)
    ensures Divides(a, m) && Divides(b, m) && 0 < m ==> Lcm(a, b) <= m
  {
    var u, v, p, q := Bezout(a, b);
    var g := Gcd(a, b);
    ExactQuotient(a, g, p);
    CommonMultiple(a, b, g, p, q, p * b);
    if Divides(a, m) && Divides(b, m) {
      var x :| a * x == m;
      var y :| b * y == m;
      var w := CommonMultiplesShareFactor(a, b, g, u, v, p, m, x, y);
      if 0 < m {
        SmallFactor(p * b, w);
      }
    }
  }

  lemma CommonMultiple(a: int, b: int, g: int, p: int, q: int, l: int)
    requires 0 < g && 0 < a && 0 < b && g * p == a && g * q == b && l == p * b
    ensures 0 < l && Divides(a, l) && Divides(b, l)
  {
    assert a * q == l by {
      assert p * (g * q) == (g * p) * q;
    }
    assert b * p == l;
    Positive(g, p);
    Positive(p, b);
  }

  lemma CommonMultiplesShareFactor(
    a: int, b: int, g: int, u: int, v: int, p: int, m: int, x: int, y: int) returns (w: int)
    requires 0 < g && u * a + v * b == g && g * p == a && a * x == m && b * y == m
    ensures p * b * w == m && Divides(p * b, m)
  {
    w := u * y + v * x;
    assert g * m == (a * b) * w by {
      assert g * m == (u * a) * m + (v * b) * m;
      Swap(u, a, b, y);
      Swap(v, b, a, x);
      assert (a * b) * w == (a * b) * (u * y) + (a * b) * (v * x);
    }
    assert (a * b) * w == g * (p * b * w) by {
      assert (g * p) * b * w == g * (p * b * w);
    }
    Cancel(g, m, p * b * w);
  }

  lemma Swap(u: int, a: int, b: int, y: int)
    ensures (u * a) * (b * y) == (a * b) * (u * y)
  {
    assert (u * a) * (b * y) == u * (a * (b * y));
    assert (a * b) * (u * y) == u * ((a * b) * y);
    assert a * (b * y) == (a * b) * y;
  }

  lemma ExactQuotient(a: int, g: int, p: int)
    requires 0 < g && g * p == a
    ensures a / g == p
  {
    Cancel(g, a / g, p) by {
      assert a % g == 0 by { RemainderOfMultiple(g, p); }
      assert a == g * (a / g) + a % g;
    }
  }

  lemma RemainderOfMultiple(g: int, p: int)
    requires 0 < g
    ensures (g * p) % g == 0
  {
    var x := g * p;
    var d, r := x / g, x % g;
    assert x == g * d + r;
    assert g * (p - d) == r;
    if p - d >= 1 {
      ScaleAtLeast(g, p - d);
    } else if p - d <= -1 {
      ScaleAtLeast(g, d - p);
    }
  }

  lemma Cancel(g: int, x: int, y: int)
    requires 0 < g && g * x == g * y
    ensures x == y
  {
    assert g * (x - y) == 0;
    if x > y {
      ScaleAtLeast(g, x - y);
    } else if y > x {
      ScaleAtLeast(g, y - x);
    }
  }

  lemma Positive(g: int, p: int)
    requires 0 < g && (0 < g * p || 0 < p)
    ensures 0 < p && 0 < g * p
  {
  }

  lemma SmallFactor(l: int, w: int)
    requires 0 < l && 0 < l * w
    ensures l <= l * w
  {
    assert 0 < w;
    ScaleAtLeast(l, w);
  }
}
