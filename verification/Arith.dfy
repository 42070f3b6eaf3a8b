/** Go's fixed-width integer arithmetic, as far as the rate accounting depends on it. */
module Arith {

  const MAX_INT: int := 0x7fff_ffff_ffff_ffff
  const TWO_TO_THE_64: int := 0x1_0000_0000_0000_0000

  predicate IsInt(x: int) {
    -MAX_INT - 1 <= x <= MAX_INT
  }

  function Min(a: int, b: int): int {
    if a < b then a else b
  }

  function Max(a: int, b: int): int {
    if a > b then a else b
  }

  function Clamp(x: int, lo: int, hi: int): int {
    Min(Max(x, lo), hi)
  }

  /** Two's-complement wrap-around into 64 bits. */
  function Wrap(x: int): (r: int)
    ensures IsInt(r)
    ensures IsInt(x) ==> r == x
  {
    (x + MAX_INT + 1) % TWO_TO_THE_64 - MAX_INT - 1
  }

  /** Conversion to a signed 16-bit integer. */
  function Int16(x: int): (r: int)
    ensures -0x8000 <= r < 0x8000
    ensures -0x8000 <= x < 0x8000 ==> r == x
  {
    (x + 0x8000) % 0x1_0000 - 0x8000
  }

  /** The addition is done only where it cannot overflow; the sum is pinned to [-MAX_INT, MAX_INT]. */
  function SaturatingAdd(a: int, b: int): (r: int)
    ensures -MAX_INT <= a <= MAX_INT ==> r == Clamp(a + b, -MAX_INT, MAX_INT)
  {
    if b > 0 && a > MAX_INT - b then MAX_INT
    else if b < 0 && a < -MAX_INT - b then -MAX_INT
    else a + b
  }

  const MIN_INT: int := -MAX_INT - 1

  /** Two's-complement negation: the least integer is its own negative. */
  function Negated(b: int): int {
    if b == MIN_INT then b else -b
  }

  /** Pinned like the sum for every second operand but the least integer; for that one the result is always wrong. */
  function SaturatingSub(a: int, b: int): (r: int)
    ensures -MAX_INT <= a <= MAX_INT ==> (r == Clamp(a - b, -MAX_INT, MAX_INT) <==> b != MIN_INT)
  {
    if b == -MAX_INT then SaturatingAdd(a, MAX_INT) else SaturatingAdd(a, Negated(b))
  }

  /** Go's truncating division. */
  function TruncDiv(a: int, b: int): int
    requires b != 0
  {
    if (a >= 0) == (b > 0) then (if a >= 0 then a / b else (-a) / (-b))
    else if a >= 0 then -(a / (-b)) else -((-a) / b)
  }

  /** The product of two 64-bit integers, or None when a factor is negative or the product overflows. */
  datatype Product = Exact(value: int) | Overflow

  function CheckedMul(a: int, b: int): (r: Product)
    ensures r.Exact? <==> 0 <= a && 0 <= b && a * b <= MAX_INT
    ensures r.Exact? ==> r.value == a * b
  {
    if Min(a, b) < 0 then
      Overflow
    else if a == 0 || b == 0 then
      Exact(0)
    else
      DivisionGuard(a, b, MAX_INT);
      if a > MAX_INT / b then Overflow else Exact(a * b)
  }

  /** The guard a > max / b decides overflow without forming the product. */
  lemma DivisionGuard(a: int, b: int, max: int)
    requires 0 < b && 0 <= a && 0 <= max
    ensures a > max / b <==> a * b > max
  {
    var q, r := max / b, max % b;
    assert max == q * b + r;
    if a > q {
      assert a * b >= (q + 1) * b;
    } else {
      assert a * b <= q * b;
    }
  }

  /** num / den to the nearest integer, in 64-bit arithmetic; zero unless both are positive. */
  function RoundedInt(num: int, den: int): int {
    if Min(num, den) <= 0 then 0 else TruncDiv(Wrap(num + den / 2), den)
  }

  /** Where the bias cannot overflow, the result is within half a unit of the true quotient. */
  lemma RoundedIntIsNearest(num: int, den: int)
    requires IsInt(num) && IsInt(den)
    requires 0 <= num && 0 < den && num + den / 2 <= MAX_INT
    ensures -den <= 2 * (RoundedInt(num, den) * den - num) <= den
    ensures 0 <= RoundedInt(num, den)
  {
    if num > 0 {
      var half := den / 2;
      BiasedQuotient(num, den, half);
      NearestQuotient(num, den, half);
    }
  }

  lemma BiasedQuotient(num: int, den: int, half: int)
    requires IsInt(num) && IsInt(den) && 0 < num && 0 < den && half == den / 2 && num + half <= MAX_INT
    ensures RoundedInt(num, den) == (num + half) / den
  {
    assert IsInt(num + half);
  }

  lemma NearestQuotient(num: int, den: int, half: int)
    requires 0 < num && 0 < den && 2 * half <= den <= 2 * half + 1
    ensures -den <= 2 * (((num + half) / den) * den - num) <= den
  {
    var x := num + half;
    var q, r := x / den, x % den;
    assert x == q * den + r;
  }

  lemma RemainderOfRemainder(n: nat, q: nat, d: nat)
    requires 0 < d && 0 < q
    ensures 0 < q * d && (n % (q * d)) % d == n % d
  {
    var m := q * d;
    var a, r := n / m, n % m;
    var b, s := r / d, r % d;
    assert n == a * m + r && r == b * d + s;
    assert n == (a * q + b) * d + s by {
      assert a * m == (a * q) * d;
    }
    UniqueRemainder(n, d, a * q + b, s);
  }

  lemma UniqueRemainder(n: int, d: int, q: int, s: int)
    requires 0 < d && 0 <= s < d && n == q * d + s
    ensures n % d == s && n / d == q
  {
    var q', s' := n / d, n % d;
    MultipleGap(q - q', d, s' - s);
  }

  /** A multiple of d closer to zero than d is zero. */
  lemma MultipleGap(k: int, d: int, x: int)
    requires -d < x < d && k * d == x
    ensures k == 0 && x == 0
  {
    if k >= 1 {
      MultipleAtLeast(k, d);
    } else if k <= -1 {
      MultipleAtLeast(-k, d);
    }
  }

  lemma MultipleAtLeast(k: int, d: int)
    requires 1 <= k && 0 <= d
    ensures k * d >= d
  {
    assert (k - 1) * d >= 0;
  }

  lemma ScaleAtLeast(x: int, k: int)
    requires 0 <= x && 1 <= k
    ensures x <= x * k
  {
    assert x * (k - 1) >= 0;
  }

  lemma ProductGrows(x: int, y: int, z: int)
    requires x <= y && 0 <= z
    ensures x * z <= y * z
  {
    assert (y - x) * z == y * z - x * z;
    assert (y - x) * z >= 0;
  }

  lemma SmallRemainder(n: nat, m: int)
    requires n < m
    ensures n % m == n
  {
  }

  function PowerOfTwo(n: nat): (r: int)
    ensures 1 <= r
  {
    if n == 0 then 1 else 2 * PowerOfTwo(n - 1)
  }
}
