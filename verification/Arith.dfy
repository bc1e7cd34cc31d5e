/** Integer arithmetic the limiters share: exact ceilings and the two Galois
    laws that turn a division into a product. */
module Arith {

  function Max(a: int, b: int): int {
    if a < b then b else a
  }

  function Min(a: int, b: int): int {
    if a < b then a else b
  }

  /** The ceiling of a/b, for any sign of a. */
  function CeilDiv(a: int, b: int): int
    requires b > 0
  {
    -((-a) / b)
  }

  lemma CeilDivLaw(a: int, b: int, x: int)
    requires b > 0
    ensures CeilDiv(a, b) <= x <==> a <= x * b
  {
    FloorDivLaw(-a, b, -x);
    assert (-x) * b == -(x * b);
  }

  lemma FloorDivLaw(a: int, b: int, x: int)
    requires b > 0
    ensures x <= a / b <==> x * b <= a
  {
    var q := a / b;
    assert q * b <= a < q * b + b;
    if x <= q {
      MulMono(x, q, b);
    } else {
      MulMono(q + 1, x, b);
      assert (q + 1) * b == q * b + b;
    }
  }

  lemma MulMono(x: int, y: int, b: int)
    requires x <= y && b >= 0
    ensures x * b <= y * b
  {
  }

  lemma MulMonoStrict(x: int, y: int, b: int)
    requires x < y && b > 0
    ensures x * b < y * b
  {
  }

  // ---- Multiples and common divisors ----

  lemma TimesIsMultiple(g: int, k: int)
    requires g > 0
    ensures k * g % g == 0
  {
    FloorDivLaw(k * g, g, k);
    FloorDivLaw(k * g, g, k + 1);
    assert (k + 1) * g == k * g + g;
  }

  lemma MultipleTimes(g: int, x: int, k: int)
    requires g > 0 && x % g == 0
    ensures k * x % g == 0
  {
    TimesIsMultiple(g, k * (x / g));
    assert k * (x / g) * g == k * x;
  }

  lemma MultipleSum(g: int, a: int, b: int)
    requires g > 0 && a % g == 0 && b % g == 0
    ensures (a + b) % g == 0 && (a - b) % g == 0
  {
    TimesIsMultiple(g, a / g + b / g);
    TimesIsMultiple(g, a / g - b / g);
    assert (a / g + b / g) * g == a + b;
    assert (a / g - b / g) * g == a - b;
  }

  /** A number is its own remainder once whole multiples are taken off. */
  lemma RemainderIs(x: int, b: int, q: int, r: int)
    requires 0 <= r < b && x == q * b + r
    ensures x % b == r && x / b == q
  {
    FloorDivLaw(x, b, q);
    FloorDivLaw(x, b, q + 1);
    assert (q + 1) * b == q * b + b;
    assert x / b == q;
    assert x == x / b * b + x % b;
  }

  function Gcd(a: nat, b: nat): nat
    decreases b
  {
    if b == 0 then a else Gcd(b, a % b)
  }

  lemma {:induction false} GcdDivides(a: nat, b: nat)
    requires a > 0 || b > 0
    ensures Gcd(a, b) > 0 && a % Gcd(a, b) == 0 && b % Gcd(a, b) == 0
    decreases b
  {
    if b == 0 {
      TimesIsMultiple(a, 0);
      TimesIsMultiple(a, 1);
    } else {
      GcdDivides(b, a % b);
      DividesDividend(Gcd(a, b), a, b);
    }
  }

  lemma DividesDividend(g: int, a: int, b: int)
    requires g > 0 && b > 0 && b % g == 0 && a % b % g == 0
    ensures a % g == 0
  {
    var r := a % b;
    assert a == a / b * b + r;
    MultipleTimes(g, b, a / b);
    MultipleSum(g, a / b * b, r);
  }

  lemma {:induction false} Bezout(a: nat, b: nat) returns (x: int, y: int)
    ensures x * a + y * b == Gcd(a, b)
    decreases b
  {
    if b == 0 {
      x, y := 1, 0;
    } else {
      var u, v := Bezout(b, a % b);
      x, y := v, u - a / b * v;
      assert a % b == a - a / b * b;
      assert v * (a - a / b * b) == v * a - a / b * v * b;
      assert (u - a / b * v) * b == u * b - a / b * v * b;
    }
  }

  /** Whatever divides both divides the greatest common divisor. */
  lemma DividesGcd(d: int, a: nat, b: nat)
    requires d > 0 && a % d == 0 && b % d == 0
    ensures Gcd(a, b) % d == 0
  {
    var x, y := Bezout(a, b);
    MultipleTimes(d, a, x);
    MultipleTimes(d, b, y);
    MultipleSum(d, x * a, y * b);
  }

  /** The least positive remainder that multiples of a leave modulo b. */
  lemma LeastRemainder(a: nat, b: nat) returns (n: nat)
    requires a > 0 && b > 0 && Gcd(a, b) < b
    ensures n * a % b == Gcd(a, b)
  {
    var x, y := Bezout(a, b);
    GcdDivides(a, b);
    n := x % b;
    assert x == x / b * b + n;
    assert n * a == x * a - x / b * a * b;
    assert x * a == Gcd(a, b) - y * b;
    assert n * a == (-y - x / b * a) * b + Gcd(a, b);
    RemainderIs(n * a, b, -y - x / b * a, Gcd(a, b));
  }
}
