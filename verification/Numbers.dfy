/** Greatest common divisors and machine-width arithmetic, as the decision engine uses them. */
module Numbers {
  import opened Wrappers

  const U64_MAX: nat := 0xFFFF_FFFF_FFFF_FFFF
  const U128_MAX: nat := 0xFFFF_FFFF_FFFF_FFFF_FFFF_FFFF_FFFF_FFFF

  type U64 = n: nat | n <= U64_MAX
  type U128 = n: nat | n <= U128_MAX

  function CheckedMul(a: nat, b: nat, max: nat): Option<nat> {
    if a * b <= max then Some(a * b) else None
  }

  function CheckedAdd(a: nat, b: nat, max: nat): Option<nat> {
    if a + b <= max then Some(a + b) else None
  }

  predicate Divides(d: nat, n: int)
    requires d > 0
  {
    n % d == 0
  }

  lemma MulAtLeast(d: nat, k: int)
    requires k >= 1
    ensures d * k >= d
  {
  }

  lemma NoSmallMultiple(d: int, k: int)
    requires d > 0 && -d < d * k < d
    ensures k == 0
  {
    if k >= 1 { MulAtLeast(d, k); }
  }

  lemma DivModUnique(d: nat, q: int, r: int)
    requires d > 0 && 0 <= r < d
    ensures (d * q + r) / d == q && (d * q + r) % d == r
  {
    var n := d * q + r;
    assert n == d * (n / d) + n % d;
    assert d * (q - n / d) == d * q - d * (n / d);
    NoSmallMultiple(d, q - n / d);
  }

  lemma MultipleDivides(d: nat, k: int)
    requires d > 0
    ensures Divides(d, d * k) && d * k / d == k
  {
    DivModUnique(d, k, 0);
  }

  lemma DivideExact(d: nat, n: int)
    requires d > 0 && Divides(d, n)
    ensures n == d * (n / d)
  {
  }

  lemma DividesCombination(d: nat, a: int, b: int, x: int, y: int)
    requires d > 0 && Divides(d, a) && Divides(d, b)
    ensures Divides(d, a * x + b * y)
  {
    DivideExact(d, a);
    DivideExact(d, b);
    FactorOut(d, a / d, b / d, x, y);
    MultipleDivides(d, a / d * x + b / d * y);
  }

  lemma DivisorBound(d: nat, n: int)
    requires d > 0 && n > 0 && Divides(d, n)
    ensures d <= n
  {
  }

  /** Euclid's algorithm, in the form the two loops implement. */
  function Gcd(a: nat, b: nat): nat
    decreases b
  {
    if b == 0 then a else Gcd(b, a % b)
  }

  /** A greatest common divisor is a combination of its arguments. */
  lemma {:induction false} Bezout(a: nat, b: nat) returns (x: int, y: int)
    ensures a * x + b * y == Gcd(a, b)
    decreases b
  {
    if b == 0 {
      x, y := 1, 0;
    } else {
      var x', y' := Bezout(b, a % b);
      x, y := y', x' - a / b * y';
      Rewind(a, b, a / b, a % b, x', y');
    }
  }

  lemma Rewind(a: nat, b: nat, q: nat, r: nat, x: int, y: int)
    requires a == b * q + r
    ensures a * y + b * (x - q * y) == b * x + r * y
  {
    assert (b * q + r) * y == b * q * y + r * y;
    assert b * q * y == b * (q * y);
    assert b * (x - q * y) == b * x - b * (q * y);
  }

  lemma {:induction false} GcdDivides(a: nat, b: nat)
    requires a > 0 || b > 0
    ensures Gcd(a, b) > 0 && Divides(Gcd(a, b), a) && Divides(Gcd(a, b), b)
    decreases b
  {
    if b > 0 {
      GcdDivides(b, a % b);
      DividesCombination(Gcd(a, b), b, a % b, a / b, 1);
      assert b * (a / b) + a % b * 1 == a;
    }
  }

  /** The greatest common divisor divides both numbers and every common divisor divides it. */
  lemma GcdIsGreatest(a: nat, b: nat, d: nat)
    requires (a > 0 || b > 0) && d > 0
    ensures Gcd(a, b) > 0 && Divides(Gcd(a, b), a) && Divides(Gcd(a, b), b)
    ensures Divides(d, a) && Divides(d, b) ==> Divides(d, Gcd(a, b)) && d <= Gcd(a, b)
  {
    GcdDivides(a, b);
    if Divides(d, a) && Divides(d, b) {
      var x, y := Bezout(a, b);
      DividesCombination(d, a, b, x, y);
      DivisorBound(d, Gcd(a, b));
    }
  }

  /** `gcd`: the loop of both ratio and bundle code, before ratio's guard against zero. */
  method GcdLoop(a0: nat, b0: nat) returns (a: nat)
    ensures a == Gcd(a0, b0)
  {
    a := a0;
    var b: nat := b0;
    while b != 0
      invariant Gcd(a, b) == Gcd(a0, b0)
      decreases b
    {
      var remainder := a % b;
      a := b;
      b := remainder;
    }
  }

  predicate Coprime(a: nat, b: nat) {
    Gcd(a, b) == 1
  }

  /** A divisor of a product that is coprime to one factor divides the other. */
  lemma CoprimeCancels(a: nat, b: nat, c: int)
    requires b > 0 && Coprime(a, b) && Divides(b, a * c)
    ensures Divides(b, c)
  {
    var x, y := Bezout(a, b);
    DividesCombination(b, a * c, b * c, x, y) by { MultipleDivides(b, c); }
    assert a * c * x + b * c * y == c by {
      assert a * c * x == c * (a * x);
      assert b * c * y == c * (b * y);
      assert c * (a * x) + c * (b * y) == c * (a * x + b * y) == c;
    }
  }

  /** Dividing both numbers by their greatest common divisor leaves them coprime. */
  lemma ReducedIsCoprime(a: nat, b: nat)
    requires b > 0
    ensures Gcd(a, b) > 0 && Coprime(a / Gcd(a, b), b / Gcd(a, b))
    ensures a == Gcd(a, b) * (a / Gcd(a, b)) && b == Gcd(a, b) * (b / Gcd(a, b)) && b / Gcd(a, b) > 0
  {
    var g := Gcd(a, b);
    GcdDivides(a, b);
    var p, q := a / g, b / g;
    DivideExact(g, a);
    DivideExact(g, b);
    var x, y := Bezout(a, b);
    ReduceCombination(g, a, b, p, q, x, y);
    CoprimeOfCombination(p, q, x, y);
  }

  lemma ReduceCombination(g: nat, a: nat, b: nat, p: nat, q: nat, x: int, y: int)
    requires g > 0 && a == g * p && b == g * q && b > 0 && a * x + b * y == g
    ensures p * x + q * y == 1 && q > 0
  {
    FactorOut(g, p, q, x, y);
    CancelFactor(g, p * x + q * y);
  }

  lemma FactorOut(g: int, p: int, q: int, x: int, y: int)
    ensures g * p * x + g * q * y == g * (p * x + q * y)
  {
    assert g * p * x == g * (p * x);
    assert g * q * y == g * (q * y);
  }

  lemma CoprimeOfCombination(p: nat, q: nat, x: int, y: int)
    requires q > 0 && p * x + q * y == 1
    ensures Coprime(p, q)
  {
    GcdDivides(p, q);
    DividesCombination(Gcd(p, q), p, q, x, y);
    DivisorBound(Gcd(p, q), 1);
  }

  lemma CancelFactor(g: nat, k: int)
    requires g > 0 && g * k == g
    ensures k == 1
  {
    MultipleDivides(g, k);
    MultipleDivides(g, 1);
  }
}
