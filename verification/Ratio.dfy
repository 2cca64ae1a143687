/** `Ratio`: exact non-negative rationals in lowest terms, with every operation checked for overflow. */
module Ratio {
  import opened Wrappers
  import opened Numbers

  datatype Fraction = Fraction(numerator: nat, denominator: nat)

  predicate InLowestTerms(r: Fraction) {
    r.denominator > 0 && r.numerator <= U128_MAX && r.denominator <= U128_MAX
    && Coprime(r.numerator, r.denominator)
  }

  type Ratio = r: Fraction | InLowestTerms(r) witness Fraction(0, 1)

  datatype RatioError = ZeroDenominator | Overflow(what: string)

  datatype Ordering = Less | Equal | Greater

  const ZERO: Ratio := Fraction(0, 1)

  /** The number a ratio stands for. */
  ghost function Value(r: Ratio): real {
    Quotient(r.numerator, r.denominator)
  }

  ghost function Quotient(n: nat, d: nat): real
    requires d > 0
  {
    n as real / d as real
  }

  lemma RealProduct(a: int, b: int)
    ensures (a * b) as real == a as real * b as real
  {
  }

  lemma ScaleOrder(p: real, q: real, m: real)
    requires m > 0.0
    ensures p * m < q * m <==> p < q
    ensures p * m == q * m <==> p == q
  {
    if p < q { assert (q - p) * m > 0.0; }
    if p > q { assert (p - q) * m > 0.0; }
  }

  lemma QuotientOrder(n: nat, d: nat, n': nat, d': nat)
    requires d > 0 && d' > 0
    ensures n * d' < n' * d <==> Quotient(n, d) < Quotient(n', d')
    ensures n * d' == n' * d <==> Quotient(n, d) == Quotient(n', d')
  {
    RealProduct(n, d');
    RealProduct(n', d);
    var y, w := d as real, d' as real;
    var p, q := Quotient(n, d), Quotient(n', d');
    assert n as real == p * y && n' as real == q * w;
    assert n as real * w == p * (y * w) && n' as real * y == q * (y * w);
    ScaleOrder(p, q, y * w);
  }

  /** Equal values have equal terms, so structural equality is equality of value. */
  lemma LowestTermsAreUnique(a: Ratio, b: Ratio)
    ensures a == b <==> Value(a) == Value(b)
  {
    if Value(a) == Value(b) {
      QuotientOrder(a.numerator, a.denominator, b.numerator, b.denominator);
      DenominatorDivides(a, b);
      DenominatorDivides(b, a);
      DivisorBound(a.denominator, b.denominator);
      DivisorBound(b.denominator, a.denominator);
      MultipleDivides(a.denominator, a.numerator);
      MultipleDivides(a.denominator, b.numerator);
    }
  }

  lemma DenominatorDivides(a: Ratio, b: Ratio)
    requires a.numerator * b.denominator == b.numerator * a.denominator
    ensures Divides(a.denominator, b.denominator)
  {
    MultipleDivides(a.denominator, b.numerator);
    CoprimeCancels(a.numerator, a.denominator, b.denominator);
  }

  // -- construction ---------------------------------------------------------

  /** `Ratio::new`. */
  function New(numerator: nat, denominator: nat): (r: Result<Ratio, RatioError>)
    requires numerator <= U128_MAX && denominator <= U128_MAX
    ensures r.Ok? <==> denominator > 0
    ensures r.Ok? ==> Value(r.value) == Quotient(numerator, denominator)
  {
    if denominator == 0 then Err(ZeroDenominator)
    else
      ReducedIsCoprime(numerator, denominator);
      Reduce(Gcd(numerator, denominator), numerator / Gcd(numerator, denominator),
          denominator / Gcd(numerator, denominator));
      Ok(Fraction(numerator / Gcd(numerator, denominator), denominator / Gcd(numerator, denominator)))
  }

  lemma Reduce(g: nat, p: nat, q: nat)
    requires g > 0 && q > 0
    ensures p <= g * p && q <= g * q && g * q > 0
    ensures Quotient(p, q) == Quotient(g * p, g * q)
  {
    MulAtLeast(p, g);
    MulAtLeast(q, g);
    assert p * (g * q) == (g * p) * q;
    QuotientOrder(p, q, g * p, g * q);
  }

  /** `Ratio::whole`. */
  function Whole(value: nat): (r: Ratio)
    requires value <= U128_MAX
    ensures Value(r) == value as real
  {
    Fraction(value, 1)
  }

  // -- arithmetic -------------------------------------------------------------

  /** What brings `d` to the least common multiple of `d` and `e`. */
  function ScaleTo(d: nat, e: nat): (s: nat)
    requires d > 0 && e > 0
    ensures s > 0
  {
    ReducedIsCoprime(d, e);
    e / Gcd(d, e)
  }

  function ScaleFrom(d: nat, e: nat): (s: nat)
    requires d > 0 && e > 0
    ensures s > 0
  {
    ScalesMeet(d, e);
    d / Gcd(d, e)
  }

  lemma ScalesMeet(d: nat, e: nat)
    requires d > 0 && e > 0
    ensures Gcd(d, e) > 0 && d / Gcd(d, e) > 0
    ensures d == Gcd(d, e) * (d / Gcd(d, e)) && e == Gcd(d, e) * (e / Gcd(d, e))
  {
    ReducedIsCoprime(d, e);
    GcdDivides(d, e);
    DivideExact(Gcd(d, e), d);
  }

  /** Both scales lead to one denominator, and no common multiple of the two is smaller. */
  lemma LeastCommonDenominator(d: nat, e: nat, k: nat)
    requires d > 0 && e > 0 && k > 0 && Divides(d, k) && Divides(e, k)
    ensures d * ScaleTo(d, e) == e * ScaleFrom(d, e) <= k
  {
    ScalesMeet(d, e);
    ReducedIsCoprime(d, e);
    DivideExact(d, k);
    DivideExact(e, k);
    LeastMultiple(Gcd(d, e), ScaleFrom(d, e), ScaleTo(d, e), k / d, k / e, k);
  }

  lemma LeastMultiple(g: nat, s: nat, t: nat, x: nat, y: nat, k: nat)
    requires g > 0 && s > 0 && t > 0 && k > 0 && Coprime(s, t)
    requires k == (g * s) * x == (g * t) * y
    ensures (g * s) * t == (g * t) * s <= k
  {
    SameMultiple(g, s, t, x, y);
    MultipleDivides(t, y);
    CoprimeCancels(s, t, x);
    assert x > 0;
    DivisorBound(t, x);
    ScaleUp(g * s, t, x);
    assert (g * s) * t == (g * t) * s;
  }

  lemma ScaleUp(d: nat, t: nat, x: nat)
    requires t <= x
    ensures d * t <= d * x
  {
  }

  // g*s*x == g*t*y only when s*x == t*y.
  lemma SameMultiple(g: nat, s: nat, t: nat, x: nat, y: nat)
    requires g > 0 && (g * s) * x == (g * t) * y
    ensures s * x == t * y
  {
    assert g * (s * x) == (g * s) * x && g * (t * y) == (g * t) * y;
    assert g * (s * x - t * y) == 0;
  }

  /** The numerators over the least common denominator, added before anything is reduced. */
  function SumOver(n: nat, s: nat, m: nat, t: nat): nat {
    n * s + m * t
  }

  /** The sum, written over the least common denominator, fits in u128. */
  predicate SumFits(a: Ratio, b: Ratio) {
    && SumOver(a.numerator, ScaleTo(a.denominator, b.denominator), b.numerator,
         ScaleFrom(a.denominator, b.denominator)) <= U128_MAX
    && SumOver(a.denominator, ScaleTo(a.denominator, b.denominator), 0, 0) <= U128_MAX
  }

  /** `checked_add`: succeeds exactly when the sum fits, and is then exact. */
  function CheckedSum(a: Ratio, b: Ratio): (r: Result<Ratio, RatioError>)
    ensures r.Ok? ==> Value(r.value) == Value(a) + Value(b)
    ensures r.Ok? <==> SumFits(a, b)
  {
    ScalesMeet(a.denominator, b.denominator);
    AddScaled(a.numerator, a.denominator, b.numerator, b.denominator, Gcd(a.denominator, b.denominator),
              ScaleFrom(a.denominator, b.denominator), ScaleTo(a.denominator, b.denominator))
  }

  function AddScaled(n: nat, d: nat, m: nat, e: nat, g: nat, s: nat, t: nat): (r: Result<Ratio, RatioError>)
    requires g > 0 && s > 0 && t > 0 && d == g * s && e == g * t && d > 0 && e > 0
    ensures r.Ok? ==> Value(r.value) == Quotient(n, d) + Quotient(m, e)
    ensures r.Ok? <==> SumOver(n, t, m, s) <= U128_MAX && SumOver(d, t, 0, 0) <= U128_MAX
  {
    var left := CheckedMul(n, t, U128_MAX);
    if left.None? then Err(Overflow("add: left numerator")) else
    var right := CheckedMul(m, s, U128_MAX);
    if right.None? then Err(Overflow("add: right numerator")) else
    var numerator := CheckedAdd(left.value, right.value, U128_MAX);
    if numerator.None? then Err(Overflow("add: numerator")) else
    var denominator := CheckedMul(d, t, U128_MAX);
    if denominator.None? then Err(Overflow("add: denominator")) else
    CommonDenominator(n, m, g, s, t);
    New(numerator.value, denominator.value)
  }

  // (n/(g*s)) + (m/(g*t)) over the common denominator g*s*t.
  lemma CommonDenominator(n: nat, m: nat, g: nat, s: nat, t: nat)
    requires g > 0 && s > 0 && t > 0
    ensures g * s > 0 && g * t > 0 && g * s * t > 0
    ensures Quotient(n * t + m * s, g * s * t) == Quotient(n, g * s) + Quotient(m, g * t)
  {
    MulAtLeast(g, s);
    MulAtLeast(g, t);
    MulAtLeast(g * s, t);
    assert n * (g * s * t) == (n * t) * (g * s);
    QuotientOrder(n, g * s, n * t, g * s * t);
    assert m * (g * s * t) == (m * s) * (g * t);
    QuotientOrder(m, g * t, m * s, g * s * t);
    QuotientSum(n * t, m * s, g * s * t);
  }

  lemma QuotientSum(n: nat, m: nat, d: nat)
    requires d > 0
    ensures Quotient(n + m, d) == Quotient(n, d) + Quotient(m, d)
  {
  }

  /** `checked_mul_int`: exact whenever it succeeds. */
  function CheckedScale(a: Ratio, factor: nat): (r: Result<Ratio, RatioError>)
    requires factor <= U128_MAX
    ensures r.Ok? ==> Value(r.value) == Value(a) * factor as real
    ensures r.Ok? <==> a.numerator * factor <= U128_MAX
  {
    var numerator := CheckedMul(a.numerator, factor, U128_MAX);
    if numerator.None? then Err(Overflow("mul: numerator"))
    else
      QuotientScale(a.numerator, a.denominator, factor);
      New(numerator.value, a.denominator)
  }

  lemma QuotientScale(n: nat, d: nat, k: nat)
    requires d > 0
    ensures Quotient(n * k, d) == Quotient(n, d) * k as real
  {
    RealProduct(n, k);
    assert n as real * k as real / d as real == n as real / d as real * k as real;
  }

  /** `checked_cmp`: the order of the values whenever it succeeds. */
  function CheckedCompare(a: Ratio, b: Ratio): (r: Result<Ordering, RatioError>)
    ensures r.Ok? ==>
      && (r.value.Less? <==> Value(a) < Value(b))
      && (r.value.Equal? <==> Value(a) == Value(b))
      && (r.value.Greater? <==> Value(a) > Value(b))
    ensures r.Ok? <==> a.numerator * b.denominator <= U128_MAX && b.numerator * a.denominator <= U128_MAX
  {
    var left := CheckedMul(a.numerator, b.denominator, U128_MAX);
    if left.None? then Err(Overflow("cmp: left")) else
    var right := CheckedMul(b.numerator, a.denominator, U128_MAX);
    if right.None? then Err(Overflow("cmp: right")) else
    QuotientOrder(a.numerator, a.denominator, b.numerator, b.denominator);
    Ok(if left.value < right.value then Less else if left.value == right.value then Equal else Greater)
  }

  /** numerator / denominator of two ratios, as the balancing factor forms it. */
  function CheckedDivide(a: Ratio, b: Ratio): (r: Result<Ratio, RatioError>)
    requires b.numerator > 0
    ensures r.Ok? ==> Value(b) != 0.0 && Value(r.value) == Value(a) / Value(b)
    ensures r.Ok? <==> a.numerator * b.denominator <= U128_MAX && b.numerator * a.denominator <= U128_MAX
  {
    var n := CheckedMul(a.numerator, b.denominator, U128_MAX);
    if n.None? then Err(Overflow("factor numerator")) else
    var d := CheckedMul(b.numerator, a.denominator, U128_MAX);
    if d.None? then Err(Overflow("factor denominator")) else
    QuotientOfQuotients(a.numerator, a.denominator, b.numerator, b.denominator);
    New(n.value, d.value)
  }

  lemma QuotientOfQuotients(n: nat, d: nat, n': nat, d': nat)
    requires d > 0 && n' > 0 && d' > 0
    ensures n' * d > 0 && Quotient(n', d') > 0.0
    ensures Quotient(n * d', n' * d) == Quotient(n, d) / Quotient(n', d')
  {
    MulAtLeast(n', d);
    RealProduct(n, d');
    RealProduct(n', d);
    var x, y, z, w := n as real, d as real, n' as real, d' as real;
    QuotientCancel(x, y, z, w);
  }

  lemma QuotientCancel(x: real, y: real, z: real, w: real)
    requires y > 0.0 && z > 0.0 && w > 0.0
    ensures z / w > 0.0 && z * y > 0.0 && x * w / (z * y) == x / y / (z / w)
  {
    var p, q := x / y, z / w;
    assert x == p * y && z == q * w;
    assert q > 0.0;
    var r := p / q;
    assert p == r * q;
    assert z * y == q * w * y;
    assert x * w == r * q * y * w;
    assert x * w == r * (z * y);
  }
}
