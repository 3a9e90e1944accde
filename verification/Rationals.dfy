/** Exact rationals in canonical form: `marcomKpi/rat.ts`. */
module Rationals {
  import opened Prelude

  datatype Rat = Rat(n: int, d: int)

  const SCALE := 1_000_000_000_000_000_000

  function Abs(x: int): nat { if x < 0 then -x else x }

  // ---- greatest common divisor ----------------------------------------------------------------------------

  function Gcd(a: nat, b: nat): nat
    decreases b
  {
    if b == 0 then a else Gcd(b, a % b)
  }

  method ComputeGcd(a: int, b: int) returns (g: nat)
    ensures g == Gcd(Abs(a), Abs(b))
  {
    var x: nat, y: nat := Abs(a), Abs(b);
    while y != 0
      invariant Gcd(x, y) == Gcd(Abs(a), Abs(b))
      decreases y
    {
      x, y := y, x % y;
    }
    g := x;
  }

  lemma {:induction false} GcdFactors(a: nat, b: nat) returns (x: nat, y: nat)
    ensures a == Gcd(a, b) * x && b == Gcd(a, b) * y
    decreases b
  {
    if b == 0 {
      x, y := 1, 0;
    } else {
      var x', y' := GcdFactors(b, a % b);
      var g := Gcd(b, a % b);
      x, y := (a / b) * x' + y', x';
      assert a == (a / b) * b + a % b;
      FactorStep(g, a / b, x', y');
    }
  }

  lemma FactorStep(g: int, q: int, x: int, y: int)
    ensures q * (g * x) + g * y == g * (q * x + y)
  {
    assert q * (g * x) == g * (q * x);
  }

  lemma {:induction false} Bezout(a: nat, b: nat) returns (s: int, t: int)
    ensures a * s + b * t == Gcd(a, b)
    decreases b
  {
    if b == 0 {
      s, t := 1, 0;
    } else {
      var s', t' := Bezout(b, a % b);
      s, t := t', s' - (a / b) * t';
      assert a == (a / b) * b + a % b;
      BezoutStep(a, b, a / b, s', t');
    }
  }

  lemma BezoutStep(a: int, b: int, q: int, s: int, t: int)
    ensures b * s + (a - q * b) * t == a * t + b * (s - q * t)
  {
    assert (a - q * b) * t == a * t - q * b * t;
    assert b * (s - q * t) == b * s - b * (q * t);
    assert q * b * t == b * (q * t);
  }

  lemma GcdPositive(a: nat, b: nat)
    requires b > 0
    ensures Gcd(a, b) > 0
  {
    var x, y := GcdFactors(a, b);
  }

  lemma MulLe(x: int, y: int, d: int)
    ensures d >= 0 && x <= y ==> x * d <= y * d
  {
  }

  lemma ProductIsOne(g: nat, x: int)
    requires g * x == 1
    ensures g == 1
  {
    MulLe(1, x, g);
    MulLe(x, 0, g);
  }

  // ---- canonical form ---------------------------------------------------------------------------------------

  predicate Canonical(r: Rat) {
    r.d > 0 && Gcd(Abs(r.n), r.d) == 1
  }

  function Reduce(n: int, d: nat): Rat
    requires d > 0
  {
    GcdPositive(Abs(n), d);
    var g := Gcd(Abs(n), d);
    Rat(if n < 0 then -(-n / g) else n / g, d / g)
  }

  /** `Rat.of`; None stands for the error on a zero denominator. */
  function Of(n: int, d: int): Option<Rat> {
    if d == 0 then None else if d < 0 then Some(Reduce(-n, -d)) else Some(Reduce(n, d))
  }

  lemma ExactQuotient(g: nat, x: nat)
    requires g > 0
    ensures g * x / g == x
  {
    var q, r := g * x / g, g * x % g;
    assert g * x == g * q + r;
    assert g * (x - q) == r;
    MulLe(1, x - q, g);
    MulLe(x - q, -1, g);
  }

  lemma ReduceIs(n: int, d: nat)
    requires d > 0
    ensures var g := Gcd(Abs(n), d); var r := Reduce(n, d);
      g > 0 && n == g * r.n && d == g * r.d && r.d > 0
  {
    GcdPositive(Abs(n), d);
    var g := Gcd(Abs(n), d);
    var x, y := GcdFactors(Abs(n), d);
    ExactQuotient(g, x);
    ExactQuotient(g, y);
    var z: int := x;
    assert Reduce(n, d) == Rat(if n < 0 then -z else z, y);
    NegatedProduct(g, z);
    PositiveFactor(g, y, d);
  }

  lemma NegatedProduct(g: int, x: int)
    ensures g * -x == -(g * x)
  {
  }

  lemma PositiveFactor(g: nat, y: nat, d: nat)
    requires d > 0 && d == g * y
    ensures y > 0
  {
  }

  lemma ReduceCanonical(n: int, d: nat)
    requires d > 0
    ensures Canonical(Reduce(n, d))
  {
    ReduceIs(n, d);
    var g, r := Gcd(Abs(n), d), Reduce(n, d);
    var s, t := Bezout(Abs(n), d);
    assert Abs(n) == g * Abs(r.n);
    Collect(g, Abs(r.n), r.d, s, t);
    OneFactor(g, Abs(r.n) * s + r.d * t);
    CoprimeByBezout(Abs(r.n), r.d, s, t);
  }

  lemma OneFactor(g: nat, x: int)
    requires g > 0 && g * x == g
    ensures x == 1
  {
    MulLe(2, x, g);
    MulLe(x, 0, g);
  }

  lemma CoprimeByBezout(a: nat, b: nat, s: int, t: int)
    requires a * s + b * t == 1
    ensures Gcd(a, b) == 1
  {
    var x, y := GcdFactors(a, b);
    Collect(Gcd(a, b), x, y, s, t);
    ProductIsOne(Gcd(a, b), x * s + y * t);
  }

  lemma Collect(h: int, x: int, y: int, s: int, t: int)
    ensures (h * x) * s + (h * y) * t == h * (x * s + y * t)
  {
    assert (h * x) * s == h * (x * s);
    assert (h * y) * t == h * (y * t);
  }

  // ---- the value ----------------------------------------------------------------------------------------------

  function Frac(n: int, d: int): real
    requires d != 0
  {
    n as real / d as real
  }

  function Value(r: Rat): real
    requires r.d > 0
  {
    Frac(r.n, r.d)
  }

  /** The value of any pair, zero when it is none. */
  function Worth(r: Rat): real {
    if r.d > 0 then Value(r) else 0.0
  }

  lemma FracTimes(n: int, d: int)
    requires d != 0
    ensures Frac(n, d) * d as real == n as real
  {
  }

  lemma RealCancel(x: real, y: real, d: real)
    requires d != 0.0 && x * d == y * d
    ensures x == y
  {
    assert (x - y) * d == 0.0;
  }

  lemma CastTimes(a: int, b: int)
    ensures (a * b) as real == a as real * b as real
  {
  }

  /** Two fractions are equal when cross multiplication says so. */
  lemma FracCross(n: int, d: int, m: int, e: int)
    requires d != 0 && e != 0
    ensures Frac(n, d) == Frac(m, e) <==> n * e == m * d
  {
    var x, y, p, q := Frac(n, d), Frac(m, e), d as real, e as real;
    FracTimes(n, d);
    FracTimes(m, e);
    CastTimes(n, e);
    CastTimes(m, d);
    assert (n * e) as real == x * p * q;
    assert (m * d) as real == y * q * p == y * (p * q);
    assert x * p * q == x * (p * q);
    if n * e == m * d {
      assert p * q != 0.0;
      RealCancel(x, y, p * q);
    }
  }

  lemma ReduceValue(n: int, d: nat)
    requires d > 0
    ensures Reduce(n, d).d > 0 && Value(Reduce(n, d)) == Frac(n, d)
  {
    ReduceIs(n, d);
    var g, r := Gcd(Abs(n), d), Reduce(n, d);
    assert r.n * d == n * r.d by {
      assert r.n * (g * r.d) == (g * r.n) * r.d;
    }
    FracCross(r.n, r.d, n, d);
  }

  /** Every constructed value is canonical and worth n / d. */
  lemma OfIsCanonical(n: int, d: int)
    requires d != 0
    ensures Of(n, d).Some? && Canonical(Of(n, d).value) && Value(Of(n, d).value) == Frac(n, d)
  {
    if d < 0 {
      ReduceCanonical(-n, -d);
      ReduceValue(-n, -d);
      assert -n * d == n * -d;
      FracCross(-n, -d, n, d);
    } else {
      ReduceCanonical(n, d);
      ReduceValue(n, d);
    }
  }

  lemma DividesThroughCoprime(a: nat, d: nat, m: int, e: int)
    requires Gcd(a, d) == 1 && d > 0 && a * e == m * d
    ensures exists k :: e == d * k
  {
    var s, t := Bezout(a, d);
    MultipleOf(a, d, m, e, s, t);
  }

  lemma MultipleOf(a: int, d: int, m: int, e: int, s: int, t: int)
    requires a * s + d * t == 1 && a * e == m * d
    ensures e == d * (m * s + e * t)
  {
    assert e == e * (a * s + d * t);
    assert e * (a * s) == (a * e) * s;
    assert m * d * s == d * (m * s);
    assert e * (d * t) == d * (e * t);
  }

  lemma MutualMultiples(d: nat, e: nat, k: int, l: int)
    requires d > 0 && e > 0 && e == d * k && d == e * l
    ensures d == e
  {
    MulLe(k, 0, d);
    MulLe(l, 0, e);
    MulLe(1, k, d);
    MulLe(1, l, e);
  }

  /** Canonical values are equal exactly when they are the same pair. */
  lemma SameValueSameRat(a: Rat, b: Rat)
    requires Canonical(a) && Canonical(b)
    ensures Value(a) == Value(b) <==> a == b
  {
    FracCross(a.n, a.d, b.n, b.d);
    if a.n * b.d == b.n * a.d {
      AbsCross(a.n, b.d, b.n, a.d);
      DividesThroughCoprime(Abs(a.n), a.d, Abs(b.n), b.d);
      DividesThroughCoprime(Abs(b.n), b.d, Abs(a.n), a.d);
      var k :| b.d == a.d * k;
      var l :| a.d == b.d * l;
      MutualMultiples(a.d, b.d, k, l);
      SameFactor(a.n, b.n, a.d);
    }
  }

  lemma AbsCross(n: int, e: nat, m: int, d: nat)
    requires n * e == m * d && d > 0 && e > 0
    ensures Abs(n) * e == Abs(m) * d
  {
    MulLe(n, -1, e); MulLe(0, n, e);
    MulLe(m, -1, d); MulLe(0, m, d);
    assert -n * e == -(n * e) && -m * d == -(m * d);
  }

  lemma SameFactor(x: int, y: int, d: nat)
    requires d > 0 && x * d == y * d
    ensures x == y
  {
    MulLe(x + 1, y, d);
    MulLe(y + 1, x, d);
    assert (x + 1) * d == x * d + d && (y + 1) * d == y * d + d;
  }

  // ---- arithmetic -------------------------------------------------------------------------------------------------

  const ZERO := Rat(0, 1)
  const ONE := Rat(1, 1)

  function Add(a: Rat, b: Rat): Rat
    requires Canonical(a) && Canonical(b)
  {
    Reduce(a.n * b.d + b.n * a.d, a.d * b.d)
  }

  function Sub(a: Rat, b: Rat): Rat
    requires Canonical(a) && Canonical(b)
  {
    Reduce(a.n * b.d - b.n * a.d, a.d * b.d)
  }

  function Mul(a: Rat, b: Rat): Rat
    requires Canonical(a) && Canonical(b)
  {
    Reduce(a.n * b.n, a.d * b.d)
  }

  /** None when dividing by zero. */
  function Div(a: Rat, b: Rat): Option<Rat>
    requires Canonical(a) && Canonical(b)
  {
    if b.n == 0 then None else Of(a.n * b.d, a.d * b.n)
  }

  function Cmp(a: Rat, b: Rat): int {
    if a.n * b.d < b.n * a.d then -1 else if a.n * b.d > b.n * a.d then 1 else 0
  }

  lemma SumOfFractions(n: int, d: int, m: int, e: int)
    requires d != 0 && e != 0
    ensures d * e != 0 && Frac(n * e + m * d, d * e) == Frac(n, d) + Frac(m, e)
  {
    var x, y, p, q := Frac(n, d), Frac(m, e), d as real, e as real;
    FracTimes(n, d);
    FracTimes(m, e);
    CastTimes(n, e);
    CastTimes(m, d);
    CastTimes(d, e);
    FracTimes(n * e + m * d, d * e);
    assert (x + y) * (p * q) == (x * p) * q + (y * q) * p;
    RealCancel(Frac(n * e + m * d, d * e), x + y, p * q);
  }

  lemma ProductOfFractions(n: int, d: int, m: int, e: int)
    requires d != 0 && e != 0
    ensures d * e != 0 && Frac(n * m, d * e) == Frac(n, d) * Frac(m, e)
  {
    var x, y, p, q := Frac(n, d), Frac(m, e), d as real, e as real;
    FracTimes(n, d);
    FracTimes(m, e);
    CastTimes(n, m);
    CastTimes(d, e);
    FracTimes(n * m, d * e);
    assert (x * y) * (p * q) == (x * p) * (y * q);
    RealCancel(Frac(n * m, d * e), x * y, p * q);
  }

  lemma AddValue(a: Rat, b: Rat)
    requires Canonical(a) && Canonical(b)
    ensures Canonical(Add(a, b)) && Value(Add(a, b)) == Value(a) + Value(b)
  {
    ReduceCanonical(a.n * b.d + b.n * a.d, a.d * b.d);
    ReduceValue(a.n * b.d + b.n * a.d, a.d * b.d);
    SumOfFractions(a.n, a.d, b.n, b.d);
  }

  lemma DifferenceOfFractions(n: int, d: int, m: int, e: int)
    requires d != 0 && e != 0
    ensures d * e != 0 && Frac(n * e - m * d, d * e) == Frac(n, d) - Frac(m, e)
  {
    SumOfFractions(n, d, -m, e);
    assert -m * d == -(m * d);
    NegatedFraction(m, e);
  }

  lemma SubValue(a: Rat, b: Rat)
    requires Canonical(a) && Canonical(b)
    ensures Canonical(Sub(a, b)) && Value(Sub(a, b)) == Value(a) - Value(b)
  {
    ReduceCanonical(a.n * b.d - b.n * a.d, a.d * b.d);
    ReduceValue(a.n * b.d - b.n * a.d, a.d * b.d);
    DifferenceOfFractions(a.n, a.d, b.n, b.d);
  }

  lemma NegatedFraction(n: int, d: int)
    requires d != 0
    ensures Frac(-n, d) == -Frac(n, d)
  {
    FracTimes(n, d);
    FracTimes(-n, d);
    RealCancel(Frac(-n, d), -Frac(n, d), d as real);
  }

  lemma MulValue(a: Rat, b: Rat)
    requires Canonical(a) && Canonical(b)
    ensures Canonical(Mul(a, b)) && Value(Mul(a, b)) == Value(a) * Value(b)
  {
    ReduceCanonical(a.n * b.n, a.d * b.d);
    ReduceValue(a.n * b.n, a.d * b.d);
    ProductOfFractions(a.n, a.d, b.n, b.d);
  }

  lemma DivValue(a: Rat, b: Rat)
    requires Canonical(a) && Canonical(b)
    ensures Div(a, b).None? <==> b == ZERO
    ensures Div(a, b).Some? ==> Canonical(Div(a, b).value) && Value(Div(a, b).value) * Value(b) == Value(a)
  {
    if b.n == 0 {
      OneFactorOfZero(b);
    } else {
      OfIsCanonical(a.n * b.d, a.d * b.n);
      QuotientTimes(a.n, a.d, b.n, b.d);
    }
  }

  lemma QuotientTimes(n: int, d: int, m: int, e: int)
    requires d != 0 && m != 0 && e != 0
    ensures d * m != 0 && Frac(n * e, d * m) * Frac(m, e) == Frac(n, d)
  {
    ProductOfFractions(n * e, d * m, m, e);
    CrossQuotient(n, d, m, e);
    FracCross(n * e * m, d * m * e, n, d);
  }

  lemma CrossQuotient(n: int, d: int, m: int, e: int)
    ensures n * e * m * d == n * (d * m * e)
  {
  }

  lemma OneFactorOfZero(b: Rat)
    requires Canonical(b) && b.n == 0
    ensures b == ZERO
  {
    var x, y := GcdFactors(0, b.d);
    SameValueSameRat(b, ZERO);
    FracCross(b.n, b.d, 0, 1);
  }

  // ---- a field, and an ordered one --------------------------------------------------------------------------------

  lemma ZeroAndOne()
    ensures Canonical(ZERO) && Canonical(ONE) && Value(ZERO) == 0.0 && Value(ONE) == 1.0 && ZERO != ONE
  {
  }

  lemma SameValue(u: Rat, v: Rat, x: real)
    requires Canonical(u) && Canonical(v) && Value(u) == x && Value(v) == x
    ensures u == v
  {
    SameValueSameRat(u, v);
  }

  // The field laws hold of the pairs themselves, not only of their values.

  lemma AddCommutes(a: Rat, b: Rat)
    requires Canonical(a) && Canonical(b)
    ensures Add(a, b) == Add(b, a)
  {
    AddValue(a, b);
    AddValue(b, a);
    SameValue(Add(a, b), Add(b, a), Value(a) + Value(b));
  }

  lemma MulCommutes(a: Rat, b: Rat)
    requires Canonical(a) && Canonical(b)
    ensures Mul(a, b) == Mul(b, a)
  {
    assert a.n * b.n == b.n * a.n && a.d * b.d == b.d * a.d;
  }

  lemma AddOfSum(s: Rat, c: Rat, x: real)
    requires Canonical(s) && Canonical(c) && Value(s) == x
    ensures Canonical(Add(s, c)) && Value(Add(s, c)) == x + Value(c)
    ensures Canonical(Add(c, s)) && Value(Add(c, s)) == Value(c) + x
  {
    AddValue(s, c);
    AddValue(c, s);
  }

  lemma MulOfProduct(s: Rat, c: Rat, x: real, z: real)
    requires Canonical(s) && Canonical(c) && Value(s) == x && Value(c) == z
    ensures Canonical(Mul(s, c)) && Value(Mul(s, c)) == x * z
    ensures Canonical(Mul(c, s)) && Value(Mul(c, s)) == z * x
  {
    MulValue(s, c);
    MulValue(c, s);
  }

  lemma AddAssociates(a: Rat, b: Rat, c: Rat)
    requires Canonical(a) && Canonical(b) && Canonical(c)
    ensures Canonical(Add(a, b)) && Canonical(Add(b, c)) && Add(Add(a, b), c) == Add(a, Add(b, c))
  {
    AddValue(a, b);
    AddValue(b, c);
    AddOfSum(Add(a, b), c, Value(a) + Value(b));
    AddOfSum(Add(b, c), a, Value(b) + Value(c));
    SameValue(Add(Add(a, b), c), Add(a, Add(b, c)), Value(a) + Value(b) + Value(c));
  }

  lemma RealProduct(x: real, y: real, z: real)
    ensures x * y * z == x * (y * z) && (x + y) * z == x * z + y * z
  {
  }

  lemma TripleProduct(a: Rat, b: Rat, c: Rat)
    requires Canonical(a) && Canonical(b) && Canonical(c)
    ensures Canonical(Mul(a, b)) && Canonical(Mul(Mul(a, b), c)) && Canonical(Mul(c, Mul(a, b)))
    ensures Value(Mul(Mul(a, b), c)) == Value(a) * Value(b) * Value(c)
    ensures Mul(c, Mul(a, b)) == Mul(Mul(a, b), c)
  {
    MulValue(a, b);
    MulValue(Mul(a, b), c);
    MulCommutes(Mul(a, b), c);
  }

  lemma RotatedProduct(x: real, y: real, z: real)
    ensures x * y * z == y * z * x
  {
  }

  lemma MulAssociates(a: Rat, b: Rat, c: Rat)
    requires Canonical(a) && Canonical(b) && Canonical(c)
    ensures Canonical(Mul(a, b)) && Canonical(Mul(b, c)) && Mul(Mul(a, b), c) == Mul(a, Mul(b, c))
  {
    TripleProduct(a, b, c);
    TripleProduct(b, c, a);
    RotatedProduct(Value(a), Value(b), Value(c));
    SameValueSameRat(Mul(Mul(a, b), c), Mul(Mul(b, c), a));
  }

  lemma SumTimes(a: Rat, b: Rat, c: Rat)
    requires Canonical(a) && Canonical(b) && Canonical(c)
    ensures Canonical(Add(a, b)) && Canonical(Mul(Add(a, b), c))
    ensures Value(Mul(Add(a, b), c)) == (Value(a) + Value(b)) * Value(c)
  {
    AddValue(a, b);
    MulOfProduct(Add(a, b), c, Value(a) + Value(b), Value(c));
  }

  lemma TimesSum(a: Rat, b: Rat, c: Rat)
    requires Canonical(a) && Canonical(b) && Canonical(c)
    ensures Canonical(Mul(a, c)) && Canonical(Mul(b, c)) && Canonical(Add(Mul(a, c), Mul(b, c)))
    ensures Value(Add(Mul(a, c), Mul(b, c))) == Value(a) * Value(c) + Value(b) * Value(c)
  {
    MulValue(a, c);
    MulValue(b, c);
    AddValue(Mul(a, c), Mul(b, c));
  }

  lemma MulDistributes(a: Rat, b: Rat, c: Rat)
    requires Canonical(a) && Canonical(b) && Canonical(c)
    ensures Canonical(Add(a, b)) && Canonical(Mul(a, c)) && Canonical(Mul(b, c))
    ensures Mul(Add(a, b), c) == Add(Mul(a, c), Mul(b, c))
  {
    SumTimes(a, b, c);
    TimesSum(a, b, c);
    RealProduct(Value(a), Value(b), Value(c));
    SameValueSameRat(Mul(Add(a, b), c), Add(Mul(a, c), Mul(b, c)));
  }

  lemma NeutralElements(a: Rat)
    requires Canonical(a)
    ensures Canonical(ZERO) && Canonical(ONE) && Add(a, ZERO) == a && Mul(a, ONE) == a
  {
    ZeroAndOne();
    AddOfSum(a, ZERO, Value(a));
    SameValue(Add(a, ZERO), a, Value(a));
    MulOfProduct(a, ONE, Value(a), 1.0);
    SameValue(Mul(a, ONE), a, Value(a));
  }

  lemma SubInvertsAdd(a: Rat, b: Rat)
    requires Canonical(a) && Canonical(b)
    ensures Canonical(Sub(a, b)) && Add(Sub(a, b), b) == a
  {
    SubValue(a, b);
    AddOfSum(Sub(a, b), b, Value(a) - Value(b));
    SameValue(Add(Sub(a, b), b), a, Value(a));
  }

  lemma DivInvertsMul(a: Rat, b: Rat)
    requires Canonical(a) && Canonical(b)
    ensures Div(a, b) == None <==> b == ZERO
    ensures b != ZERO ==> Canonical(Div(a, b).value) && Mul(Div(a, b).value, b) == a
  {
    DivValue(a, b);
    if b != ZERO {
      MulOfProduct(Div(a, b).value, b, Value(Div(a, b).value), Value(b));
      SameValue(Mul(Div(a, b).value, b), a, Value(a));
    }
  }

  lemma SignOfProduct(x: real, p: real, q: real)
    requires p > 0.0 && q > 0.0
    ensures x * (p * q) > 0.0 <==> x > 0.0
    ensures x * (p * q) < 0.0 <==> x < 0.0
  {
    assert p * q > 0.0;
  }

  lemma CrossDifference(x: real, y: real, p: real, q: real)
    ensures (x - y) * (p * q) == (x * p) * q - (y * q) * p
  {
  }

  lemma CrossOrder(n: int, d: int, m: int, e: int)
    requires d > 0 && e > 0
    ensures n * e < m * d <==> Frac(n, d) < Frac(m, e)
    ensures n * e > m * d <==> Frac(n, d) > Frac(m, e)
  {
    var x, y := Frac(n, d), Frac(m, e);
    FracTimes(n, d);
    FracTimes(m, e);
    CrossOrderOf(n, d, m, e, x, y);
  }

  lemma CrossOrderOf(n: int, d: int, m: int, e: int, x: real, y: real)
    requires d > 0 && e > 0 && x * d as real == n as real && y * e as real == m as real
    ensures n * e < m * d <==> x < y
    ensures n * e > m * d <==> x > y
  {
    CastTimes(n, e);
    CastTimes(m, d);
    CrossDifference(x, y, d as real, e as real);
    SignOfProduct(x - y, d as real, e as real);
  }

  /** `cmp` orders by value. */
  lemma CmpIsOrder(a: Rat, b: Rat)
    requires Canonical(a) && Canonical(b)
    ensures Cmp(a, b) == if Value(a) < Value(b) then -1 else if Value(a) > Value(b) then 1 else 0
    ensures Cmp(a, b) == 0 <==> a == b
  {
    CrossOrder(a.n, a.d, b.n, b.d);
    SameValueSameRat(a, b);
  }

  /** The order is total and transitive. */
  lemma CmpIsTotal(a: Rat, b: Rat, c: Rat)
    requires Canonical(a) && Canonical(b) && Canonical(c)
    ensures Cmp(a, b) == -Cmp(b, a)
    ensures Cmp(a, b) <= 0 && Cmp(b, c) <= 0 ==> Cmp(a, c) <= 0
  {
    CmpIsOrder(a, b);
    CmpIsOrder(b, a);
    CmpIsOrder(b, c);
    CmpIsOrder(a, c);
  }

  lemma CmpRespectsAdd(a: Rat, b: Rat, c: Rat)
    requires Canonical(a) && Canonical(b) && Canonical(c)
    ensures Canonical(Add(a, c)) && Canonical(Add(b, c)) && Cmp(Add(a, c), Add(b, c)) == Cmp(a, b)
  {
    AddOfSum(a, c, Value(a));
    AddOfSum(b, c, Value(b));
    CmpIsOrder(a, b);
    CmpIsOrder(Add(a, c), Add(b, c));
  }

  lemma ScaledOrder(x: real, y: real, z: real)
    requires z > 0.0
    ensures x * z < y * z <==> x < y
    ensures x * z > y * z <==> x > y
  {
    RealProduct(x, -y, z);
    SignOfProduct(x - y, z, 1.0);
  }

  function Sign(x: real, y: real): int {
    if x < y then -1 else if x > y then 1 else 0
  }

  lemma CmpOfValues(u: Rat, v: Rat, x: real, y: real)
    requires Canonical(u) && Canonical(v) && Value(u) == x && Value(v) == y
    ensures Cmp(u, v) == Sign(x, y)
  {
    CmpIsOrder(u, v);
  }

  lemma CmpOfProducts(a: Rat, b: Rat, c: Rat, x: real, y: real, z: real)
    requires Canonical(a) && Canonical(b) && Canonical(c)
    requires Value(a) == x && Value(b) == y && Value(c) == z
    ensures Canonical(Mul(a, c)) && Canonical(Mul(b, c)) && Cmp(Mul(a, c), Mul(b, c)) == Sign(x * z, y * z)
  {
    MulOfProduct(a, c, x, z);
    MulOfProduct(b, c, y, z);
    CmpOfValues(Mul(a, c), Mul(b, c), x * z, y * z);
  }

  lemma PositiveValue(c: Rat)
    requires Canonical(c) && Cmp(c, ZERO) > 0
    ensures Value(c) > 0.0
  {
    ZeroAndOne();
    CmpOfValues(c, ZERO, Value(c), 0.0);
  }

  lemma SignScales(x: real, y: real, z: real)
    requires z > 0.0
    ensures Sign(x * z, y * z) == Sign(x, y)
  {
    ScaledOrder(x, y, z);
  }

  lemma CmpRespectsMul(a: Rat, b: Rat, c: Rat)
    requires Canonical(a) && Canonical(b) && Canonical(c) && Cmp(c, ZERO) > 0
    ensures Canonical(Mul(a, c)) && Canonical(Mul(b, c)) && Cmp(Mul(a, c), Mul(b, c)) == Cmp(a, b)
  {
    PositiveValue(c);
    CmpOfValues(a, b, Value(a), Value(b));
    CmpOfProducts(a, b, c, Value(a), Value(b), Value(c));
    SignScales(Value(a), Value(b), Value(c));
  }

  // ---- output -----------------------------------------------------------------------------------------------------

  /** The scaled magnitude `toNumber` splits into a whole and a fractional part. */
  function Scaled(r: Rat): int
    requires r.d > 0
  {
    (Abs(r.n) * SCALE * 2 + r.d) / (2 * r.d)
  }

  /** The scaled integer is within half a unit of the 18th decimal, halves rounding away from zero. */
  lemma ScaledIsNearest(r: Rat)
    requires Canonical(r)
    ensures -r.d <= 2 * (Abs(r.n) * SCALE - Scaled(r) * r.d) < r.d
  {
    var x := Abs(r.n) * SCALE * 2 + r.d;
    var s := Scaled(r);
    assert x == s * (2 * r.d) + x % (2 * r.d);
    assert s * (2 * r.d) == 2 * (s * r.d);
  }

  // ---- sums -------------------------------------------------------------------------------------------------------

  predicate AllCanonical(values: seq<Rat>) {
    forall i :: 0 <= i < |values| ==> Canonical(values[i])
  }

  function ValueSum(values: seq<Rat>): real
    requires AllCanonical(values)
  {
    if values == [] then 0.0 else ValueSum(values[..|values| - 1]) + Value(values[|values| - 1])
  }

  method SumRats(values: seq<Rat>) returns (t: Rat)
    requires AllCanonical(values)
    ensures Canonical(t) && Value(t) == ValueSum(values)
  {
    t := ZERO;
    ZeroAndOne();
    for n := 0 to |values|
      invariant Canonical(t) && Value(t) == ValueSum(values[..n])
    {
      assert values[..n + 1][..n] == values[..n];
      AddValue(t, values[n]);
      t := Add(t, values[n]);
    }
    assert values[..|values|] == values;
  }
}
