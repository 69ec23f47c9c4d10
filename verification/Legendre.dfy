/**
 The table of derivatives of the Legendre polynomials that the World Magnetic Model is evaluated
 with: its closed form against Rodrigues' formula, and the relation between its rows and columns.
 */
module Legendre {
  import opened Polynomials

  /** x^2 - 1 */
  const BASE: Poly := [-1.0, 0.0, 1.0]

  /** (x^2 - 1)^l */
  function BasePower(l: nat): Poly {
    if l == 0 then [1.0] else Times(BASE, BasePower(l - 1))
  }

  function Factorial(n: nat): real {
    Falling(n as real, n)
  }

  function Norm(l: nat): (r: real)
    ensures r > 0.0
  {
    FallingPositive(l, l);
    var p, f := Pow(2.0, l), Factorial(l);
    PositiveProduct(p, f);
    p * f
  }

  /** Rodrigues: the (l + m)-th derivative of (x^2 - 1)^l over 2^l l!. */
  function Rodrigues(l: nat, m: nat, x: real): real {
    DerivAt(BasePower(l), l + m, x) / Norm(l)
  }

  lemma PositiveProduct(a: real, b: real)
    requires a > 0.0 && b > 0.0
    ensures a * b > 0.0
  {
  }

  // ---------- (x^2 - 1) as a factor ----------

  lemma BaseUnfold(q: Poly)
    ensures Times(BASE, q) == Add(Scale(-1.0, q), TimesX(Times([0.0, 1.0], q)))
    ensures Times([0.0, 1.0], q) == Add(Scale(0.0, q), TimesX(Times([1.0], q)))
    ensures Times([1.0], q) == Add(Scale(1.0, q), TimesX([]))
  {
    hide Add, Scale, TimesX;
    assert BASE[1..] == [0.0, 1.0];
    assert [0.0, 1.0][1..] == [1.0];
    var e: Poly := [1.0][1..];
    assert e == [] && Times(e, q) == [];
  }

  lemma BaseCoef(q: Poly, i: int)
    ensures Coef(Times(BASE, q), i) == Coef(q, i - 2) - Coef(q, i)
    ensures q != [] ==> |Times(BASE, q)| == |q| + 2
  {
    BaseUnfold(q);
    hide *;
    var t, u := Times([0.0, 1.0], q), Times([1.0], q);
    assert Coef(Times(BASE, q), i) == Coef(Scale(-1.0, q), i) + Coef(TimesX(t), i);
    assert Coef(t, i - 1) == Coef(Scale(0.0, q), i - 1) + Coef(TimesX(u), i - 1);
    assert Coef(u, i - 2) == Coef(Scale(1.0, q), i - 2) + Coef(TimesX([]), i - 2);
    EmptyCoef(i - 3);
  }

  lemma EmptyCoef(i: int)
    ensures Coef([], i) == 0.0
  {
  }

  /** Leibniz's rule for a factor x^2 - 1. */
  lemma DerivAtBase(q: Poly, n: nat, x: real, k: real, a: real, b: real, c: real)
    requires k == n as real + 1.0
    requires a == DerivAt(q, n + 1, x) && b == DerivAt(q, n, x) && c == DerivAt(q, n - 1, x)
    ensures DerivAt(Times(BASE, q), n + 1, x) == (x * x - 1.0) * a + 2.0 * k * (x * b) + k * ((k - 1.0) * c)
  {
    BaseUnfold(q);
    hide *;
    DerivAtFactor(-1.0, q, Times([0.0, 1.0], q), n + 1, x);
    LinearFactor(q, n + 1, x);
    LinearFactor(q, n, x);
    LeibnizSquare(x, k, a, b, c);
  }

  lemma DerivAtFactor(k: real, q: Poly, t: Poly, n: nat, x: real)
    ensures DerivAt(Add(Scale(k, q), TimesX(t)), n, x)
         == k * DerivAt(q, n, x) + (x * DerivAt(t, n, x) + (n as real) * DerivAt(t, n - 1, x))
  {
    hide *;
    DerivAtAdd(Scale(k, q), TimesX(t), n, x);
    DerivAtScale(k, q, n, x);
    DerivAtTimesX(t, n, x);
  }

  /** The factor x, as the product computes it. */
  lemma LinearFactor(q: Poly, n: nat, x: real)
    ensures DerivAt(Times([0.0, 1.0], q), n, x)
         == x * DerivAt(q, n, x) + (n as real) * DerivAt(q, n - 1, x)
  {
    BaseUnfold(q);
    var u := Times([1.0], q);
    hide *;
    DerivAtFactor(0.0, q, u, n, x);
    ConstantFactor(q, n, x);
    ConstantFactor(q, n - 1, x);
  }

  lemma ConstantFactor(q: Poly, n: int, x: real)
    ensures DerivAt(Times([1.0], q), n, x) == DerivAt(q, n, x)
  {
    BaseUnfold(q);
    hide *;
    if n >= 0 {
      DerivAtFactor(1.0, q, [], n, x);
      DerivAtEmpty(n, x);
      DerivAtEmpty(n - 1, x);
    } else {
      NoDerivative(q, n, x);
      NoDerivative(Times([1.0], q), n, x);
    }
  }

  lemma NoDerivative(p: Poly, n: int, x: real)
    requires n < 0
    ensures DerivAt(p, n, x) == 0.0
  {
  }

  lemma LeibnizSquare(x: real, k: real, a: real, b: real, c: real)
    ensures -1.0 * a + (x * (x * a + k * b) + k * (x * b + (k - 1.0) * c))
         == (x * x - 1.0) * a + 2.0 * k * (x * b) + k * ((k - 1.0) * c)
  {
  }

  // ---------- the derivative of a power of x^2 - 1 ----------

  lemma BasePowerLength(l: nat)
    ensures |BasePower(l)| == 2 * l + 1
  {
    if l > 0 {
      BasePowerLength(l - 1);
      BaseCoef(BasePower(l - 1), 0);
    }
  }

  lemma BasePowerCoef(l: nat, i: int)
    ensures Coef(BasePower(l + 1), i) == Coef(BasePower(l), i - 2) - Coef(BasePower(l), i)
    ensures Coef(BasePower(0), i) == if i == 0 then 1.0 else 0.0
  {
    BaseCoef(BasePower(l), i);
  }

  lemma {:induction false} ChainCoef(n: nat, i: int, r: real, v: real, w: real)
    requires r == i as real && v == Coef(BasePower(n + 1), i) && w == Coef(BasePower(n), i - 2)
    ensures r * v == 2.0 * (n as real + 1.0) * w
    decreases n
  {
    hide *;
    BasePowerCoef(n, i);
    if n == 0 {
      BasePowerCoef(0, i - 2);
    } else {
      BasePowerCoef(n - 1, i - 2);
      var b, c, d := Coef(BasePower(n), i), Coef(BasePower(n - 1), i - 4), Coef(BasePower(n - 1), i - 2);
      ChainCoef(n - 1, i - 2, r - 2.0, w, c);
      ChainCoef(n - 1, i, r, b, d);
      ChainStep(r, n as real, v, w, b, c, d);
    }
  }

  lemma ChainStep(r: real, n: real, v: real, w: real, b: real, c: real, d: real)
    requires v == w - b && w == c - d
    requires (r - 2.0) * w == 2.0 * (n - 1.0 + 1.0) * c && r * b == 2.0 * (n - 1.0 + 1.0) * d
    ensures r * v == 2.0 * (n + 1.0) * w
  {
    assert r * v == r * w - r * b;
    assert 2.0 * n * w == 2.0 * n * c - 2.0 * n * d;
  }

  /** ((x^2 - 1)^(n+1))' == 2 (n + 1) x (x^2 - 1)^n */
  lemma ChainRule(n: nat)
    ensures Deriv(BasePower(n + 1)) == Scale(2.0 * (n as real + 1.0), TimesX(BasePower(n)))
  {
    BasePowerLength(n);
    BasePowerLength(n + 1);
    hide *;
    var f := 2.0 * (n as real + 1.0);
    var s, t := Deriv(BasePower(n + 1)), Scale(f, TimesX(BasePower(n)));
    forall i: nat ensures Coef(s, i) == Coef(t, i) {
      ChainRuleCoef(n, i, f);
    }
    SamePoly(s, t);
  }

  lemma SamePoly(s: Poly, t: Poly)
    requires |s| == |t| && forall i: nat :: Coef(s, i) == Coef(t, i)
    ensures s == t
  {
    forall i | 0 <= i < |s| ensures s[i] == t[i] {
      assert Coef(s, i) == Coef(t, i);
    }
  }

  lemma ChainRuleCoef(n: nat, i: nat, f: real)
    requires f == 2.0 * (n as real + 1.0)
    ensures Coef(Deriv(BasePower(n + 1)), i) == Coef(Scale(f, TimesX(BasePower(n))), i)
  {
    hide *;
    var p := BasePower(n + 1);
    var a, v, w := (i + 1) as real, Coef(p, i + 1), Coef(BasePower(n), i - 1);
    DerivCoef(p, i, i + 1, a, v);
    ChainCoef(n, i + 1, a, v, w);
  }

  lemma DerivAtChain(n: nat, k: nat, x: real, r: real, b: real, c: real)
    requires r == k as real && b == DerivAt(BasePower(n), k, x) && c == DerivAt(BasePower(n), k - 1, x)
    ensures DerivAt(BasePower(n + 1), k + 1, x) == 2.0 * (n as real + 1.0) * (x * b + r * c)
  {
    hide *;
    var f := 2.0 * (n as real + 1.0);
    ChainRule(n);
    DerivAtNext(BasePower(n + 1), k, x);
    DerivAtScale(f, TimesX(BasePower(n)), k, x);
    DerivAtTimesX(BasePower(n), k, x);
  }

  // ---------- the relation between the rows and columns of the table ----------

  lemma NormNext(n: nat, g: real, d: real)
    requires g == 2.0 * (n as real + 1.0) && d == Norm(n)
    ensures Norm(n + 1) == g * d
  {
    var p, f, a := Pow(2.0, n), Factorial(n), (n + 1) as real;
    FallingFirst(a, a - 1.0, n + 1, f);
    assert Pow(2.0, n + 1) == 2.0 * p && Factorial(n + 1) == a * f;
    hide *;
    NormIs(n, p, f);
    NormIs(n + 1, Pow(2.0, n + 1), a * f);
    NormStep(p, f, a, g, d);
  }

  lemma NormIs(n: nat, p: real, f: real)
    requires p == Pow(2.0, n) && f == Factorial(n)
    ensures Norm(n) == p * f
  {
  }

  lemma NormStep(p: real, f: real, a: real, g: real, d: real)
    requires g == 2.0 * a && d == p * f
    ensures (2.0 * p) * (a * f) == g * d
  {
  }

  /**
   The recurrence behind equation 16 of the World Magnetic Model report, for every degree and
   order: (1 - x^2) T(n, m+1) == (n + m + 1) x T(n, m) - (n - m + 1) T(n+1, m).
   */
  lemma RowsAndColumns(n: nat, m: nat, x: real)
    ensures (1.0 - x * x) * Rodrigues(n, m + 1, x)
         == ((n + m + 1) as real) * (x * Rodrigues(n, m, x)) - ((n - m + 1) as real) * Rodrigues(n + 1, m, x)
  {
    hide *;
    var k, f, g, y := (n + m + 1) as real, 2.0 * (n as real + 1.0), (n - m + 1) as real, 1.0 - x * x;
    Relation(n, m, x, k, f, g, y, Rodrigues(n, m, x), Rodrigues(n, m + 1, x), Rodrigues(n + 1, m, x));
    Same(y, 1.0 - x * x, Rodrigues(n, m + 1, x));
    Same(k, (n + m + 1) as real, x * Rodrigues(n, m, x));
    Same(g, (n - m + 1) as real, Rodrigues(n + 1, m, x));
  }

  lemma Relation(n: nat, m: nat, x: real, k: real, f: real, g: real, y: real, t: real, t1: real, t2: real)
    requires k == (n + m + 1) as real && f == 2.0 * (n as real + 1.0) && g == f - k && y == 1.0 - x * x
    requires t == Rodrigues(n, m, x) && t1 == Rodrigues(n, m + 1, x) && t2 == Rodrigues(n + 1, m, x)
    ensures y * t1 == k * (x * t) - g * t2
  {
    hide *;
    var p, d := BasePower(n), Norm(n);
    var a, b := DerivAt(p, n + m + 1, x), DerivAt(p, n + m, x);
    var e := DerivAt(BasePower(n + 1), n + m + 1, x);
    DerivativeRelation(n, n + m, x, k, f, g, y, a, b, e);
    NormNext(n, f, d);
    RodriguesIs(n, m, x, b, d, t);
    RodriguesIs(n, m + 1, x, a, d, t1);
    RodriguesIs(n + 1, m, x, e, Norm(n + 1), t2);
    Normalise(x, f, g, k, y, d, Norm(n + 1), t, t1, t2, a, b, e);
  }

  /** The two ways of taking k + 1 derivatives of (x^2 - 1)^(n+1), combined. */
  lemma DerivativeRelation(n: nat, i: nat, x: real, k: real, f: real, g: real, y: real, a: real, b: real, e: real)
    requires k == i as real + 1.0 && f == 2.0 * (n as real + 1.0) && g == f - k && y == 1.0 - x * x
    requires a == DerivAt(BasePower(n), i + 1, x) && b == DerivAt(BasePower(n), i, x)
    requires e == DerivAt(BasePower(n + 1), i + 1, x)
    ensures f * (y * a) == f * (k * (x * b)) - g * e
  {
    hide *;
    var c := DerivAt(BasePower(n), i - 1, x);
    BasePowerNext(n);
    DerivAtBase(BasePower(n), i, x, k, a, b, c);
    DerivAtChain(n, i, x, k - 1.0, b, c);
    RecurrenceScaled(x, f, g, k, a, b, c, e, y);
  }

  lemma Same(a: real, b: real, t: real)
    requires a == b
    ensures a * t == b * t
  {
  }

  lemma BasePowerNext(n: nat)
    ensures BasePower(n + 1) == Times(BASE, BasePower(n))
  {
  }

  lemma RodriguesIs(n: nat, m: nat, x: real, a: real, d: real, t: real)
    requires a == DerivAt(BasePower(n), n + m, x) && d == Norm(n) && t == Rodrigues(n, m, x)
    ensures d > 0.0 && t * d == a
  {
    hide Norm, DerivAt, BasePower;
    Quotient(a, d);
  }

  lemma Quotient(a: real, d: real)
    requires d != 0.0
    ensures (a / d) * d == a
  {
  }

  lemma RecurrenceScaled(x: real, f: real, g: real, k: real, a: real, b: real, c: real, e: real, y: real)
    requires y == 1.0 - x * x && g == f - k
    requires e == (x * x - 1.0) * a + 2.0 * k * (x * b) + k * ((k - 1.0) * c)
    requires e == f * (x * b + (k - 1.0) * c)
    ensures f * (y * a) == f * (k * (x * b)) - g * e
  {
    var u := y * a;
    assert (x * x - 1.0) * a == -u;
    ScaledStep(f, k, x * b, (k - 1.0) * c, u, e);
  }

  lemma ScaledStep(f: real, g: real, y: real, z: real, u: real, e: real)
    requires u == 2.0 * g * y + g * z - e && e == f * (y + z)
    ensures f * u == f * (g * y) - (f - g) * e
  {
    assert f * u == f * (2.0 * g * y + g * z - e);
    assert g * e == g * (f * (y + z));
    assert f * (2.0 * g * y + g * z) == f * (g * y) + g * (f * (y + z));
  }

  /** Dividing the relation between derivatives by the norms of the three entries. */
  lemma Normalise(x: real, f: real, g: real, k: real, y: real, d: real, h: real, t: real, t1: real, t2: real,
                  a: real, b: real, e: real)
    requires f > 0.0 && d > 0.0 && h == f * d && t * d == b && t1 * d == a && t2 * h == e
    requires f * (y * a) == f * (k * (x * b)) - g * e
    ensures y * t1 == k * (x * t) - g * t2
  {
    PositiveProduct(f, d);
    Rescale(f, d, h, 1.0, y, t1, a);
    Rescale(f, d, h, k, x, t, b);
    var l, r, q := y * t1, k * (x * t), g * t2;
    assert g * e == h * q;
    CancelFactor(h, l, r, q, f * (y * a), f * (k * (x * b)), g * e);
  }

  lemma Rescale(f: real, d: real, h: real, k: real, y: real, t: real, a: real)
    requires h == f * d && t * d == a
    ensures f * (k * (y * a)) == h * (k * (y * t))
    ensures k == 1.0 ==> f * (y * a) == h * (y * t)
  {
    assert y * a == (y * t) * d;
  }

  lemma CancelFactor(h: real, l: real, r: real, q: real, u: real, v: real, w: real)
    requires h > 0.0 && u == h * l && v == h * r && w == h * q && u == v - w
    ensures l == r - q
  {
    Cancel(h, l, r - q);
  }

  lemma Cancel(h: real, a: real, b: real)
    requires h != 0.0 && h * a == h * b
    ensures a == b
  {
  }

  // ---------- the closed form ----------

  /** Pascal's triangle. */
  function Choose(n: nat, k: nat): nat
    decreases n
  {
    if k == 0 then 1 else if n == 0 then 0 else Choose(n - 1, k - 1) + Choose(n - 1, k)
  }

  lemma {:induction false} ChooseAll(n: nat, k: nat)
    requires k >= n
    ensures Choose(n, k) == if k == n then 1 else 0
    decreases n
  {
    if n > 0 {
      ChooseAll(n - 1, k - 1);
      ChooseAll(n - 1, k);
    }
  }

  lemma {:induction false} ChooseSymmetric(n: nat, k: nat)
    requires k <= n
    ensures Choose(n, k) == Choose(n, n - k)
    decreases n
  {
    ChooseAll(n, n);
    if 0 < k < n {
      ChooseSymmetric(n - 1, k);
      ChooseSymmetric(n - 1, k - 1);
    }
  }

  lemma ChooseUnfold(n: nat, k: nat)
    requires n > 0 && k > 0
    ensures Choose(n, k) as real == Choose(n - 1, k - 1) as real + Choose(n - 1, k) as real
  {
  }

  /** The falling factorial counts the ordered choices. */
  lemma {:induction false} FallingIsChoose(n: nat, k: nat, c: real, f: real)
    requires c == Choose(n, k) as real && f == Factorial(k)
    ensures Falling(n as real, k) == c * f
    decreases n
  {
    hide *;
    if k == 0 || n == 0 {
      NoneToChoose(n, k, c, f);
    } else {
      var a, b, e := n as real, Falling((n - 1) as real, k - 1), Factorial(k - 1);
      var r, t := Choose(n - 1, k - 1) as real, Choose(n - 1, k) as real;
      ChooseUnfold(n, k);
      FallingIsChoose(n - 1, k - 1, r, e);
      FallingIsChoose(n - 1, k, t, f);
      FallingFirst(a, a - 1.0, k, b);
      FactorialNext(k, e, f);
      FallingUnfold(a - 1.0, k - 1, a - k as real);
      PascalStep(a, k as real, b, e, f, r, t, c, Falling(a, k));
    }
  }

  lemma FactorialNext(k: nat, e: real, f: real)
    requires k > 0 && e == Factorial(k - 1) && f == Factorial(k)
    ensures f == (k as real) * e
  {
    hide Falling;
    FallingFirst(k as real, (k - 1) as real, k, e);
  }

  lemma NoneToChoose(n: nat, k: nat, c: real, f: real)
    requires (k == 0 || n == 0) && c == Choose(n, k) as real && f == Factorial(k)
    ensures Falling(n as real, k) == c * f
  {
    if k > 0 {
      FallingFromZero(k);
    }
  }

  lemma {:induction false} FallingFromZero(k: nat)
    requires k > 0
    ensures Falling(0.0, k) == 0.0
  {
    if k > 1 {
      FallingFromZero(k - 1);
    } else {
      assert Falling(0.0, 1) == Falling(0.0, 0) * (0.0 - 0.0);
    }
  }

  lemma PascalStep(a: real, k: real, b: real, e: real, f: real, r: real, s: real, c: real, t: real)
    requires b == r * e && b * (a - k) == s * f && t == a * b && f == k * e && c == r + s
    ensures t == c * f
  {
    assert r * f == k * b;
    assert t == b * (a - k) + k * b;
  }

  function Alternating(l: nat, k: nat): real {
    if (k + l) % 2 == 0 then Choose(l, k) as real else -(Choose(l, k) as real)
  }

  lemma AlternatingNext(l: nat, k: nat)
    requires l > 0
    ensures Alternating(l, k) == (if k > 0 then Alternating(l - 1, k - 1) else 0.0) - Alternating(l - 1, k)
  {
  }

  /** The coefficients of (x^2 - 1)^l: the odd ones vanish, the even ones alternate. */
  lemma {:induction false} BasePowerClosed(l: nat, i: nat, k: nat)
    requires k == i / 2
    ensures Coef(BasePower(l), i) == if i % 2 == 0 then Alternating(l, k) else 0.0
    decreases l
  {
    hide Alternating, BasePower, Coef;
    BasePowerCoef(0, i);
    if l == 0 {
      ChooseAll(0, k);
      AlternatingZero(k);
    } else {
      BasePowerCoef(l - 1, i);
      AlternatingNext(l, k);
      BasePowerClosed(l - 1, i, k);
      if i >= 2 {
        BasePowerClosed(l - 1, i - 2, k - 1);
      } else {
        NegativeCoef(BasePower(l - 1), i - 2);
      }
    }
  }

  lemma AlternatingZero(k: nat)
    ensures Alternating(0, k) == if k == 0 then 1.0 else 0.0
  {
  }

  lemma NegativeCoef(p: Poly, i: int)
    requires i < 0
    ensures Coef(p, i) == 0.0
  {
  }

  /** What the closed form adds for k, with the powers of two and l! still to be divided out. */
  function Term(l: nat, m: nat, k: nat, x: real): real
    requires l + m <= 2 * k
  {
    Alternating(l, k) * (Choose(2 * k, l) as real) * Falling((2 * k - l) as real, m) * Pow(x, 2 * k - l - m)
  }

  /** Each term of the closed form is the monomial that l + m derivatives make of x^(2k). */
  lemma TermIsMonomial(l: nat, m: nat, k: nat, x: real, i: nat, f: real)
    requires l + m + i == 2 * k && f == Factorial(l)
    ensures Coef(DerivN(BasePower(l), l + m), i) * Pow(x, i) == Term(l, m, k, x) * f
    ensures Coef(DerivN(BasePower(l), l + m), i + 1) == 0.0
  {
    hide *;
    var p := BasePower(l);
    var a, c, g, y := Alternating(l, k), Choose(2 * k, l) as real, Falling((2 * k - l) as real, m), Pow(x, i);
    var h := Falling((2 * k) as real, l + m);
    BasePowerClosed(l, 2 * k, k);
    BasePowerClosed(l, 2 * k + 1, k);
    DerivNCoef(p, l + m, i);
    DerivNCoef(p, l + m, i + 1);
    LoweredIs(p, l + m, i, 2 * k, h, a);
    LoweredIs(p, l + m, i + 1, 2 * k + 1, Falling((2 * k + 1) as real, l + m), 0.0);
    FallingSplit((2 * k) as real, (2 * k - l) as real, l, m);
    FallingIsChoose(2 * k, l, c, f);
    TermIs(l, m, k, x, a, c, g, y);
    TermStep(h, a, c, f, g, y, Falling((2 * k) as real, l), Coef(DerivN(p, l + m), i));
  }

  lemma TermIs(l: nat, m: nat, k: nat, x: real, a: real, c: real, g: real, y: real)
    requires l + m <= 2 * k
    requires a == Alternating(l, k) && c == Choose(2 * k, l) as real
    requires g == Falling((2 * k - l) as real, m) && y == Pow(x, 2 * k - l - m)
    ensures Term(l, m, k, x) == a * c * g * y
  {
    hide Alternating, Choose, Falling, Pow;
  }

  lemma TermStep(h: real, a: real, c: real, f: real, g: real, y: real, e: real, d: real)
    requires h == e * g && e == c * f && d == h * a
    ensures d * y == (a * c * g * y) * f
  {
  }

  lemma SumStart(l: nat, m: nat, x: real, i: nat)
    requires l + m + i == 2 * ((l + m + 1) / 2)
    ensures PartialSum(DerivN(BasePower(l), l + m), x, i) == 0.0
  {
    hide *;
    var p := BasePower(l);
    var q := DerivN(p, l + m);
    PartialSumUnfold(q, x, 0, Coef(q, 0), Pow(x, 0));
    if i == 1 {
      DerivNCoef(p, l + m, 0);
      BasePowerClosed(l, l + m, (l + m) / 2);
      LoweredIs(p, l + m, 0, l + m, Falling((l + m) as real, l + m), 0.0);
    }
  }

  lemma SumStep(l: nat, m: nat, k: nat, x: real, i: nat, s: real, f: real)
    requires l + m + i == 2 * k && f == Factorial(l) && s * f == PartialSum(DerivN(BasePower(l), l + m), x, i)
    ensures (s + Term(l, m, k, x)) * f == PartialSum(DerivN(BasePower(l), l + m), x, i + 2)
  {
    hide *;
    var q, t := DerivN(BasePower(l), l + m), Term(l, m, k, x);
    TermIsMonomial(l, m, k, x, i, f);
    PartialSumUnfold(q, x, i, Coef(q, i), Pow(x, i));
    PartialSumUnfold(q, x, i + 1, 0.0, Pow(x, i + 1));
    Distribute(s, t, s + t, f);
  }

  /** The finished sum over the power of two is the entry of Rodrigues' formula. */
  lemma SumEnd(l: nat, m: nat, x: real, s: real, f: real)
    requires m <= l && f == Factorial(l) && s * f == PartialSum(DerivN(BasePower(l), l + m), x, l - m + 2)
    ensures Pow(2.0, l) > 0.0 && s / Pow(2.0, l) == Rodrigues(l, m, x)
  {
    hide *;
    var p, d, t := Pow(2.0, l), Norm(l), Rodrigues(l, m, x);
    BasePowerLength(l);
    EvalIsSum(DerivN(BasePower(l), l + m), x, l - m + 2);
    DerivAtIs(BasePower(l), l + m, x);
    RodriguesIs(l, m, x, s * f, d, t);
    NormIs(l, p, f);
    Divided(s, f, p, d, t);
  }

  lemma DerivAtIs(p: Poly, n: nat, x: real)
    ensures DerivAt(p, n, x) == Eval(DerivN(p, n), x)
  {
  }

  lemma Divided(s: real, f: real, p: real, d: real, t: real)
    requires p > 0.0 && d > 0.0 && d == p * f && t * d == s * f
    ensures s / p == t
  {
    var u := s / p;
    assert u * p == s;
    assert u * d == s * f;
    Cancel(d, u, t);
  }

  lemma Vanishes(p: Poly, n: nat, x: real)
    requires |p| <= n
    ensures DerivAt(p, n, x) == 0.0
  {
    hide DerivN;
    assert DerivN(p, n) == [];
  }

  /** Beyond the diagonal every derivative of the polynomial has vanished. */
  lemma AboveDiagonal(l: nat, m: nat, x: real)
    requires m > l
    ensures Rodrigues(l, m, x) == 0.0
  {
    hide *;
    BasePowerLength(l);
    Vanishes(BasePower(l), l + m, x);
    RodriguesIs(l, m, x, 0.0, Norm(l), Rodrigues(l, m, x));
    Cancel(Norm(l), Rodrigues(l, m, x), 0.0);
  }

  lemma FirstRow(x: real)
    ensures Rodrigues(0, 0, x) == 1.0
  {
    var e: Poly := [1.0];
    assert e[1..] == [] && Eval(e, x) == 1.0 + x * Eval([], x);
    NormIs(0, 1.0, 1.0);
  }

  // ---------- fixed points ----------

  lemma FirstEntry(x: real)
    ensures Rodrigues(0, 0, x) == 1.0
  {
    assert Norm(0) == 1.0;
    var p := BasePower(0);
    assert p == [1.0] && p[1..] == [] && DerivN(p, 0) == p;
    assert Eval(p, x) == 1.0 + x * Eval(p[1..], x);
  }

  /** Every Legendre polynomial is one at one. */
  lemma {:induction false} OneAtOne(l: nat)
    ensures Rodrigues(l, 0, 1.0) == 1.0
  {
    hide Rodrigues;
    if l == 0 {
      FirstEntry(1.0);
    } else {
      var n := l - 1;
      OneAtOne(n);
      RowsAndColumns(n, 0, 1.0);
      OneStep(l as real, Rodrigues(n, 0, 1.0), Rodrigues(n, 1, 1.0), Rodrigues(l, 0, 1.0));
    }
  }

  lemma OneStep(k: real, t: real, t1: real, t2: real)
    requires k >= 1.0 && t == 1.0 && (1.0 - 1.0 * 1.0) * t1 == k * (1.0 * t) - k * t2
    ensures t2 == 1.0
  {
    Cancel(k, t2, 1.0);
  }
}
