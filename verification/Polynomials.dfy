/**
 Polynomials in one variable as their coefficient sequences, lowest degree first, with formal
 differentiation.
 */
module Polynomials {

  type Poly = seq<real>

  function Coef(p: Poly, i: int): real {
    if 0 <= i < |p| then p[i] else 0.0
  }

  function Eval(p: Poly, x: real): real {
    if p == [] then 0.0 else p[0] + x * Eval(p[1..], x)
  }

  function Add(p: Poly, q: Poly): (r: Poly)
    ensures |r| == if |p| >= |q| then |p| else |q|
    ensures forall i :: Coef(r, i) == Coef(p, i) + Coef(q, i)
  {
    var n := if |p| >= |q| then |p| else |q|;
    seq(n, i requires 0 <= i < n => Coef(p, i) + Coef(q, i))
  }

  function Scale(k: real, p: Poly): (r: Poly)
    ensures |r| == |p| && forall i :: Coef(r, i) == k * Coef(p, i)
  {
    seq(|p|, i requires 0 <= i < |p| => k * p[i])
  }

  /** x * p */
  function TimesX(p: Poly): (r: Poly)
    ensures |r| == |p| + 1 && forall i :: Coef(r, i) == Coef(p, i - 1)
  {
    [0.0] + p
  }

  function Times(p: Poly, q: Poly): Poly {
    if p == [] then [] else Add(Scale(p[0], q), TimesX(Times(p[1..], q)))
  }

  function Deriv(p: Poly): (r: Poly)
    ensures |r| == if p == [] then 0 else |p| - 1
    ensures forall i :: i >= 0 ==> Coef(r, i) == ((i + 1) as real) * Coef(p, i + 1)
  {
    if p == [] then [] else seq(|p| - 1, i requires 0 <= i < |p| - 1 => ((i + 1) as real) * p[i + 1])
  }

  function DerivN(p: Poly, n: nat): (r: Poly)
    ensures |r| == if |p| >= n then |p| - n else 0
    decreases n
  {
    if n == 0 then p else DerivN(Deriv(p), n - 1)
  }

  function Pow(x: real, n: nat): (r: real)
    ensures x > 0.0 ==> r > 0.0
  {
    if n == 0 then 1.0 else x * Pow(x, n - 1)
  }

  /** x * (x - 1) * ... , m factors */
  function Falling(x: real, m: nat): real {
    if m == 0 then 1.0 else Falling(x, m - 1) * (x - (m - 1) as real)
  }

  /** The terms of degree below n. */
  function PartialSum(p: Poly, x: real, n: nat): real {
    if n == 0 then 0.0 else PartialSum(p, x, n - 1) + Coef(p, n - 1) * Pow(x, n - 1)
  }

  // ---------- evaluation ----------

  lemma PartialSumUnfold(p: Poly, x: real, n: nat, a: real, y: real)
    requires a == Coef(p, n) && y == Pow(x, n)
    ensures PartialSum(p, x, n + 1) == PartialSum(p, x, n) + a * y
    ensures PartialSum(p, x, 0) == 0.0 && Pow(x, 0) == 1.0 && Pow(x, n + 1) == x * y
  {
    hide Coef;
  }

  lemma {:induction false} PartialSumTail(p: Poly, x: real, n: nat, s: real)
    requires p != [] && s == PartialSum(p[1..], x, n)
    ensures PartialSum(p, x, n + 1) == p[0] + x * s
    decreases n
  {
    hide PartialSum, Pow;
    var a, y := Coef(p, n), Pow(x, n);
    PartialSumUnfold(p, x, n, a, y);
    if n == 0 {
      PartialSumUnfold(p[1..], x, 0, Coef(p[1..], 0), y);
    } else {
      var z, t := Pow(x, n - 1), PartialSum(p[1..], x, n - 1);
      PartialSumUnfold(p[1..], x, n - 1, a, z);
      PartialSumTail(p, x, n - 1, t);
      Factor(x, t, a, z, y, s);
    }
  }

  lemma Factor(x: real, t: real, a: real, z: real, y: real, s: real)
    requires y == x * z && s == t + a * z
    ensures x * t + a * y == x * s
  {
  }

  /** Horner's rule computes the sum of the terms. */
  lemma {:induction false} EvalIsSum(p: Poly, x: real, n: nat)
    requires n >= |p|
    ensures Eval(p, x) == PartialSum(p, x, n)
    decreases |p|, n
  {
    if n > |p| {
      EvalIsSum(p, x, n - 1);
      assert Coef(p, n - 1) == 0.0;
    } else if p != [] {
      EvalIsSum(p[1..], x, n - 1);
      PartialSumTail(p, x, n - 1, PartialSum(p[1..], x, n - 1));
    }
  }

  lemma {:induction false} EvalAdd(p: Poly, q: Poly, x: real)
    ensures Eval(Add(p, q), x) == Eval(p, x) + Eval(q, x)
  {
    var n := |Add(p, q)|;
    EvalIsSum(Add(p, q), x, n);
    EvalIsSum(p, x, n);
    EvalIsSum(q, x, n);
    SumAdd(p, q, x, n);
  }

  lemma {:induction false} SumAdd(p: Poly, q: Poly, x: real, n: nat)
    ensures PartialSum(Add(p, q), x, n) == PartialSum(p, x, n) + PartialSum(q, x, n)
  {
    hide Add, Coef, Pow;
    if n > 0 {
      SumAdd(p, q, x, n - 1);
      Distribute(Coef(p, n - 1), Coef(q, n - 1), Coef(Add(p, q), n - 1), Pow(x, n - 1));
    }
  }

  lemma Distribute(a: real, b: real, s: real, y: real)
    requires s == a + b
    ensures s * y == a * y + b * y
  {
  }

  lemma ScaleTail(k: real, p: Poly)
    requires p != []
    ensures Scale(k, p)[0] == k * p[0] && Scale(k, p)[1..] == Scale(k, p[1..])
  {
    forall i | 0 <= i < |p| - 1 ensures Scale(k, p)[1..][i] == Scale(k, p[1..])[i] {
      assert Scale(k, p)[i + 1] == k * p[i + 1];
    }
  }

  lemma ScaleStep(k: real, a: real, x: real, e: real)
    ensures k * a + x * (k * e) == k * (a + x * e)
  {
  }

  lemma {:induction false} EvalScale(k: real, p: Poly, x: real)
    ensures Eval(Scale(k, p), x) == k * Eval(p, x)
  {
    if p != [] {
      ScaleTail(k, p);
      hide Scale;
      EvalScale(k, p[1..], x);
      ScaleStep(k, p[0], x, Eval(p[1..], x));
    }
  }

  lemma EvalTimesX(p: Poly, x: real)
    ensures Eval(TimesX(p), x) == x * Eval(p, x)
  {
    assert TimesX(p)[1..] == p;
  }

  /** The product of polynomials is the product of their values. */
  lemma {:induction false} EvalTimes(p: Poly, q: Poly, x: real)
    ensures Eval(Times(p, q), x) == Eval(p, x) * Eval(q, x)
  {
    hide Add, Scale, TimesX;
    if p != [] {
      var rest := Times(p[1..], q);
      EvalTimes(p[1..], q, x);
      EvalAdd(Scale(p[0], q), TimesX(rest), x);
      EvalScale(p[0], q, x);
      EvalTimesX(rest, x);
      TimesStep(p[0], x, Eval(p[1..], x), Eval(q, x));
    }
  }

  lemma TimesStep(a: real, x: real, t: real, q: real)
    ensures a * q + x * (t * q) == (a + x * t) * q
  {
  }

  // ---------- differentiation ----------

  /** The quotient of differences (p(y) - p(x)) / (y - x), as an expression defined at y == x too. */
  function Slope(p: Poly, x: real, y: real): real {
    if p == [] then 0.0 else Eval(p[1..], x) + y * Slope(p[1..], x, y)
  }

  /** The formal derivative is the derivative: its value is the slope between x and itself. */
  lemma {:induction false} DerivIsSlope(p: Poly, x: real, y: real)
    ensures Eval(p, y) - Eval(p, x) == (y - x) * Slope(p, x, y)
    ensures Slope(p, x, x) == Eval(Deriv(p), x)
  {
    hide Deriv;
    if p != [] {
      DerivIsSlope(p[1..], x, y);
      SlopeStep(x, y, Eval(p[1..], x), Eval(p[1..], y), Slope(p[1..], x, y));
      EvalDerivHead(p, x);
    }
  }

  lemma SlopeStep(x: real, y: real, a: real, b: real, s: real)
    requires b - a == (y - x) * s
    ensures y * b - x * a == (y - x) * (a + y * s)
  {
    assert y * b == y * (a + (y - x) * s);
  }

  /** (p0 + x r)' == r + x r' */
  lemma EvalDerivHead(p: Poly, x: real)
    requires p != []
    ensures Eval(Deriv(p), x) == Eval(p[1..], x) + x * Eval(Deriv(p[1..]), x)
  {
    hide Add, TimesX;
    var r := p[1..];
    if r == [] {
      assert Deriv(p) == [];
    } else {
      DerivHead(p);
      EvalAdd(r, TimesX(Deriv(r)), x);
      EvalTimesX(Deriv(r), x);
    }
  }

  lemma DerivHead(p: Poly)
    requires |p| > 1
    ensures Deriv(p) == Add(p[1..], TimesX(Deriv(p[1..])))
  {
    var r := p[1..];
    var s := Add(r, TimesX(Deriv(r)));
    hide Deriv, Add, TimesX;
    forall i | 0 <= i < |s| ensures Deriv(p)[i] == s[i] {
      assert Coef(s, i) == Coef(r, i) + Coef(Deriv(r), i - 1);
      DerivHeadCoef(p, i);
    }
  }

  lemma DerivHeadCoef(p: Poly, i: nat)
    requires |p| > 1
    ensures Coef(Deriv(p), i) == Coef(p[1..], i) + Coef(Deriv(p[1..]), i - 1)
  {
    hide Deriv;
    DerivCoef(p, i, i + 1, (i + 1) as real, Coef(p, i + 1));
    if i > 0 {
      DerivCoef(p[1..], i - 1, i, i as real, Coef(p, i + 1));
      Distribute(i as real, 1.0, (i + 1) as real, Coef(p, i + 1));
    }
  }

  lemma DerivCoef(p: Poly, i: nat, k: int, a: real, c: real)
    requires k == i + 1 && a == k as real && c == Coef(p, k)
    ensures Coef(Deriv(p), i) == a * c
  {
    hide Deriv;
    assert (i + 1) as real == a;
  }

  lemma DerivAdd(p: Poly, q: Poly)
    ensures Deriv(Add(p, q)) == Add(Deriv(p), Deriv(q))
  {
    hide Deriv, Add;
    var s, t := Deriv(Add(p, q)), Add(Deriv(p), Deriv(q));
    forall i | 0 <= i < |s| ensures s[i] == t[i] {
      DerivAddCoef(p, q, i);
      assert Coef(s, i) == s[i] && Coef(t, i) == t[i];
    }
  }

  lemma DerivAddCoef(p: Poly, q: Poly, i: nat)
    ensures Coef(Deriv(Add(p, q)), i) == Coef(Add(Deriv(p), Deriv(q)), i)
  {
    hide *;
    var a := (i + 1) as real;
    DerivCoef(p, i, i + 1, a, Coef(p, i + 1));
    DerivCoef(q, i, i + 1, a, Coef(q, i + 1));
    DerivCoef(Add(p, q), i, i + 1, a, Coef(Add(p, q), i + 1));
    assert Coef(Add(p, q), i + 1) == Coef(p, i + 1) + Coef(q, i + 1);
    Distribute(Coef(p, i + 1), Coef(q, i + 1), Coef(Add(p, q), i + 1), a);
  }

  lemma DerivScale(k: real, p: Poly)
    ensures Deriv(Scale(k, p)) == Scale(k, Deriv(p))
  {
    hide Deriv, Scale;
    var s, t := Deriv(Scale(k, p)), Scale(k, Deriv(p));
    forall i | 0 <= i < |s| ensures s[i] == t[i] {
      assert Coef(s, i) == s[i] && Coef(t, i) == t[i];
    }
  }

  /** The value at x of the n-th derivative; zero for no derivative at all, n < 0. */
  function DerivAt(p: Poly, n: int, x: real): real {
    if n < 0 then 0.0 else Eval(DerivN(p, n), x)
  }

  lemma DerivAtNext(p: Poly, n: int, x: real)
    requires n >= 0
    ensures DerivAt(p, n + 1, x) == DerivAt(Deriv(p), n, x)
  {
    hide Deriv, Eval;
  }

  lemma {:induction false} DerivAtAdd(p: Poly, q: Poly, n: int, x: real)
    ensures DerivAt(Add(p, q), n, x) == DerivAt(p, n, x) + DerivAt(q, n, x)
    decreases n
  {
    hide Deriv, Add, Eval;
    if n == 0 {
      EvalAdd(p, q, x);
    } else if n > 0 {
      DerivAdd(p, q);
      DerivAtAdd(Deriv(p), Deriv(q), n - 1, x);
    }
  }

  lemma {:induction false} DerivAtScale(k: real, p: Poly, n: int, x: real)
    ensures DerivAt(Scale(k, p), n, x) == k * DerivAt(p, n, x)
    decreases n
  {
    hide Deriv, Scale, Eval;
    if n == 0 {
      EvalScale(k, p, x);
    } else if n > 0 {
      DerivScale(k, p);
      DerivAtScale(k, Deriv(p), n - 1, x);
      DerivAtNext(Scale(k, p), n - 1, x);
      DerivAtNext(p, n - 1, x);
    }
  }

  lemma {:induction false} DerivAtEmpty(n: int, x: real)
    ensures DerivAt([], n, x) == 0.0
    decreases n
  {
    if n > 0 {
      DerivAtEmpty(n - 1, x);
    }
  }

  lemma DerivTimesX(p: Poly)
    requires p != []
    ensures Deriv(TimesX(p)) == Add(p, TimesX(Deriv(p)))
  {
    assert TimesX(p)[1..] == p;
    DerivHead(TimesX(p));
  }

  lemma DerivAtTimesXBase(p: Poly, n: int, x: real)
    requires n == 0 || (n > 0 && p == [])
    ensures DerivAt(TimesX(p), n, x) == x * DerivAt(p, n, x) + (n as real) * DerivAt(p, n - 1, x)
  {
    if n == 0 {
      EvalTimesX(p, x);
    } else {
      DerivAtEmpty(n - 1, x);
      DerivAtEmpty(n, x);
      assert Deriv(TimesX(p)) == [];
    }
  }

  /** Leibniz's rule for a factor x. */
  lemma {:induction false} DerivAtTimesX(p: Poly, n: int, x: real)
    requires n >= 0
    ensures DerivAt(TimesX(p), n, x) == x * DerivAt(p, n, x) + (n as real) * DerivAt(p, n - 1, x)
    decreases n
  {
    hide DerivAt, Deriv, Add, TimesX, Eval;
    if n == 0 || p == [] {
      DerivAtTimesXBase(p, n, x);
    } else {
      var d := Deriv(p);
      DerivTimesX(p);
      DerivAtNext(TimesX(p), n - 1, x);
      DerivAtAdd(p, TimesX(d), n - 1, x);
      DerivAtTimesX(d, n - 1, x);
      DerivAtNext(p, n - 1, x);
      DerivAtBelow(p, n - 2, x);
      LeibnizStep(n, DerivAt(p, n - 1, x), DerivAt(d, n - 2, x));
    }
  }

  lemma DerivAtBelow(p: Poly, n: int, x: real)
    requires n >= -1
    ensures DerivAt(Deriv(p), n, x) == if n == -1 then 0.0 else DerivAt(p, n + 1, x)
  {
    if n >= 0 {
      DerivAtNext(p, n, x);
    }
  }

  lemma LeibnizStep(n: int, e: real, f: real)
    requires f == if n == 1 then 0.0 else e
    ensures e + ((n - 1) as real) * f == (n as real) * e
  {
    if n > 1 {
      assert n as real == (n - 1) as real + 1.0;
    }
  }

  lemma DerivNUnfold(p: Poly, n: nat)
    ensures DerivN(p, n) == if n == 0 then p else DerivN(Deriv(p), n - 1)
  {
  }

  lemma FallingUnfold(x: real, m: nat, y: real)
    requires y == x - m as real
    ensures Falling(x, 0) == 1.0 && Falling(x, m + 1) == Falling(x, m) * y
  {
  }

  /** The coefficient of x^(i + n), times what n derivatives bring down. */
  function Lowered(p: Poly, n: nat, i: nat): real {
    Falling((i + n) as real, n) * Coef(p, i + n)
  }

  lemma {:induction false} DerivNCoef(p: Poly, n: nat, i: nat)
    ensures Coef(DerivN(p, n), i) == Lowered(p, n, i)
    decreases n
  {
    hide *;
    DerivNUnfold(p, n);
    if n == 0 {
      LoweredZero(p, i);
    } else {
      DerivNCoef(Deriv(p), n - 1, i);
      LoweredNext(p, n, i, i + n, (i + n) as real, (i + n - 1) as real);
    }
  }

  lemma LoweredZero(p: Poly, i: nat)
    ensures Lowered(p, 0, i) == Coef(p, i)
  {
    assert Falling(i as real, 0) == 1.0;
  }

  lemma LoweredIs(p: Poly, n: nat, i: nat, k: nat, f: real, c: real)
    requires k == i + n && f == Falling(k as real, n) && c == Coef(p, k)
    ensures Lowered(p, n, i) == f * c
  {
    hide Falling, Coef;
  }

  lemma LoweredNext(p: Poly, n: nat, i: nat, k: nat, a: real, b: real)
    requires n > 0 && k == i + n && a == k as real && b == (k - 1) as real
    ensures Lowered(Deriv(p), n - 1, i) == Lowered(p, n, i)
  {
    hide *;
    var c, d, f, g := Coef(p, k), Coef(Deriv(p), k - 1), Falling(b, n - 1), Falling(a, n);
    LoweredIs(Deriv(p), n - 1, i, k - 1, f, d);
    LoweredIs(p, n, i, k, g, c);
    DerivCoef(p, k - 1, k, a, c);
    FallingFirst(a, b, n, f);
    Reorder(f, a, c, d, g);
  }

  lemma Reorder(f: real, a: real, c: real, d: real, g: real)
    requires d == a * c && g == a * f
    ensures f * d == g * c
  {
  }

  /** Taking the first factor out instead of the last. */
  lemma {:induction false} FallingFirst(x: real, y: real, m: nat, f: real)
    requires m > 0 && y == x - 1.0 && f == Falling(y, m - 1)
    ensures Falling(x, m) == x * f
    decreases m
  {
    hide *;
    FallingUnfold(x, 0, x);
    FallingUnfold(y, 0, y);
    if m > 1 {
      var e, h := Falling(y, m - 2), x - (m - 1) as real;
      FallingFirst(x, y, m - 1, e);
      FallingUnfold(x, m - 1, h);
      FallingUnfold(y, m - 2, h);
      FallingFirstStep(x, e, Falling(x, m - 1), h);
    }
  }

  lemma FallingFirstStep(x: real, f: real, g: real, h: real)
    requires g == x * f
    ensures g * h == x * (f * h)
  {
  }

  lemma {:induction false} FallingSplit(x: real, y: real, a: nat, b: nat)
    requires y == x - a as real
    ensures Falling(x, a + b) == Falling(x, a) * Falling(y, b)
    decreases b
  {
    hide *;
    if b == 0 {
      FallingUnfold(y, 0, y);
    } else {
      var k := a + (b - 1);
      var h := x - k as real;
      FallingSplit(x, y, a, b - 1);
      FallingUnfold(x, k, h);
      FallingUnfold(y, b - 1, h);
      FallingFirstStep(Falling(x, a), Falling(y, b - 1), Falling(x, k), h);
    }
  }

  lemma {:induction false} FallingPositive(n: int, m: nat)
    requires n >= m
    ensures Falling(n as real, m) > 0.0
  {
    if m > 0 {
      FallingPositive(n, m - 1);
    }
  }
}
