/**
 The Schmidt semi-normalised functions of the World Magnetic Model as they are read off the
 table, and their derivative by the latitude.  Square roots are parameters that square to the
 radicand; sine and cosine of the latitude are a pair with s^2 + c^2 == 1 and c > 0.
 */
module Schmidt {
  import opened Polynomials
  import opened Legendre
  import opened LegendreTable

  ghost predicate IsRoot(r: real, y: real) {
    r >= 0.0 && r * r == y
  }

  /** w is the square root of 1 - u^2; the power (1 - u^2)^(m/2) is w^m. */
  function AssociatedLegendre(table: seq<real>, cols: nat, w: real, n: nat, m: nat): real
    requires Index(cols, n, m) < |table|
  {
    var sign := if m % 2 == 0 then 1.0 else -1.0;
    sign * Pow(w, m) * table[Index(cols, n, m)]
  }

  function PLegen(table: seq<real>, cols: nat, w: real, n: nat, m: nat): real
    requires Index(cols, n, m) < |table|
  {
    Pow(-1.0, m) * AssociatedLegendre(table, cols, w, n, m)
  }

  /** coeff is the root of 2 / FallingFactorial(n + m, 2 m), which is not taken for m == 0. */
  function PHat(table: seq<real>, cols: nat, w: real, coeff: real, n: nat, m: nat): real
    requires Index(cols, n, m) < |table|
  {
    if m == 0 then PLegen(table, cols, w, n, m) else coeff * PLegen(table, cols, w, n, m)
  }

  /** coeff and coeff1 are the factors of degree n and n + 1, root is that of (n + 1)^2 - m^2. */
  function DPHat(table: seq<real>, cols: nat, s: real, c: real, coeff: real, coeff1: real, root: real, n: nat, m: nat): real
    requires Index(cols, n, m) < |table| && Index(cols, n + 1, m) < |table| && c != 0.0
  {
    ((n + 1) as real) * (s / c) * PHat(table, cols, c, coeff, n, m)
    - root * (1.0 / c) * PHat(table, cols, c, coeff1, n + 1, m)
  }

  /** The factor in front of degree n: one for the zonal functions, else the given root. */
  ghost predicate IsFactor(f: real, n: nat, m: nat)
    requires m <= n
  {
    FallingPositive(n + m, 2 * m);
    if m == 0 then f == 1.0 else IsRoot(f, 2.0 / Falling((n + m) as real, 2 * m))
  }

  // ---------- functions of the latitude, and their derivative ----------

  datatype Trig = Sin | Cos | Const(v: real) | Sum(a: Trig, b: Trig) | Product(a: Trig, b: Trig)

  function Value(e: Trig, s: real, c: real): real {
    match e
    case Sin => s
    case Cos => c
    case Const(v) => v
    case Sum(a, b) => Value(a, s, c) + Value(b, s, c)
    case Product(a, b) => Value(a, s, c) * Value(b, s, c)
  }

  /** The derivative by the angle. */
  function ByAngle(e: Trig): Trig {
    match e
    case Sin => Cos
    case Cos => Product(Const(-1.0), Sin)
    case Const(_) => Const(0.0)
    case Sum(a, b) => Sum(ByAngle(a), ByAngle(b))
    case Product(a, b) => Sum(Product(ByAngle(a), b), Product(a, ByAngle(b)))
  }

  function CosPower(m: nat): Trig {
    if m == 0 then Const(1.0) else Product(Cos, CosPower(m - 1))
  }

  function InSin(p: Poly): Trig {
    if p == [] then Const(0.0) else Sum(Const(p[0]), Product(Sin, InSin(p[1..])))
  }

  /** f / (2^n n!) * cos^m * (d/du)^(n+m) (u^2 - 1)^n at u = sin */
  function SchmidtFunction(n: nat, m: nat, f: real): Trig {
    Product(Const(f / Norm(n)), Product(CosPower(m), InSin(DerivN(BasePower(n), n + m))))
  }

  lemma ProductRule(a: Trig, b: Trig, s: real, c: real, v: real, w: real, dv: real, dw: real)
    requires v == Value(a, s, c) && w == Value(b, s, c)
    requires dv == Value(ByAngle(a), s, c) && dw == Value(ByAngle(b), s, c)
    ensures Value(Product(a, b), s, c) == v * w
    ensures Value(ByAngle(Product(a, b)), s, c) == dv * w + v * dw
  {
    hide *;
    ValueProduct(a, b, s, c, v, w);
    ValueProduct(ByAngle(a), b, s, c, dv, w);
    ValueProduct(a, ByAngle(b), s, c, v, dw);
    ByAngleProduct(a, b, s, c);
  }

  lemma {:induction false} ValueProduct(a: Trig, b: Trig, s: real, c: real, v: real, w: real)
    requires v == Value(a, s, c) && w == Value(b, s, c)
    ensures Value(Product(a, b), s, c) == v * w
  {
  }

  lemma {:induction false} ByAngleProduct(a: Trig, b: Trig, s: real, c: real)
    ensures Value(ByAngle(Product(a, b)), s, c)
         == Value(Product(ByAngle(a), b), s, c) + Value(Product(a, ByAngle(b)), s, c)
  {
    assert ByAngle(Product(a, b)) == Sum(Product(ByAngle(a), b), Product(a, ByAngle(b)));
  }

  lemma Basics(s: real, c: real, v: real)
    ensures Value(Sin, s, c) == s && Value(Cos, s, c) == c && Value(Const(v), s, c) == v
    ensures Value(ByAngle(Sin), s, c) == c && Value(ByAngle(Cos), s, c) == -s && Value(ByAngle(Const(v)), s, c) == 0.0
  {
    assert Value(ByAngle(Cos), s, c) == -1.0 * s;
  }

  lemma CosPowerUnfold(m: nat, c: real)
    ensures CosPower(m) == if m == 0 then Const(1.0) else Product(Cos, CosPower(m - 1))
    ensures Pow(c, m) == if m == 0 then 1.0 else c * Pow(c, m - 1)
  {
  }

  lemma {:induction false} CosPowerValue(m: nat, s: real, c: real, y: real, k: real)
    requires y == Pow(c, m) && k == m as real
    ensures Value(CosPower(m), s, c) == y
    ensures c * Value(ByAngle(CosPower(m)), s, c) == -(k * s * y)
    decreases m
  {
    hide *;
    CosPowerUnfold(m, c);
    Basics(s, c, 1.0);
    if m > 0 {
      var z, e := Pow(c, m - 1), CosPower(m - 1);
      CosPowerValue(m - 1, s, c, z, k - 1.0);
      var d := Value(ByAngle(e), s, c);
      ProductRule(Cos, e, s, c, c, z, -s, d);
      CosStep(s, c, k, y, z, d, Value(ByAngle(CosPower(m)), s, c));
    }
  }

  lemma CosStep(s: real, c: real, k: real, y: real, z: real, d: real, v: real)
    requires y == c * z && c * d == -((k - 1.0) * s * z) && v == -s * z + c * d
    ensures c * v == -(k * s * y)
  {
    assert v == -(k * (s * z));
    assert c * v == -(k * (s * (c * z)));
  }

  lemma {:induction false} InSinValue(p: Poly, s: real, c: real)
    ensures Value(InSin(p), s, c) == Eval(p, s)
    ensures Value(ByAngle(InSin(p)), s, c) == c * Eval(Deriv(p), s)
  {
    hide *;
    if p == [] {
      InSinEmpty(s, c);
    } else {
      var r := p[1..];
      var e := InSin(r);
      var a, d, d' := Eval(r, s), Eval(Deriv(r), s), Eval(Deriv(p), s);
      InSinUnfold(p, s, c);
      EvalDerivHead(p, s);
      EvalUnfold(p, s, a);
      InSinValue(r, s, c);
      var v := Value(ByAngle(e), s, c);
      Basics(s, c, p[0]);
      ProductRule(Sin, e, s, c, s, a, c, v);
      InSinStep(s, c, a, d, v, d');
    }
  }

  lemma EvalUnfold(p: Poly, x: real, a: real)
    requires p != [] && a == Eval(p[1..], x)
    ensures Eval(p, x) == p[0] + x * a
  {
  }

  lemma InSinEmpty(s: real, c: real)
    ensures Value(InSin([]), s, c) == Eval([], s)
    ensures Value(ByAngle(InSin([])), s, c) == c * Eval(Deriv([]), s)
  {
  }

  lemma InSinUnfold(p: Poly, s: real, c: real)
    requires p != []
    ensures Value(InSin(p), s, c) == p[0] + Value(Product(Sin, InSin(p[1..])), s, c)
    ensures Value(ByAngle(InSin(p)), s, c) == Value(ByAngle(Product(Sin, InSin(p[1..]))), s, c)
  {
    var e := Product(Sin, InSin(p[1..]));
    Basics(s, c, p[0]);
    assert InSin(p) == Sum(Const(p[0]), e);
    assert ByAngle(InSin(p)) == Sum(ByAngle(Const(p[0])), ByAngle(e));
  }

  lemma InSinStep(s: real, c: real, a: real, d: real, v: real, e: real)
    requires v == c * d && e == a + s * d
    ensures c * a + s * v == c * e
  {
  }

  // ---------- the factors ----------

  lemma DifferenceOfSquares(a: real, b: real, d: real, t: real)
    requires d == a - b && t == a + b && a * a == b * b
    ensures t * d == 0.0
  {
  }

  lemma SquareRoots(a: real, b: real)
    requires a >= 0.0 && b >= 0.0 && a * a == b * b
    ensures a == b
  {
    var d, t := a - b, a + b;
    DifferenceOfSquares(a, b, d, t);
    if t != 0.0 {
      Cancel(t, d, 0.0);
    }
  }

  /** sqrt((n + 1)^2 - m^2) times the factor of degree n + 1 is n - m + 1 times that of degree n. */
  lemma FactorsOfNeighbours(n: nat, m: nat, f: real, f1: real, root: real, a: real)
    requires m <= n && IsFactor(f, n, m) && IsFactor(f1, n + 1, m) && a == (n - m + 1) as real
    requires IsRoot(root, ((n + 1) as real) * ((n + 1) as real) - (m as real) * (m as real))
    ensures root * f1 == a * f
  {
    var b := (n + m + 1) as real;
    RootSquare(n as real + 1.0, m as real, a, b, root);
    if m == 0 {
      SquareRoots(root, a);
    } else {
      var g, g1 := Falling((n + m) as real, 2 * m), Falling(b, 2 * m);
      FallingPositive(n + m, 2 * m);
      FallingPositive(n + m + 1, 2 * m);
      FallingFirst(b, b - 1.0, 2 * m + 1, g);
      FallingUnfold(b, 2 * m, a);
      assert (n + m + 1) as real == (n + 1 + m) as real;
      FactorSquare(f, g);
      FactorSquare(f1, g1);
      hide *;
      assert g1 * a == b * g;
      RootProducts(f, f1, g, g1, a, b, root);
    }
  }

  lemma RootSquare(k: real, m: real, a: real, b: real, root: real)
    requires a == k - m && b == k + m && root * root == k * k - m * m
    ensures root * root == a * b
  {
  }

  lemma FactorSquare(f: real, g: real)
    requires g > 0.0 && IsRoot(f, 2.0 / g)
    ensures f >= 0.0 && (f * f) * g == 2.0
  {
    Quotient(2.0, g);
  }

  lemma RootProducts(f: real, f1: real, g: real, g1: real, a: real, b: real, root: real)
    requires f >= 0.0 && f1 >= 0.0 && root >= 0.0 && a > 0.0 && g1 > 0.0
    requires (f * f) * g == 2.0 && (f1 * f1) * g1 == 2.0 && g1 * a == b * g && root * root == a * b
    ensures root * f1 == a * f
  {
    SquareOfProduct(root, f1);
    SquareOfProduct(a, f);
    var u, v := root * f1, a * f;
    SquaresMeet(f * f, f1 * f1, g, g1, a, b, root * root, u * u, v * v);
    Cancel(g1, u * u, v * v);
    NonNegative(root, f1);
    NonNegative(a, f);
    SquareRoots(u, v);
  }

  lemma SquareOfProduct(a: real, b: real)
    ensures (a * b) * (a * b) == (a * a) * (b * b)
  {
  }

  lemma SquaresMeet(q: real, q1: real, g: real, g1: real, a: real, b: real, r: real, u: real, v: real)
    requires q * g == 2.0 && q1 * g1 == 2.0 && g1 * a == b * g && r == a * b && u == r * q1 && v == (a * a) * q
    ensures g1 * u == g1 * v
  {
    assert g1 * u == r * (q1 * g1);
    assert g1 * v == (g1 * a) * (a * q);
    assert (b * g) * (a * q) == (a * b) * (q * g);
  }

  lemma NonNegative(a: real, b: real)
    requires a >= 0.0 && b >= 0.0
    ensures a * b >= 0.0
  {
  }

  // ---------- what the code computes ----------

  /** The two alternating signs cancel. */
  lemma {:induction false} SignsCancel(m: nat)
    ensures Pow(-1.0, m) == if m % 2 == 0 then 1.0 else -1.0
  {
    if m > 0 {
      SignsCancel(m - 1);
    }
  }

  /** Without its signs, the function is the factor times cos^m times the table's entry. */
  lemma PHatPlain(table: seq<real>, cols: nat, c: real, coeff: real, n: nat, m: nat, f: real, y: real, t: real)
    requires Index(cols, n, m) < |table| && t == table[Index(cols, n, m)] && y == Pow(c, m)
    requires f == if m == 0 then 1.0 else coeff
    ensures PHat(table, cols, c, coeff, n, m) == f * (y * t)
  {
    SignsCancel(m);
    hide Pow, Index;
  }

  /** pHat at the sine of a latitude is the Schmidt function there. */
  lemma PHatIsSchmidt(table: seq<real>, cols: nat, rows: nat, s: real, c: real, coeff: real, n: nat, m: nat, f: real)
    requires IsTable(table, cols, rows, s) && n < rows && m < cols
    requires f == if m == 0 then 1.0 else coeff
    ensures Index(cols, n, m) < |table|
    ensures PHat(table, cols, c, coeff, n, m) == Value(SchmidtFunction(n, m, f), s, c)
  {
    hide *;
    EntryOf(table, cols, rows, s, n, m);
    var y, t, d, e := Pow(c, m), Rodrigues(n, m, s), Norm(n), DerivAt(BasePower(n), n + m, s);
    PHatPlain(table, cols, c, coeff, n, m, f, y, t);
    RodriguesIs(n, m, s, e, d, t);
    SchmidtValue(n, m, f, s, c, y, d, e, DerivAt(BasePower(n), n + m + 1, s), Value(ByAngle(CosPower(m)), s, c));
    SchmidtStep(f, d, y, t, e);
  }

  lemma SchmidtIs(n: nat, m: nat, f: real, d: real, p: Poly)
    requires d == Norm(n) && p == DerivN(BasePower(n), n + m)
    ensures SchmidtFunction(n, m, f) == Product(Const(f / d), Product(CosPower(m), InSin(p)))
  {
    hide Norm, DerivN, BasePower, CosPower, InSin;
  }

  /** The value and the derivative of a Schmidt function, by the rules for products. */
  lemma SchmidtValue(n: nat, m: nat, f: real, s: real, c: real, y: real, d: real, e: real, e1: real, z: real)
    requires y == Pow(c, m) && d == Norm(n) && z == Value(ByAngle(CosPower(m)), s, c)
    requires e == DerivAt(BasePower(n), n + m, s) && e1 == DerivAt(BasePower(n), n + m + 1, s)
    ensures Value(SchmidtFunction(n, m, f), s, c) == (f / d) * (y * e)
    ensures Value(ByAngle(SchmidtFunction(n, m, f)), s, c) == (f / d) * (z * e + y * (c * e1))
  {
    hide *;
    var p, q, g := DerivN(BasePower(n), n + m), DerivN(BasePower(n), n + m + 1), f / d;
    var a, b := CosPower(m), InSin(p);
    SchmidtIs(n, m, f, d, p);
    CosPowerValue(m, s, c, y, m as real);
    DerivAtIs(BasePower(n), n + m, s);
    DerivAtIs(BasePower(n), n + m + 1, s);
    DerivNOuter(BasePower(n), n + m);
    InSinValue(p, s, c);
    Basics(s, c, g);
    var v := c * e1;
    ProductRule(a, b, s, c, y, e, z, v);
    ProductRule(Const(g), Product(a, b), s, c, g, y * e, 0.0, z * e + y * v);
  }

  lemma SchmidtStep(f: real, d: real, y: real, t: real, e: real)
    requires d > 0.0 && t * d == e
    ensures f * (y * t) == (f / d) * (y * e)
  {
    var g := f / d;
    Quotient(f, d);
    assert (g * d) * (y * t) == g * (y * (t * d));
  }

  /**
   Equation 16 of the World Magnetic Model report, for every degree, order and latitude: what
   dPHatdPhiPrime computes from two neighbouring entries is the derivative of pHat by the latitude.
   */
  lemma DPHatIsDerivative(table: seq<real>, cols: nat, rows: nat, s: real, c: real, coeff: real, coeff1: real, root: real,
                          n: nat, m: nat, f: real, f1: real)
    requires IsTable(table, cols, rows, s) && n + 1 < rows && m < cols && m <= n
    requires c > 0.0 && s * s + c * c == 1.0
    requires f == (if m == 0 then 1.0 else coeff) && f1 == (if m == 0 then 1.0 else coeff1)
    requires IsFactor(f, n, m) && IsFactor(f1, n + 1, m)
    requires IsRoot(root, ((n + 1) as real) * ((n + 1) as real) - (m as real) * (m as real))
    ensures Index(cols, n, m) < |table| && Index(cols, n + 1, m) < |table|
    ensures DPHat(table, cols, s, c, coeff, coeff1, root, n, m) == Value(ByAngle(SchmidtFunction(n, m, f)), s, c)
  {
    hide *;
    EntryOf(table, cols, rows, s, n, m);
    EntryOf(table, cols, rows, s, n + 1, m);
    var y, t, t1, t2 := Pow(c, m), Rodrigues(n, m, s), Rodrigues(n, m + 1, s), Rodrigues(n + 1, m, s);
    var a, k, v, w := (n - m + 1) as real, m as real,
      DPHat(table, cols, s, c, coeff, coeff1, root, n, m), Value(ByAngle(SchmidtFunction(n, m, f)), s, c);
    PHatPlain(table, cols, c, coeff, n, m, f, y, t);
    PHatPlain(table, cols, c, coeff1, n + 1, m, f1, y, t2);
    DPHatScaled(table, cols, s, c, coeff, coeff1, root, n, m, (n + 1) as real, f * (y * t), f1 * (y * t2));
    FactorsOfNeighbours(n, m, f, f1, root, a);
    DerivativeScaled(n, m, s, c, f, k, y, t, t1);
    RowsAndColumns(n, m, s);
    Relation(n, m, s, (n + m + 1) as real, 2.0 * (n as real + 1.0), a, 1.0 - s * s, t, t1, t2);
    BothScaled(s, c, k, (n + 1) as real, a, f, f1, root, y, t, t1, t2, 1.0 - s * s, c * v, c * w);
    Cancel(c, v, w);
  }

  lemma EntryOf(table: seq<real>, cols: nat, rows: nat, x: real, n: nat, m: nat)
    requires IsTable(table, cols, rows, x) && n < rows && m < cols
    ensures Index(cols, n, m) < |table| && table[Index(cols, n, m)] == Rodrigues(n, m, x)
  {
    hide Rodrigues, Index;
  }

  lemma DPHatScaled(table: seq<real>, cols: nat, s: real, c: real, coeff: real, coeff1: real, root: real,
                    n: nat, m: nat, k: real, p: real, p1: real)
    requires Index(cols, n, m) < |table| && Index(cols, n + 1, m) < |table| && c > 0.0 && k == (n + 1) as real
    requires p == PHat(table, cols, c, coeff, n, m) && p1 == PHat(table, cols, c, coeff1, n + 1, m)
    ensures c * DPHat(table, cols, s, c, coeff, coeff1, root, n, m) == k * (s * p) - root * p1
  {
    hide PHat, Index;
    var d, e := s / c, 1.0 / c;
    Quotient(s, c);
    Quotient(1.0, c);
    ScaledBy(s, c, d, e, k, p, root, p1);
  }

  lemma ScaledBy(s: real, c: real, d: real, e: real, k: real, p: real, root: real, p1: real)
    requires d * c == s && e * c == 1.0
    ensures c * (k * d * p - root * e * p1) == k * (s * p) - root * p1
  {
    assert c * (k * d * p) == k * ((d * c) * p);
    assert c * (root * e * p1) == root * ((e * c) * p1);
  }

  lemma DerivativeScaled(n: nat, m: nat, s: real, c: real, f: real, k: real, y: real, t: real, t1: real)
    requires y == Pow(c, m) && k == m as real && t == Rodrigues(n, m, s) && t1 == Rodrigues(n, m + 1, s)
    ensures c * Value(ByAngle(SchmidtFunction(n, m, f)), s, c) == f * (y * ((c * c) * t1 - k * (s * t)))
  {
    hide *;
    var d, p := Norm(n), BasePower(n);
    var z, e, e1 := Value(ByAngle(CosPower(m)), s, c), DerivAt(p, n + m, s), DerivAt(p, n + m + 1, s);
    CosPowerValue(m, s, c, y, k);
    RodriguesIs(n, m, s, e, d, t);
    RodriguesIs(n, m + 1, s, e1, d, t1);
    SchmidtValue(n, m, f, s, c, y, d, e, e1, z);
    SchmidtDerivativeStep(s, c, f, d, f / d, y, z, k, t, t1, e, e1);
  }

  lemma {:induction false} DerivNOuter(p: Poly, n: nat)
    ensures DerivN(p, n + 1) == Deriv(DerivN(p, n))
    decreases n
  {
    hide Deriv;
    if n > 0 {
      DerivNOuter(Deriv(p), n - 1);
    }
  }

  lemma SchmidtDerivativeStep(s: real, c: real, f: real, d: real, g: real, y: real, z: real, k: real,
                              t: real, t1: real, e: real, e1: real)
    requires d > 0.0 && g == f / d && t * d == e && t1 * d == e1 && c * z == -(k * s * y)
    ensures c * (g * (z * e + y * (c * e1))) == f * (y * ((c * c) * t1 - k * (s * t)))
  {
    Quotient(f, d);
    var u := z * e + y * (c * e1);
    assert c * u == y * ((c * c) * e1 - k * (s * e)) by {
      assert c * (z * e) == (c * z) * e;
    }
    var w := (c * c) * t1 - k * (s * t);
    assert (c * c) * e1 - k * (s * e) == w * d;
    assert c * (g * u) == g * (y * (w * d));
    assert g * (y * (w * d)) == (g * d) * (y * w);
  }

  lemma BothScaled(s: real, c: real, k: real, k1: real, a: real, f: real, f1: real, root: real, y: real,
                   t: real, t1: real, t2: real, x: real, v: real, w: real)
    requires x == c * c && root * f1 == a * f
    requires v == k1 * (s * (f * (y * t))) - root * (f1 * (y * t2))
    requires w == f * (y * ((c * c) * t1 - k * (s * t)))
    requires x * t1 == (k + k1) * (s * t) - a * t2
    ensures v == w
  {
    var z, q, r := f * y, s * t, (c * c) * t1;
    assert r == (k + k1) * q - a * t2;
    assert root * (f1 * (y * t2)) == (root * f1) * (y * t2);
    assert v == z * (k1 * q - a * t2);
    assert w == z * (r - k * q);
  }

  // ---------- the normalisation ----------

  lemma SchmidtIsRodrigues(n: nat, m: nat, f: real, s: real, c: real, y: real, t: real)
    requires y == Pow(c, m) && t == Rodrigues(n, m, s)
    ensures Value(SchmidtFunction(n, m, f), s, c) == f * (y * t)
  {
    hide *;
    var d, e := Norm(n), DerivAt(BasePower(n), n + m, s);
    RodriguesIs(n, m, s, e, d, t);
    SchmidtValue(n, m, f, s, c, y, d, e, DerivAt(BasePower(n), n + m + 1, s), Value(ByAngle(CosPower(m)), s, c));
    SchmidtStep(f, d, y, t, e);
  }

  lemma SmallPowers(c: real)
    ensures Pow(c, 0) == 1.0 && Pow(c, 1) == c && Pow(c, 2) == c * c
  {
  }

  /** The first entries of the table, from its first one and the relation between rows and columns. */
  lemma FirstRows(x: real)
    ensures Rodrigues(1, 0, x) == x && Rodrigues(1, 1, x) == 1.0
    ensures Rodrigues(2, 1, x) == 3.0 * x && Rodrigues(2, 2, x) == 3.0
    ensures Rodrigues(2, 0, x) == (3.0 * (x * x) - 1.0) / 2.0
  {
    hide Rodrigues;
    FirstEntry(x);
    AboveDiagonal(0, 1, x);
    AboveDiagonal(1, 2, x);
    RowsAndColumns(0, 0, x);
    RowsAndColumns(1, 0, x);
    RowsAndColumns(1, 1, x);
    DiagonalEntries(x);
  }

  lemma SmallNorms()
    ensures Norm(1) == 2.0 && Norm(2) == 8.0
  {
    assert Pow(2.0, 1) == 2.0 && Pow(2.0, 2) == 4.0;
    assert Falling(0.0, 0) == 1.0 && Falling(1.0, 1) == 1.0 && Falling(2.0, 2) == 2.0;
  }

  lemma DiagonalEntries(x: real)
    ensures Rodrigues(1, 1, x) == 1.0 && Rodrigues(2, 2, x) == 3.0
  {
    SmallNorms();
    BaseDerivatives();
    EvalConstant(2.0, x);
    EvalConstant(24.0, x);
    hide Norm, DerivN, BasePower, Eval;
  }

  lemma EvalConstant(v: real, x: real)
    ensures Eval([v], x) == v
  {
    assert [v][1..] == [];
  }

  lemma TwoDerivatives(p: Poly)
    ensures DerivN(p, 2) == Deriv(Deriv(p))
  {
    hide Deriv;
    assert DerivN(p, 2) == DerivN(Deriv(p), 1);
    assert DerivN(Deriv(p), 1) == DerivN(Deriv(Deriv(p)), 0);
  }

  lemma FourDerivatives(p: Poly)
    ensures DerivN(p, 4) == Deriv(Deriv(Deriv(Deriv(p))))
  {
    hide Deriv;
    assert DerivN(p, 4) == DerivN(Deriv(p), 3);
    assert DerivN(Deriv(p), 3) == DerivN(Deriv(Deriv(p)), 2);
    TwoDerivatives(Deriv(Deriv(p)));
  }

  lemma ShortDerivatives(a: real, b: real, c: real)
    ensures Deriv([a, b]) == [b] && Deriv([a, b, c]) == [b, 2.0 * c]
  {
    var p, q := [a, b], [a, b, c];
    assert Deriv(p)[0] == ((0 + 1) as real) * p[0 + 1] == b;
    assert Deriv(q)[0] == ((0 + 1) as real) * q[0 + 1] == b;
    assert Deriv(q)[1] == ((1 + 1) as real) * q[1 + 1] == 2.0 * c;
  }

  lemma LongDerivatives(a: real, b: real, c: real, d: real, e: real)
    ensures Deriv([a, b, c, d]) == [b, 2.0 * c, 3.0 * d]
    ensures Deriv([a, b, c, d, e]) == [b, 2.0 * c, 3.0 * d, 4.0 * e]
  {
    var p, q := [a, b, c, d], [a, b, c, d, e];
    assert Deriv(p)[0] == ((0 + 1) as real) * p[0 + 1] == b;
    assert Deriv(p)[1] == ((1 + 1) as real) * p[1 + 1] == 2.0 * c;
    assert Deriv(p)[2] == ((2 + 1) as real) * p[2 + 1] == 3.0 * d;
    assert Deriv(q)[0] == ((0 + 1) as real) * q[0 + 1] == b;
    assert Deriv(q)[1] == ((1 + 1) as real) * q[1 + 1] == 2.0 * c;
    assert Deriv(q)[2] == ((2 + 1) as real) * q[2 + 1] == 3.0 * d;
    assert Deriv(q)[3] == ((3 + 1) as real) * q[3 + 1] == 4.0 * e;
  }

  lemma BaseDerivatives()
    ensures DerivN(BasePower(1), 2) == [2.0] && DerivN(BasePower(2), 4) == [24.0]
  {
    SmallBases();
    TwoDerivatives(BasePower(1));
    FourDerivatives(BasePower(2));
    hide Deriv, DerivN, BasePower;
    ShortDerivatives(-1.0, 0.0, 1.0);
    ShortDerivatives(0.0, 2.0, 0.0);
    LongDerivatives(1.0, 0.0, -2.0, 0.0, 1.0);
    LongDerivatives(0.0, -4.0, 0.0, 4.0, 0.0);
    ShortDerivatives(-4.0, 0.0, 12.0);
    ShortDerivatives(0.0, 24.0, 0.0);
  }

  lemma SmallBases()
    ensures BasePower(1) == [-1.0, 0.0, 1.0] && BasePower(2) == [1.0, 0.0, -2.0, 0.0, 1.0]
  {
    TimesBase([1.0]);
    TimesBase([-1.0, 0.0, 1.0]);
    assert BasePower(0) == [1.0] && BasePower(1) == Times(BASE, [1.0]);
    assert BasePower(2) == Times(BASE, BasePower(1));
  }

  /** (x^2 - 1) q, coefficient by coefficient. */
  lemma TimesBase(q: Poly)
    requires q == [1.0] || q == [-1.0, 0.0, 1.0]
    ensures Times(BASE, q) == if q == [1.0] then [-1.0, 0.0, 1.0] else [1.0, 0.0, -2.0, 0.0, 1.0]
  {
    var b1, b2 := BASE[1..], BASE[2..];
    assert b1 == [0.0, 1.0] && b1[1..] == b2 == [1.0] && b2[1..] == [];
    assert Times(b2, q) == Add(Scale(1.0, q), TimesX([]));
    assert Times(b1, q) == Add(Scale(0.0, q), TimesX(Times(b2, q)));
    assert Times(BASE, q) == Add(Scale(-1.0, q), TimesX(Times(b1, q)));
  }

  lemma SmallFactors(f: real, g: real, h: real)
    requires IsFactor(f, 1, 1) && IsFactor(g, 2, 1) && IsFactor(h, 2, 2)
    ensures f * f == 1.0 && g * g == 1.0 / 3.0 && h * h == 1.0 / 12.0
  {
    assert Falling(2.0, 2) == 2.0 * Falling(1.0, 1) && Falling(1.0, 1) == 1.0 * Falling(0.0, 0);
    assert Falling(3.0, 2) == 3.0 * Falling(2.0, 1) && Falling(2.0, 1) == 2.0 * Falling(1.0, 0);
    assert Falling(4.0, 4) == 4.0 * Falling(3.0, 3) && Falling(3.0, 3) == 3.0 * Falling(2.0, 2);
  }

  lemma DegreeOne(s: real, c: real, f: real, a: real, b: real)
    requires s * s + c * c == 1.0 && f * f == 1.0 && a == s && b == f * c
    ensures a * a + b * b == 1.0
  {
    assert b * b == (f * f) * (c * c);
  }

  lemma DegreeTwo(s: real, c: real, g: real, h: real, a: real, b: real, d: real)
    requires s * s + c * c == 1.0 && g * g == 1.0 / 3.0 && h * h == 1.0 / 12.0
    requires a == (3.0 * (s * s) - 1.0) / 2.0 && b == g * (c * (3.0 * s)) && d == h * ((c * c) * 3.0)
    ensures a * a + b * b + d * d == 1.0
  {
    var t, u := s * s, c * c;
    assert u == 1.0 - t;
    assert b * b == (g * g) * (9.0 * (u * t));
    assert d * d == (h * h) * (9.0 * (u * u));
    assert a * a == (9.0 * (t * t) - 6.0 * t + 1.0) / 4.0;
    assert u * t == t - t * t && u * u == 1.0 - 2.0 * t + t * t;
  }

  /** The squares of the functions of degree one and of degree two add up to one at every latitude. */
  lemma SquaresAddUp(s: real, c: real, f: real, g: real, h: real)
    requires s * s + c * c == 1.0 && IsFactor(f, 1, 1) && IsFactor(g, 2, 1) && IsFactor(h, 2, 2)
    ensures var a, b := Value(SchmidtFunction(1, 0, 1.0), s, c), Value(SchmidtFunction(1, 1, f), s, c);
      a * a + b * b == 1.0
    ensures var a, b, d := Value(SchmidtFunction(2, 0, 1.0), s, c), Value(SchmidtFunction(2, 1, g), s, c),
        Value(SchmidtFunction(2, 2, h), s, c);
      a * a + b * b + d * d == 1.0
  {
    hide SchmidtFunction, Value, Rodrigues;
    FirstRows(s);
    SmallPowers(c);
    SchmidtIsRodrigues(1, 0, 1.0, s, c, 1.0, s);
    SchmidtIsRodrigues(1, 1, f, s, c, c, 1.0);
    SchmidtIsRodrigues(2, 0, 1.0, s, c, 1.0, Rodrigues(2, 0, s));
    SchmidtIsRodrigues(2, 1, g, s, c, c, 3.0 * s);
    SchmidtIsRodrigues(2, 2, h, s, c, c * c, 3.0);
    SmallFactors(f, g, h);
    DegreeOne(s, c, f, Value(SchmidtFunction(1, 0, 1.0), s, c), Value(SchmidtFunction(1, 1, f), s, c));
    DegreeTwo(s, c, g, h, Value(SchmidtFunction(2, 0, 1.0), s, c), Value(SchmidtFunction(2, 1, g), s, c),
              Value(SchmidtFunction(2, 2, h), s, c));
  }
}
