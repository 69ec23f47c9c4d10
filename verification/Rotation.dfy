/**
 The quaternion arithmetic of both programs, over exact reals.  A square root is a non-negative
 parameter that squares to the radicand; the sine and cosine of the declination are a pair with
 c^2 + s^2 == 1.
 */
module Rotation {
  import L = LinearAlgebra
  import opened Wrappers

  datatype Quaternion = Quaternion(x: real, y: real, z: real, w: real)

  datatype Vector = Vector(x: real, y: real, z: real)

  datatype Matrix = Matrix(r0: Vector, r1: Vector, r2: Vector)

  function NormSquared(q: Quaternion): real {
    q.x * q.x + q.y * q.y + q.z * q.z + q.w * q.w
  }

  function LengthSquared(v: Vector): real {
    v.x * v.x + v.y * v.y + v.z * v.z
  }

  function InnerProduct(a: Vector, b: Vector): real {
    a.x * b.x + a.y * b.y + a.z * b.z
  }

  function Times(m: Matrix, v: Vector): Vector {
    Vector(InnerProduct(m.r0, v), InnerProduct(m.r1, v), InnerProduct(m.r2, v))
  }

  /** n is the norm of q. */
  ghost predicate IsNorm(n: real, q: Quaternion) {
    n >= 0.0 && n * n == NormSquared(q)
  }

  // ---------- the Python functions ----------

  function Normalised(q: Quaternion, n: real): Quaternion {
    if n <= 1e-12 then Quaternion(0.0, 0.0, 0.0, 1.0) else Quaternion(q.x / n, q.y / n, q.z / n, q.w / n)
  }

  function Conjugate(q: Quaternion): Quaternion {
    Quaternion(-q.x, -q.y, -q.z, q.w)
  }

  function Mul(a: Quaternion, b: Quaternion): Quaternion {
    Quaternion(
      a.w * b.x + a.x * b.w + a.y * b.z - a.z * b.y,
      a.w * b.y - a.x * b.z + a.y * b.w + a.z * b.x,
      a.w * b.z + a.x * b.y - a.y * b.x + a.z * b.w,
      a.w * b.w - a.x * b.x - a.y * b.y - a.z * b.z)
  }

  function Diagonal(a: real, b: real): real {
    1.0 - 2.0 * a * a - 2.0 * b * b
  }

  function Plus(a: real, b: real, c: real, d: real): real {
    2.0 * a * b + 2.0 * c * d
  }

  function Minus(a: real, b: real, c: real, d: real): real {
    2.0 * a * b - 2.0 * c * d
  }

  function MatrixOf(q: Quaternion): Matrix {
    Matrix(
      Vector(Diagonal(q.y, q.z), Minus(q.x, q.y, q.z, q.w), Plus(q.x, q.z, q.y, q.w)),
      Vector(Plus(q.x, q.y, q.z, q.w), Diagonal(q.x, q.z), Minus(q.y, q.z, q.x, q.w)),
      Vector(Minus(q.x, q.z, q.y, q.w), Plus(q.y, q.z, q.x, q.w), Diagonal(q.x, q.y)))
  }

  /** q_to_R, which normalises first */
  function ToMatrix(q: Quaternion, n: real): Matrix {
    MatrixOf(Normalised(q, n))
  }

  function Pure(v: Vector): Quaternion {
    Quaternion(v.x, v.y, v.z, 0.0)
  }

  function Sandwich(q: Quaternion, p: Quaternion): Quaternion {
    Mul(Mul(q, p), Conjugate(q))
  }

  /** q_rotate, which does not normalise, and drops the last component */
  function Rotate(q: Quaternion, v: Vector): Vector {
    var r := Sandwich(q, Pure(v));
    Vector(r.x, r.y, r.z)
  }

  // ---------- the C++ function ----------

  /** The magnetic-world matrix as it is written out for the filter. */
  function MagneticMatrix(w: real, i: real, j: real, k: real): Matrix {
    Matrix(
      Vector(1.0 - 2.0 * (j * j + k * k), 2.0 * (i * j - k * w), 2.0 * (i * k + j * w)),
      Vector(2.0 * (i * j + k * w), 1.0 - 2.0 * (i * i + k * k), 2.0 * (j * k - i * w)),
      Vector(2.0 * (i * k - j * w), 2.0 * (j * k + i * w), 1.0 - 2.0 * (i * i + j * j)))
  }

  /** From magnetic to true north by the declination with cosine c and sine s. */
  function Declined(v: Vector, c: real, s: real): Vector {
    Vector(c * v.x + s * v.y, -s * v.x + c * v.y, v.z)
  }

  /** RotateLinearAccelToTrueENU; it throws for a norm below 1e-12. */
  function ToTrueEnu(w: real, i: real, j: real, k: real, a: Vector, n: real, c: real, s: real): Option<Vector> {
    if n < 1e-12 then None
    else Some(Declined(Times(MagneticMatrix(w / n, i / n, j / n, k / n), a), c, s))
  }

  // ---------- algebra ----------

  // The coordinates of a product.

  function MulX(a: real, b: real, c: real, d: real, e: real, f: real, g: real, h: real): real {
    d * e + a * h + b * g - c * f
  }

  function MulY(a: real, b: real, c: real, d: real, e: real, f: real, g: real, h: real): real {
    d * f - a * g + b * h + c * e
  }

  function MulZ(a: real, b: real, c: real, d: real, e: real, f: real, g: real, h: real): real {
    d * g + a * f - b * e + c * h
  }

  function MulW(a: real, b: real, c: real, d: real, e: real, f: real, g: real, h: real): real {
    d * h - a * e - b * f - c * g
  }

  lemma MulIs(a: Quaternion, b: Quaternion)
    ensures Mul(a, b) == Quaternion(
      MulX(a.x, a.y, a.z, a.w, b.x, b.y, b.z, b.w),
      MulY(a.x, a.y, a.z, a.w, b.x, b.y, b.z, b.w),
      MulZ(a.x, a.y, a.z, a.w, b.x, b.y, b.z, b.w),
      MulW(a.x, a.y, a.z, a.w, b.x, b.y, b.z, b.w))
  {
  }

  /** A product of three, kept out of the prover's sight where only its equality matters. */
  function Triple(a: real, b: real, c: real): real {
    a * b * c
  }

  lemma SpreadThree(x: real, a: real, b: real, c: real, d: real, e: real, f: real, g: real, h: real, k: real)
    requires x == a * b + c * d + e * f - g * h
    ensures x * k == Triple(a, b, k) + Triple(c, d, k) + Triple(e, f, k) - Triple(g, h, k)
    ensures k * x == Triple(k, a, b) + Triple(k, c, d) + Triple(k, e, f) - Triple(k, g, h)
  {
  }

  lemma SpreadOne(x: real, a: real, b: real, c: real, d: real, e: real, f: real, g: real, h: real, k: real)
    requires x == a * b - c * d - e * f - g * h
    ensures x * k == Triple(a, b, k) - Triple(c, d, k) - Triple(e, f, k) - Triple(g, h, k)
    ensures k * x == Triple(k, a, b) - Triple(k, c, d) - Triple(k, e, f) - Triple(k, g, h)
  {
  }

  // Products of three on their coordinates; the primed one is grouped to the right.

  lemma AssociativeX(a: real, b: real, c: real, d: real, e: real, f: real, g: real, h: real,
                     p: real, q: real, r: real, s: real, x: real, y: real, z: real, w: real,
                     x': real, y': real, z': real, w': real)
    requires x == MulX(a, b, c, d, e, f, g, h) && x' == MulX(e, f, g, h, p, q, r, s)
    requires y == MulY(a, b, c, d, e, f, g, h) && y' == MulY(e, f, g, h, p, q, r, s)
    requires z == MulZ(a, b, c, d, e, f, g, h) && z' == MulZ(e, f, g, h, p, q, r, s)
    requires w == MulW(a, b, c, d, e, f, g, h) && w' == MulW(e, f, g, h, p, q, r, s)
    ensures MulX(x, y, z, w, p, q, r, s) == MulX(a, b, c, d, x', y', z', w')
  {
    hide Triple;
    SpreadOne(w, d, h, a, e, b, f, c, g, p);
    SpreadThree(x, d, e, a, h, b, g, c, f, s);
    SpreadThree(y, d, f, b, h, c, e, a, g, r);
    SpreadThree(z, d, g, a, f, c, h, b, e, q);
    SpreadThree(x', h, p, e, s, f, r, g, q, d);
    SpreadOne(w', h, s, e, p, f, q, g, r, a);
    SpreadThree(z', h, r, e, q, g, s, f, p, b);
    SpreadThree(y', h, q, f, s, g, p, e, r, c);
  }

  lemma AssociativeY(a: real, b: real, c: real, d: real, e: real, f: real, g: real, h: real,
                     p: real, q: real, r: real, s: real, x: real, y: real, z: real, w: real,
                     x': real, y': real, z': real, w': real)
    requires x == MulX(a, b, c, d, e, f, g, h) && x' == MulX(e, f, g, h, p, q, r, s)
    requires y == MulY(a, b, c, d, e, f, g, h) && y' == MulY(e, f, g, h, p, q, r, s)
    requires z == MulZ(a, b, c, d, e, f, g, h) && z' == MulZ(e, f, g, h, p, q, r, s)
    requires w == MulW(a, b, c, d, e, f, g, h) && w' == MulW(e, f, g, h, p, q, r, s)
    ensures MulY(x, y, z, w, p, q, r, s) == MulY(a, b, c, d, x', y', z', w')
  {
    hide Triple;
    SpreadOne(w, d, h, a, e, b, f, c, g, q);
    SpreadThree(y, d, f, b, h, c, e, a, g, s);
    SpreadThree(z, d, g, a, f, c, h, b, e, p);
    SpreadThree(x, d, e, a, h, b, g, c, f, r);
    SpreadThree(y', h, q, f, s, g, p, e, r, d);
    SpreadOne(w', h, s, e, p, f, q, g, r, b);
    SpreadThree(x', h, p, e, s, f, r, g, q, c);
    SpreadThree(z', h, r, e, q, g, s, f, p, a);
  }

  lemma AssociativeZ(a: real, b: real, c: real, d: real, e: real, f: real, g: real, h: real,
                     p: real, q: real, r: real, s: real, x: real, y: real, z: real, w: real,
                     x': real, y': real, z': real, w': real)
    requires x == MulX(a, b, c, d, e, f, g, h) && x' == MulX(e, f, g, h, p, q, r, s)
    requires y == MulY(a, b, c, d, e, f, g, h) && y' == MulY(e, f, g, h, p, q, r, s)
    requires z == MulZ(a, b, c, d, e, f, g, h) && z' == MulZ(e, f, g, h, p, q, r, s)
    requires w == MulW(a, b, c, d, e, f, g, h) && w' == MulW(e, f, g, h, p, q, r, s)
    ensures MulZ(x, y, z, w, p, q, r, s) == MulZ(a, b, c, d, x', y', z', w')
  {
    hide Triple;
    SpreadOne(w, d, h, a, e, b, f, c, g, r);
    SpreadThree(x, d, e, a, h, b, g, c, f, q);
    SpreadThree(z, d, g, a, f, c, h, b, e, s);
    SpreadThree(y, d, f, b, h, c, e, a, g, p);
    SpreadThree(z', h, r, e, q, g, s, f, p, d);
    SpreadThree(y', h, q, f, s, g, p, e, r, a);
    SpreadOne(w', h, s, e, p, f, q, g, r, c);
    SpreadThree(x', h, p, e, s, f, r, g, q, b);
  }

  lemma AssociativeW(a: real, b: real, c: real, d: real, e: real, f: real, g: real, h: real,
                     p: real, q: real, r: real, s: real, x: real, y: real, z: real, w: real,
                     x': real, y': real, z': real, w': real)
    requires x == MulX(a, b, c, d, e, f, g, h) && x' == MulX(e, f, g, h, p, q, r, s)
    requires y == MulY(a, b, c, d, e, f, g, h) && y' == MulY(e, f, g, h, p, q, r, s)
    requires z == MulZ(a, b, c, d, e, f, g, h) && z' == MulZ(e, f, g, h, p, q, r, s)
    requires w == MulW(a, b, c, d, e, f, g, h) && w' == MulW(e, f, g, h, p, q, r, s)
    ensures MulW(x, y, z, w, p, q, r, s) == MulW(a, b, c, d, x', y', z', w')
  {
    hide Triple;
    SpreadOne(w, d, h, a, e, b, f, c, g, s);
    SpreadThree(x, d, e, a, h, b, g, c, f, p);
    SpreadThree(y, d, f, b, h, c, e, a, g, q);
    SpreadThree(z, d, g, a, f, c, h, b, e, r);
    SpreadOne(w', h, s, e, p, f, q, g, r, d);
    SpreadThree(x', h, p, e, s, f, r, g, q, a);
    SpreadThree(y', h, q, f, s, g, p, e, r, b);
    SpreadThree(z', h, r, e, q, g, s, f, p, c);
  }

  lemma MulAssociative(a: Quaternion, b: Quaternion, c: Quaternion)
    ensures Mul(Mul(a, b), c) == Mul(a, Mul(b, c))
  {
    hide Mul, MulX, MulY, MulZ, MulW;
    var u, v := Mul(a, b), Mul(b, c);
    MulIs(a, b);
    MulIs(b, c);
    MulIs(u, c);
    MulIs(a, v);
    AssociativeX(a.x, a.y, a.z, a.w, b.x, b.y, b.z, b.w, c.x, c.y, c.z, c.w, u.x, u.y, u.z, u.w, v.x, v.y, v.z, v.w);
    AssociativeY(a.x, a.y, a.z, a.w, b.x, b.y, b.z, b.w, c.x, c.y, c.z, c.w, u.x, u.y, u.z, u.w, v.x, v.y, v.z, v.w);
    AssociativeZ(a.x, a.y, a.z, a.w, b.x, b.y, b.z, b.w, c.x, c.y, c.z, c.w, u.x, u.y, u.z, u.w, v.x, v.y, v.z, v.w);
    AssociativeW(a.x, a.y, a.z, a.w, b.x, b.y, b.z, b.w, c.x, c.y, c.z, c.w, u.x, u.y, u.z, u.w, v.x, v.y, v.z, v.w);
  }

  lemma Conjugates(a: real, b: real, c: real, d: real, e: real, f: real, g: real, h: real,
                   a': real, b': real, c': real, e': real, f': real, g': real)
    requires a' == -a && b' == -b && c' == -c && e' == -e && f' == -f && g' == -g
    ensures MulX(e', f', g', h, a', b', c', d) == -MulX(a, b, c, d, e, f, g, h)
    ensures MulY(e', f', g', h, a', b', c', d) == -MulY(a, b, c, d, e, f, g, h)
    ensures MulZ(e', f', g', h, a', b', c', d) == -MulZ(a, b, c, d, e, f, g, h)
    ensures MulW(e', f', g', h, a', b', c', d) == MulW(a, b, c, d, e, f, g, h)
  {
  }

  lemma ConjugateMul(a: Quaternion, b: Quaternion)
    ensures Conjugate(Mul(a, b)) == Mul(Conjugate(b), Conjugate(a))
  {
    hide Mul, MulX, MulY, MulZ, MulW;
    var c, d := Conjugate(a), Conjugate(b);
    MulIs(a, b);
    MulIs(d, c);
    Conjugates(a.x, a.y, a.z, a.w, b.x, b.y, b.z, b.w, c.x, c.y, c.z, d.x, d.y, d.z);
  }

  lemma TimesConjugate(q: Quaternion)
    ensures Mul(q, Conjugate(q)) == Quaternion(0.0, 0.0, 0.0, NormSquared(q))
  {
  }

  lemma TimesScalar(q: Quaternion, k: real)
    ensures Mul(q, Quaternion(0.0, 0.0, 0.0, k)) == Quaternion(k * q.x, k * q.y, k * q.z, k * q.w)
  {
  }

  lemma ScaledTimesConjugate(q: Quaternion, k: real)
    ensures Mul(Quaternion(k * q.x, k * q.y, k * q.z, k * q.w), Conjugate(q)).w == k * NormSquared(q)
  {
    var n := k * NormSquared(q);
    assert n == k * q.x * q.x + k * q.y * q.y + k * q.z * q.z + k * q.w * q.w;
  }

  /** The norm of a product is the product of the norms. */
  lemma MulNorm(a: Quaternion, b: Quaternion)
    ensures NormSquared(Mul(a, b)) == NormSquared(b) * NormSquared(a)
  {
    hide Mul, NormSquared;
    var c, d := Conjugate(a), Conjugate(b);
    TimesConjugate(Mul(a, b));
    ConjugateMul(a, b);
    MulAssociative(Mul(a, b), d, c);
    MulAssociative(a, b, d);
    TimesConjugate(b);
    TimesScalar(a, NormSquared(b));
    ScaledTimesConjugate(a, NormSquared(b));
  }

  lemma Opposite(x: real, a: real, a': real)
    requires a' == -a
    ensures x * a' == -(x * a)
  {
  }

  lemma HalfThree(x: real, a: real, e: real, b: real, f: real, c: real, g: real, k: real)
    requires x == a * e + b * f - c * g
    ensures x * k == Triple(a, k, e) + Triple(b, k, f) - Triple(c, k, g)
  {
  }

  lemma HalfOne(x: real, a: real, e: real, b: real, f: real, c: real, g: real, k: real)
    requires x == -(a * e) - b * f - c * g
    ensures x * k == -Triple(a, k, e) - Triple(b, k, f) - Triple(c, k, g)
  {
  }

  lemma Swapped(a: real, b: real, v: real)
    ensures Triple(a, b, v) == Triple(b, a, v)
  {
  }

  lemma UnitTimes(a: real, b: real, c: real, d: real, e: real)
    requires a * a + b * b + c * c + d * d == 1.0
    ensures Triple(a, a, e) + Triple(b, b, e) + Triple(c, c, e) + Triple(d, d, e) == e
  {
    assert (a * a + b * b + c * c + d * d) * e == e;
  }

  lemma NoScalarPart(a: real, b: real, c: real, d: real, e: real, f: real, g: real,
                     x: real, y: real, z: real, w: real, a': real, b': real, c': real)
    requires a' == -a && b' == -b && c' == -c
    requires x == MulX(a, b, c, d, e, f, g, 0.0)
    requires y == MulY(a, b, c, d, e, f, g, 0.0)
    requires z == MulZ(a, b, c, d, e, f, g, 0.0)
    requires w == MulW(a, b, c, d, e, f, g, 0.0)
    ensures MulW(x, y, z, w, a', b', c', d) == 0.0
  {
    hide Triple;
    HalfOne(w, a, e, b, f, c, g, d);
    Opposite(x, a, a');
    HalfThree(x, d, e, b, g, c, f, a);
    Swapped(d, a, e);
    Swapped(b, a, g);
    Swapped(c, a, f);
    Opposite(y, b, b');
    HalfThree(y, d, f, c, e, a, g, b);
    Swapped(d, b, f);
    Swapped(c, b, e);
    Opposite(z, c, c');
    HalfThree(z, d, g, a, f, b, e, c);
    Swapped(d, c, g);
  }

  /** A rotated vector is a vector: the last component stays zero. */
  lemma SandwichPure(q: Quaternion, v: Vector)
    ensures Sandwich(q, Pure(v)) == Pure(Rotate(q, v))
  {
    hide Mul, MulX, MulY, MulZ, MulW;
    var u, c := Mul(q, Pure(v)), Conjugate(q);
    MulIs(q, Pure(v));
    MulIs(u, c);
    NoScalarPart(q.x, q.y, q.z, q.w, v.x, v.y, v.z, u.x, u.y, u.z, u.w, c.x, c.y, c.z);
  }

  /** Rotating by a product is rotating by the right factor and then by the left, for any quaternions. */
  lemma RotateComposes(a: Quaternion, b: Quaternion, v: Vector)
    ensures Rotate(Mul(a, b), v) == Rotate(a, Rotate(b, v))
  {
    hide Mul, Conjugate, Pure;
    var p := Pure(v);
    SandwichPure(b, v);
    SandwichPure(a, Rotate(b, v));
    SandwichPure(Mul(a, b), v);
    ConjugateMul(a, b);
    MulAssociative(a, b, p);
    MulAssociative(Mul(a, Mul(b, p)), Conjugate(b), Conjugate(a));
    MulAssociative(a, Mul(b, p), Conjugate(b));
  }

  // The rows of the matrix times the vector, on coordinates.

  lemma RowX(a: real, b: real, c: real, d: real, e: real, f: real, g: real,
             x: real, y: real, z: real, w: real, a': real, b': real, c': real)
    requires a * a + b * b + c * c + d * d == 1.0 && a' == -a && b' == -b && c' == -c
    requires x == MulX(a, b, c, d, e, f, g, 0.0)
    requires y == MulY(a, b, c, d, e, f, g, 0.0)
    requires z == MulZ(a, b, c, d, e, f, g, 0.0)
    requires w == MulW(a, b, c, d, e, f, g, 0.0)
    ensures MulX(x, y, z, w, a', b', c', d)
         == e - 2.0 * Triple(b, b, e) - 2.0 * Triple(c, c, e)
            + 2.0 * Triple(a, b, f) - 2.0 * Triple(c, d, f)
            + 2.0 * Triple(a, c, g) + 2.0 * Triple(b, d, g)
  {
    hide Triple;
    Opposite(w, a, a');
    HalfOne(w, a, e, b, f, c, g, a);
    Swapped(b, a, f);
    Swapped(c, a, g);
    HalfThree(x, d, e, b, g, c, f, d);
    Opposite(y, c, c');
    HalfThree(y, d, f, c, e, a, g, c);
    Swapped(d, c, f);
    Opposite(z, b, b');
    HalfThree(z, d, g, a, f, b, e, b);
    Swapped(d, b, g);
    UnitTimes(a, b, c, d, e);
  }

  lemma RowY(a: real, b: real, c: real, d: real, e: real, f: real, g: real,
             x: real, y: real, z: real, w: real, a': real, b': real, c': real)
    requires a * a + b * b + c * c + d * d == 1.0 && a' == -a && b' == -b && c' == -c
    requires x == MulX(a, b, c, d, e, f, g, 0.0)
    requires y == MulY(a, b, c, d, e, f, g, 0.0)
    requires z == MulZ(a, b, c, d, e, f, g, 0.0)
    requires w == MulW(a, b, c, d, e, f, g, 0.0)
    ensures MulY(x, y, z, w, a', b', c', d)
         == f - 2.0 * Triple(a, a, f) - 2.0 * Triple(c, c, f)
            + 2.0 * Triple(a, b, e) + 2.0 * Triple(c, d, e)
            + 2.0 * Triple(b, c, g) - 2.0 * Triple(a, d, g)
  {
    hide Triple;
    Opposite(w, b, b');
    HalfOne(w, a, e, b, f, c, g, b);
    Swapped(c, b, g);
    HalfThree(y, d, f, c, e, a, g, d);
    Opposite(z, a, a');
    HalfThree(z, d, g, a, f, b, e, a);
    Swapped(d, a, g);
    Swapped(b, a, e);
    Opposite(x, c, c');
    HalfThree(x, d, e, b, g, c, f, c);
    Swapped(d, c, e);
    UnitTimes(a, b, c, d, f);
  }

  lemma RowZ(a: real, b: real, c: real, d: real, e: real, f: real, g: real,
             x: real, y: real, z: real, w: real, a': real, b': real, c': real)
    requires a * a + b * b + c * c + d * d == 1.0 && a' == -a && b' == -b && c' == -c
    requires x == MulX(a, b, c, d, e, f, g, 0.0)
    requires y == MulY(a, b, c, d, e, f, g, 0.0)
    requires z == MulZ(a, b, c, d, e, f, g, 0.0)
    requires w == MulW(a, b, c, d, e, f, g, 0.0)
    ensures MulZ(x, y, z, w, a', b', c', d)
         == g - 2.0 * Triple(a, a, g) - 2.0 * Triple(b, b, g)
            + 2.0 * Triple(a, c, e) - 2.0 * Triple(b, d, e)
            + 2.0 * Triple(b, c, f) + 2.0 * Triple(a, d, f)
  {
    hide Triple;
    Opposite(w, c, c');
    HalfOne(w, a, e, b, f, c, g, c);
    Opposite(x, b, b');
    HalfThree(x, d, e, b, g, c, f, b);
    Swapped(d, b, e);
    Swapped(c, b, f);
    HalfThree(z, d, g, a, f, b, e, d);
    Opposite(y, a, a');
    HalfThree(y, d, f, c, e, a, g, a);
    Swapped(d, a, f);
    Swapped(c, a, e);
    UnitTimes(a, b, c, d, g);
  }

  lemma DiagonalTimes(a: real, b: real, e: real)
    ensures Diagonal(a, b) * e == e - 2.0 * Triple(a, a, e) - 2.0 * Triple(b, b, e)
  {
  }

  lemma PlusTimes(a: real, b: real, c: real, d: real, e: real)
    ensures Plus(a, b, c, d) * e == 2.0 * Triple(a, b, e) + 2.0 * Triple(c, d, e)
  {
  }

  lemma MinusTimes(a: real, b: real, c: real, d: real, e: real)
    ensures Minus(a, b, c, d) * e == 2.0 * Triple(a, b, e) - 2.0 * Triple(c, d, e)
  {
  }

  lemma MatrixX(q: Quaternion, v: Vector)
    ensures InnerProduct(MatrixOf(q).r0, v)
         == v.x - 2.0 * Triple(q.y, q.y, v.x) - 2.0 * Triple(q.z, q.z, v.x)
            + 2.0 * Triple(q.x, q.y, v.y) - 2.0 * Triple(q.z, q.w, v.y)
            + 2.0 * Triple(q.x, q.z, v.z) + 2.0 * Triple(q.y, q.w, v.z)
  {
    hide Triple, Diagonal, Plus, Minus;
    DiagonalTimes(q.y, q.z, v.x);
    MinusTimes(q.x, q.y, q.z, q.w, v.y);
    PlusTimes(q.x, q.z, q.y, q.w, v.z);
  }

  lemma MatrixY(q: Quaternion, v: Vector)
    ensures InnerProduct(MatrixOf(q).r1, v)
         == v.y - 2.0 * Triple(q.x, q.x, v.y) - 2.0 * Triple(q.z, q.z, v.y)
            + 2.0 * Triple(q.x, q.y, v.x) + 2.0 * Triple(q.z, q.w, v.x)
            + 2.0 * Triple(q.y, q.z, v.z) - 2.0 * Triple(q.x, q.w, v.z)
  {
    hide Triple, Diagonal, Plus, Minus;
    PlusTimes(q.x, q.y, q.z, q.w, v.x);
    DiagonalTimes(q.x, q.z, v.y);
    MinusTimes(q.y, q.z, q.x, q.w, v.z);
  }

  lemma MatrixZ(q: Quaternion, v: Vector)
    ensures InnerProduct(MatrixOf(q).r2, v)
         == v.z - 2.0 * Triple(q.x, q.x, v.z) - 2.0 * Triple(q.y, q.y, v.z)
            + 2.0 * Triple(q.x, q.z, v.x) - 2.0 * Triple(q.y, q.w, v.x)
            + 2.0 * Triple(q.y, q.z, v.y) + 2.0 * Triple(q.x, q.w, v.y)
  {
    hide Triple, Diagonal, Plus, Minus;
    MinusTimes(q.x, q.z, q.y, q.w, v.x);
    PlusTimes(q.y, q.z, q.x, q.w, v.y);
    DiagonalTimes(q.x, q.y, v.z);
  }

  /** For a unit quaternion rotating is multiplying by its matrix. */
  lemma RotateIsMatrix(q: Quaternion, v: Vector)
    requires NormSquared(q) == 1.0
    ensures Rotate(q, v) == Times(MatrixOf(q), v)
  {
    var u, c := Mul(q, Pure(v)), Conjugate(q);
    hide Mul, MulX, MulY, MulZ, MulW, InnerProduct, MatrixOf, Diagonal, Plus, Minus, Triple;
    MulIs(q, Pure(v));
    MulIs(u, c);
    RowX(q.x, q.y, q.z, q.w, v.x, v.y, v.z, u.x, u.y, u.z, u.w, c.x, c.y, c.z);
    RowY(q.x, q.y, q.z, q.w, v.x, v.y, v.z, u.x, u.y, u.z, u.w, c.x, c.y, c.z);
    RowZ(q.x, q.y, q.z, q.w, v.x, v.y, v.z, u.x, u.y, u.z, u.w, c.x, c.y, c.z);
    MatrixX(q, v);
    MatrixY(q, v);
    MatrixZ(q, v);
  }

  lemma Grouped(a: real, b: real, c: real, d: real)
    ensures 2.0 * a * b + 2.0 * c * d == 2.0 * (a * b + c * d)
    ensures 2.0 * a * b - 2.0 * c * d == 2.0 * (a * b - c * d)
    ensures 1.0 - 2.0 * a * a - 2.0 * b * b == 1.0 - 2.0 * (a * a + b * b)
  {
  }

  /** The matrices of the two programs are the same. */
  lemma MatricesAgree(q: Quaternion)
    ensures MatrixOf(q) == MagneticMatrix(q.w, q.x, q.y, q.z)
  {
    Grouped(q.x, q.y, q.z, q.w);
    Grouped(q.x, q.z, q.y, q.w);
    Grouped(q.y, q.z, q.x, q.w);
  }

  lemma Divided(a: real, n: real, x: real)
    requires n > 0.0 && x == a / n
    ensures x * n == a
  {
  }

  lemma UnitSum(a: real, b: real, c: real, d: real, n: real, m: real, x: real, y: real, z: real, w: real, t: real)
    requires n > 0.0 && x * n == a && y * n == b && z * n == c && w * n == d
    requires m == n * n && m == a * a + b * b + c * c + d * d && t == x * x + y * y + z * z + w * w
    ensures t == 1.0
  {
    hide Triple;
    SquareScaled(a, n, m, x);
    SquareScaled(b, n, m, y);
    SquareScaled(c, n, m, z);
    SquareScaled(d, n, m, w);
    L.SquareSign(n, m);
    SumScaled(t, x, y, z, w, m);
    UnitOf(m, t);
  }

  lemma SumScaled(t: real, x: real, y: real, z: real, w: real, m: real)
    requires t == x * x + y * y + z * z + w * w
    ensures t * m == Triple(x, x, m) + Triple(y, y, m) + Triple(z, z, m) + Triple(w, w, m)
  {
  }

  lemma UnitOf(m: real, t: real)
    requires m > 0.0 && t * m == m
    ensures t == 1.0
  {
    assert m * (t - 1.0) == 0.0;
  }

  lemma SquareScaled(a: real, n: real, m: real, x: real)
    requires x * n == a && m == n * n
    ensures a * a == Triple(x, x, m)
  {
  }

  function Quotient(q: Quaternion, n: real): Quaternion
    requires n != 0.0
  {
    Quaternion(q.x / n, q.y / n, q.z / n, q.w / n)
  }

  lemma QuotientIsUnit(q: Quaternion, n: real)
    requires IsNorm(n, q) && n > 0.0
    ensures NormSquared(Quotient(q, n)) == 1.0
  {
    var x, y, z, w := q.x / n, q.y / n, q.z / n, q.w / n;
    Divided(q.x, n, x);
    Divided(q.y, n, y);
    Divided(q.z, n, z);
    Divided(q.w, n, w);
    UnitSum(q.x, q.y, q.z, q.w, n, n * n, x, y, z, w, NormSquared(Quotient(q, n)));
  }

  /** Normalising yields a unit quaternion, also for one too small to divide by its norm. */
  lemma NormalisedIsUnit(q: Quaternion, n: real)
    requires IsNorm(n, q)
    ensures NormSquared(Normalised(q, n)) == 1.0
    ensures n > 1e-12 ==> Normalised(q, n) == Quotient(q, n)
  {
    if n > 1e-12 {
      QuotientIsUnit(q, n);
    }
  }

  /** q_rotate by the normalised quaternion is q_to_R times the vector; a unit quaternion is left as it is. */
  lemma RotateIsToMatrix(q: Quaternion, n: real, v: Vector)
    requires IsNorm(n, q)
    ensures Rotate(Normalised(q, n), v) == Times(ToMatrix(q, n), v)
    ensures NormSquared(q) == 1.0 ==> Normalised(q, n) == q
  {
    hide Rotate, Times, MatrixOf, NormSquared, Normalised;
    NormalisedIsUnit(q, n);
    RotateIsMatrix(Normalised(q, n), v);
    if NormSquared(q) == 1.0 {
      UnitRoot(n, n * n);
      NormalisedByOne(q);
    }
  }

  lemma NormalisedByOne(q: Quaternion)
    ensures Normalised(q, 1.0) == q
  {
  }

  lemma UnitRoot(n: real, m: real)
    requires n >= 0.0 && m == n * n && m == 1.0
    ensures n == 1.0
  {
    if n > 1.0 {
      L.ProductSign(n, n - 1.0, m - n);
    } else if n < 1.0 {
      L.ProductSign(n, 1.0 - n, n - m);
    }
  }

  lemma RotateLength(q: Quaternion, v: Vector)
    ensures LengthSquared(Rotate(q, v)) == NormSquared(q) * NormSquared(q) * LengthSquared(v)
  {
    SandwichPure(q, v);
    MulNorm(Mul(q, Pure(v)), Conjugate(q));
    MulNorm(q, Pure(v));
  }

  lemma DeclinedLength(v: Vector, c: real, s: real)
    requires c * c + s * s == 1.0
    ensures LengthSquared(Declined(v, c, s)) == LengthSquared(v)
  {
  }

  /**
   The rotation into true east, north and up, declination and all, is the rotation by the
   normalised quaternion followed by a turn about the vertical, and keeps the length of every vector.
   */
  lemma TrueEnuIsRotation(w: real, i: real, j: real, k: real, a: Vector, n: real, c: real, s: real)
    requires IsNorm(n, Quaternion(i, j, k, w)) && c * c + s * s == 1.0
    ensures ToTrueEnu(w, i, j, k, a, n, c, s).None? <==> n < 1e-12
    ensures n >= 1e-12 ==>
      var r := ToTrueEnu(w, i, j, k, a, n, c, s).value;
      && r == Declined(Rotate(Quotient(Quaternion(i, j, k, w), n), a), c, s)
      && LengthSquared(r) == LengthSquared(a)
  {
    var q := Quaternion(i, j, k, w);
    if n >= 1e-12 {
      var u := Quotient(q, n);
      QuotientIsUnit(q, n);
      hide Rotate, MagneticMatrix, MatrixOf, Declined, LengthSquared, NormSquared;
      RotateIsMatrix(u, a);
      MatricesAgree(u);
      RotateLength(u, a);
      DeclinedLength(Rotate(u, a), c, s);
    }
  }

  // ---------- headings ----------

  /** The two arguments of atan2 in Calculate_Magnetic_Heading, after its division by the norm. */
  function HeadingArguments(w: real, i: real, j: real, k: real): (real, real) {
    (2.0 * (i * j - k * w), 1.0 - 2.0 * (i * i + k * k))
  }

  /** They are the east and the north part of the rotated +Y axis. */
  lemma HeadingIsForwardAxis(q: Quaternion)
    requires NormSquared(q) == 1.0
    ensures var forward := Rotate(q, Vector(0.0, 1.0, 0.0));
      HeadingArguments(q.w, q.x, q.y, q.z) == (forward.x, forward.y)
  {
    RotateIsMatrix(q, Vector(0.0, 1.0, 0.0));
    MatricesAgree(q);
    hide Rotate, MatrixOf;
  }

  /**
   Turning the forward axis to true north adds the declination to its heading: with the heading's
   sine and cosine sh and ch, the result has those of the sum of the angles.
   */
  lemma DeclinationAdds(v: Vector, rho: real, sh: real, ch: real, c: real, s: real)
    requires v.x == rho * sh && v.y == rho * ch
    ensures Declined(v, c, s).x == rho * (sh * c + ch * s)
    ensures Declined(v, c, s).y == rho * (ch * c - sh * s)
  {
  }

  /** The sum of heading and declination, brought back into the circle by its two loops. */
  method MagneticToTrueHeading(magneticHeading: real, declinationAngle: real) returns (r: Option<real>)
    ensures r.None? <==> !(0.0 <= magneticHeading < 360.0 && -180.0 <= declinationAngle < 180.0)
    ensures r.Some? ==> 0.0 <= r.value < 360.0 && SameDirection(magneticHeading + declinationAngle, r.value)
  {
    if magneticHeading < 0.0 || magneticHeading >= 360.0 || declinationAngle < -180.0 || declinationAngle >= 180.0 {
      return None;
    }
    var heading := magneticHeading + declinationAngle;
    ghost var turns := 0;
    while heading < 0.0
      invariant TurnedBy(magneticHeading + declinationAngle, heading, turns) && heading < 540.0
      decreases -(heading / 360.0).Floor
    {
      heading := heading + 360.0;
      turns := turns + 1;
    }
    while heading >= 360.0
      invariant TurnedBy(magneticHeading + declinationAngle, heading, turns) && heading >= 0.0
      decreases (heading / 360.0).Floor
    {
      heading := heading - 360.0;
      turns := turns - 1;
    }
    r := Some(heading);
  }

  predicate TurnedBy(a: real, b: real, turns: int) {
    b == a + 360.0 * (turns as real)
  }

  ghost predicate SameDirection(a: real, b: real) {
    exists turns: int :: TurnedBy(a, b, turns)
  }

  // ---------- the rotation that belongs to a sample ----------

  function Distance(a: real, b: real): real {
    if a >= b then a - b else b - a
  }

  predicate Sorted(t: seq<real>) {
    forall a, b :: 0 <= a < b < |t| ==> t[a] <= t[b]
  }

  /** bisect_left */
  method BisectLeft(t: seq<real>, x: real) returns (j: nat)
    requires Sorted(t)
    ensures j <= |t| && (forall k :: 0 <= k < j ==> t[k] < x) && (forall k :: j <= k < |t| ==> t[k] >= x)
  {
    var lo, hi := 0, |t|;
    while lo < hi
      invariant 0 <= lo <= hi <= |t|
      invariant (forall k :: 0 <= k < lo ==> t[k] < x) && (forall k :: hi <= k < |t| ==> t[k] >= x)
    {
      var mid := (lo + hi) / 2;
      if t[mid] < x {
        lo := mid + 1;
      } else {
        hi := mid;
      }
    }
    j := lo;
  }

  /** The sample nearest in time, if there is one within maxDt. */
  method NearestRotation(t: seq<real>, x: real, maxDt: real) returns (best: Option<nat>)
    requires Sorted(t)
    ensures best.Some? ==> best.value < |t| && Distance(t[best.value], x) <= maxDt
    ensures best.Some? ==> forall k :: 0 <= k < |t| ==> Distance(t[best.value], x) <= Distance(t[k], x)
    ensures best.None? ==> forall k :: 0 <= k < |t| ==> Distance(t[k], x) > maxDt
  {
    var j := BisectLeft(t, x);
    best := None;
    var bestDt := 0.0;
    var idx: int := j - 1;
    while idx <= j
      invariant j - 1 <= idx <= j + 1
      invariant best.None? ==> idx == j - 1 || (j == 0 && (idx == 0 || |t| == 0))
      invariant best.Some? ==> best.value < |t| && bestDt == Distance(t[best.value], x)
      invariant best.Some? && 0 < j && j - 1 < idx ==> bestDt <= Distance(t[j - 1], x)
      invariant best.Some? && j < |t| && j < idx ==> bestDt <= Distance(t[j], x)
    {
      if 0 <= idx < |t| {
        var dt := Distance(t[idx], x);
        if best.None? || dt < bestDt {
          best := Some(idx);
          bestDt := dt;
        }
      }
      idx := idx + 1;
    }
    if best.None? || bestDt > maxDt {
      best := None;
    }
  }

  /** Two turns by declinations are one by their sum, and none is no turn. */
  lemma DeclinationsCompose(v: Vector, c: real, s: real, c': real, s': real)
    ensures Declined(Declined(v, c, s), c', s') == Declined(v, c' * c - s' * s, c' * s + s' * c)
    ensures Declined(v, 1.0, 0.0) == v
  {
    var x, y := v.x, v.y;
    assert c' * (c * x + s * y) + s' * (-s * x + c * y) == (c' * c - s' * s) * x + (c' * s + s' * c) * y;
    assert -s' * (c * x + s * y) + c' * (-s * x + c * y) == -(c' * s + s' * c) * x + (c' * c - s' * s) * y;
  }

  /** The quaternion of a quarter turn about the vertical turns east to north and north to west. */
  lemma QuarterTurn(r: real)
    requires r * r == 0.5
    ensures Rotate(Quaternion(0.0, 0.0, r, r), Vector(1.0, 0.0, 0.0)) == Vector(0.0, 1.0, 0.0)
    ensures Rotate(Quaternion(0.0, 0.0, r, r), Vector(0.0, 1.0, 0.0)) == Vector(-1.0, 0.0, 0.0)
  {
  }
}
