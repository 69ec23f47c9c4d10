/**
 The table of Legendre derivatives that MagneticDeclination fills in place, and the functions
 that read it.  Its doubles are exact reals here.
 */
module LegendreTable {
  import opened Polynomials
  import opened Legendre

  method FallingFactorial(n: int, m: int) returns (result: real)
    ensures result == Falling(n as real, if m < 0 then 0 else m)
  {
    if m == 0 {
      return 1.0;
    }
    result := 1.0;
    var i := 0;
    while i < m
      invariant 0 <= i <= if m < 0 then 0 else m
      invariant result == Falling(n as real, i)
    {
      FallingUnfold(n as real, i, (n - i) as real);
      result := result * ((n - i) as real);
      i := i + 1;
    }
  }

  /** The quotient of two falling factorials is exactly the number of combinations. */
  method Binomial(n: int, r: int) returns (b: real)
    ensures b == if 0 <= r <= n then Choose(n, r) as real else 0.0
  {
    if r < 0 || r > n {
      return 0.0;
    }
    hide Choose, Falling, Factorial;
    var s := if r <= n - r then r else n - r;
    var over := FallingFactorial(n, s);
    var under := FallingFactorial(s, s);
    ghost var c := Choose(n, s) as real;
    FallingPositive(s, s);
    ChooseSymmetric(n, r);
    FallingIsChoose(n, s, c, under);
    b := over / under;
    Quotient(over, under);
    Cancel(under, b, c);
  }

  method Power(x: real, exponent: nat) returns (r: real)
    ensures r == Pow(x, exponent)
  {
    r := 1.0;
    for i := 0 to exponent
      invariant r == Pow(x, i)
    {
      r := x * r;
    }
  }

  /** The sum over k for one entry of the table; every exponent of x is a natural number. */
  method CombinatorialSum(l: nat, m: nat, x: real) returns (combinatorialSum: real)
    requires m <= l
    ensures combinatorialSum * Factorial(l) == PartialSum(DerivN(BasePower(l), l + m), x, l - m + 2)
  {
    hide Factorial, PartialSum, BasePower, DerivN, Choose, Falling, Pow, Term;
    combinatorialSum := 0.0;
    var k := (l + m + 1) / 2;
    SumStart(l, m, x, 2 * k - l - m);
    while k <= l
      invariant l + m <= 2 * k && k <= l + 1
      invariant combinatorialSum * Factorial(l) == PartialSum(DerivN(BasePower(l), l + m), x, 2 * k - l - m)
    {
      var twoKL := 2 * k - l;
      var exponent := twoKL - m;
      var sign := if (k + l) % 2 == 0 then 1.0 else -1.0;
      var b := Binomial(2 * k, l);
      var c := Binomial(l, k);
      var factorialTerm := sign * b * c;
      var f := FallingFactorial(twoKL, m);
      var y := Power(x, exponent);
      TermOfLoop(l, m, k, x, sign, b, c, f, y);
      SumStep(l, m, k, x, exponent, combinatorialSum, Factorial(l));
      combinatorialSum := combinatorialSum + factorialTerm * f * y;
      k := k + 1;
    }
  }

  lemma TermOfLoop(l: nat, m: nat, k: nat, x: real, sign: real, b: real, c: real, f: real, y: real)
    requires l + m <= 2 * k && sign == if (k + l) % 2 == 0 then 1.0 else -1.0
    requires b == Choose(2 * k, l) as real && c == Choose(l, k) as real
    requires f == Falling((2 * k - l) as real, m) && y == Pow(x, 2 * k - l - m)
    ensures sign * b * c * f * y == Term(l, m, k, x)
  {
    hide Choose, Falling, Pow;
    var a := Alternating(l, k);
    assert sign * b * c == a * b;
    TermIs(l, m, k, x, a, b, f, y);
  }

  // ---------- the table ----------

  function Index(cols: nat, l: nat, m: nat): nat {
    cols * l + m
  }

  lemma IndexBelow(cols: nat, rows: nat, l: nat, m: nat)
    requires l < rows && m < cols
    ensures Index(cols, l, m) < rows * cols
    ensures Index(cols, l + 1, 0) == Index(cols, l, 0) + cols
  {
    assert cols * l + cols == cols * (l + 1) <= cols * rows;
  }

  /** Row by row, the entries are those of Rodrigues' formula at x. */
  ghost predicate IsTable(t: seq<real>, cols: nat, rows: nat, x: real) {
    forall l: nat, m: nat :: l < rows && m < cols ==>
      Index(cols, l, m) < |t| && t[Index(cols, l, m)] == Rodrigues(l, m, x)
  }

  lemma SameIndex(cols: nat, l: nat, m: nat, l': nat, m': nat)
    requires m < cols && m' < cols && Index(cols, l, m) == Index(cols, l', m')
    ensures l == l' && m == m'
  {
    if l > l' {
      RowsApart(cols, l', l);
    } else if l < l' {
      RowsApart(cols, l, l');
    }
  }

  lemma RowsApart(cols: nat, l: nat, l': nat)
    requires l < l'
    ensures Index(cols, l', 0) >= Index(cols, l, 0) + cols
  {
    var d := l' - l - 1;
    assert cols * l' == cols * l + cols + cols * d;
  }

  class Declination {
    var matrix: array<real>

    constructor ()
      ensures fresh(matrix) && matrix.Length == 13 * 13 && forall j :: 0 <= j < 13 * 13 ==> matrix[j] == 0.0
    {
      matrix := new real[13 * 13](_ => 0.0);
    }

    method CalculateDerivatives(M: nat, L: nat, x: real)
      modifies this`matrix
      ensures fresh(matrix) && matrix.Length == (L + 1) * (M + 1)
      ensures IsTable(matrix[..], M + 1, L + 1, x)
    {
      var rows, cols := L + 1, M + 1;
      IndexBelow(cols, rows, 0, 0);
      var table := new real[rows * cols](_ => 0.0);
      table[Index(cols, 0, 0)] := 1.0;
      FirstRow(x);
      forall m: nat | 0 < m < cols
        ensures Index(cols, 0, m) < table.Length && table[Index(cols, 0, m)] == Rodrigues(0, m, x)
      {
        AboveDiagonal(0, m, x);
        IndexBelow(cols, rows, 0, m);
      }
      var l := 1;
      while l <= L
        invariant 1 <= l <= L + 1
        invariant IsTable(table[..], cols, l, x)
      {
        FillRow(table, cols, rows, l, x);
        l := l + 1;
      }
      matrix := table;
    }
  }

  /** The loop over m: one row is filled, the rows before it stay. */
  method FillRow(table: array<real>, cols: nat, rows: nat, l: nat, x: real)
    requires 0 < l < rows && cols > 0 && table.Length == rows * cols && IsTable(table[..], cols, l, x)
    modifies table
    ensures IsTable(table[..], cols, l + 1, x)
  {
    hide Factorial, PartialSum, BasePower, DerivN, Pow, Rodrigues;
    var twoToTheL := Power(2.0, l);
    var m := 0;
    while m < cols
      invariant m <= cols
      invariant IsTable(table[..], cols, l, x)
      invariant forall m': nat :: m' < m ==>
        Index(cols, l, m') < table.Length && table[Index(cols, l, m')] == Rodrigues(l, m', x)
    {
      var combinatorialSum := 0.0;
      if m <= l {
        combinatorialSum := CombinatorialSum(l, m, x);
        SumEnd(l, m, x, combinatorialSum, Factorial(l));
      } else {
        AboveDiagonal(l, m, x);
      }
      IndexBelow(cols, rows, l, m);
      forall l': nat, m': nat | m' < cols && Index(cols, l', m') == Index(cols, l, m) ensures l' == l && m' == m {
        SameIndex(cols, l, m, l', m');
      }
      table[Index(cols, l, m)] := combinatorialSum / twoToTheL;
      m := m + 1;
    }
  }
}
