/**
 Machine words and polynomials over GF(2), both as the set of positions of their one bits:
 exclusive or is the sum of polynomials, and a shift is multiplication by a power of x.
 */
module BitAlgebra {

  type Bits = set<nat>

  function Xor(a: Bits, b: Bits): Bits {
    (a - b) + (b - a)
  }

  ghost predicate Below(a: Bits, n: nat) {
    forall i :: i in a ==> i < n
  }

  /** a * x^k */
  function Shift(a: Bits, k: nat): (r: Bits)
    ensures forall j :: j in r <==> j >= k && j - k in a
  {
    var r := set i | i in a :: i + k;
    assert forall j {:trigger j in r} :: j >= k && j - k in a ==> j in r by {
      forall j | j >= k && j - k in a ensures j in r {
        var i := j - k;
        assert i in a && i + k == j;
      }
    }
    r
  }

  /** The low n bits. */
  function Low(a: Bits, n: nat): Bits {
    set i | i in a && i < n
  }

  /** The value of a byte. */
  function Number(b: Bits): nat {
    (if 0 in b then 1 else 0) + (if 1 in b then 2 else 0) + (if 2 in b then 4 else 0) + (if 3 in b then 8 else 0)
    + (if 4 in b then 16 else 0) + (if 5 in b then 32 else 0) + (if 6 in b then 64 else 0) + (if 7 in b then 128 else 0)
  }

  /** The shifts of the C language on a word of len bits. */
  function ShiftLeft(a: Bits, k: nat, len: nat): Bits {
    Low(Shift(a, k), len)
  }

  function ShiftRight(a: Bits, k: nat): (r: Bits)
    ensures forall j: nat {:trigger j in r} :: j in r <==> j + k in a
  {
    var r := set i | i in a && i >= k :: i - k;
    assert forall j: nat {:trigger j in r} :: j + k in a ==> j in r by {
      forall j: nat | j + k in a ensures j in r {
        var i := j + k;
        assert i in a && i >= k && i - k == j;
      }
    }
    r
  }

  /** The word with its low n bits set. */
  function Ones(n: nat): (r: Bits)
    ensures forall j: nat {:trigger j in r} :: j in r <==> j < n
  {
    if n == 0 then {} else Ones(n - 1) + {n - 1}
  }

  /** One less, on a word of len bits; the borrow runs through the low zeros. */
  function MinusOne(a: Bits, len: nat): Bits
    decreases len
  {
    if len == 0 then {}
    else if 0 in a then a - {0}
    else {0} + Shift(MinusOne(ShiftRight(a, 1), len - 1), 1)
  }

  lemma OnesShifted(k: nat)
    ensures {0} + Shift(Ones(k), 1) == Ones(k + 1)
  {
    hide Shift, Ones;
  }

  lemma PowerShifted(k: nat)
    requires k > 0
    ensures ShiftRight({k}, 1) == {k - 1}
  {
    hide ShiftRight;
  }

  lemma {:induction false} PowerMinusOne(k: nat, len: nat)
    requires k < len
    ensures MinusOne({k}, len) == Ones(k)
    decreases k
  {
    hide Shift, ShiftRight;
    if k > 0 {
      PowerShifted(k);
      PowerMinusOne(k - 1, len - 1);
      OnesShifted(k - 1);
    } else {
      assert {k} - {0} == Ones(0);
    }
  }

  lemma XorLaws(a: Bits, b: Bits, c: Bits)
    ensures Xor(a, b) == Xor(b, a)
    ensures Xor(Xor(a, b), c) == Xor(a, Xor(b, c))
    ensures Xor(a, {}) == a && Xor(a, a) == {}
  {
  }

  lemma ShiftXor(a: Bits, b: Bits, k: nat)
    ensures Shift(Xor(a, b), k) == Xor(Shift(a, k), Shift(b, k))
  {
  }

  lemma ShiftTwice(a: Bits, j: nat, k: nat)
    ensures Shift(Shift(a, j), k) == Shift(a, j + k)
    ensures Shift(a, 0) == a
  {
  }

  // ---------- weight ----------

  lemma {:induction false} ShiftWeight(a: Bits, k: nat)
    ensures |Shift(a, k)| == |a|
    decreases |a|
  {
    if a == {} {
      assert Shift(a, k) == {};
    } else {
      var i :| i in a;
      ShiftWeight(a - {i}, k);
      assert Shift(a, k) == Shift(a - {i}, k) + {i + k};
    }
  }

  /** The weight of a sum is even or odd with the sum of the weights. */
  lemma XorWeight(a: Bits, b: Bits)
    ensures |Xor(a, b)| % 2 == (|a| + |b|) % 2
  {
    assert a == (a - b) + a * b && b == (b - a) + a * b;
    assert |a| == |a - b| + |a * b| && |b| == |b - a| + |a * b|;
    assert |Xor(a, b)| == |a - b| + |b - a|;
  }

  // ---------- polynomials ----------

  /** The polynomial with the given coefficients, highest first. */
  function Poly(bits: seq<bool>): Bits {
    if bits == [] then {}
    else Xor(Shift(Poly(bits[..|bits| - 1]), 1), if bits[|bits| - 1] then {0} else {})
  }

  /** The product of the polynomial with coefficients q, highest first, and g. */
  function Mul(q: seq<bool>, g: Bits): Bits {
    if q == [] then {}
    else Xor(Shift(Mul(q[..|q| - 1], g), 1), if q[|q| - 1] then g else {})
  }

  lemma PolyAppend(bits: seq<bool>, b: bool)
    ensures Poly(bits + [b]) == Xor(Shift(Poly(bits), 1), if b then {0} else {})
  {
    assert (bits + [b])[..|bits|] == bits;
  }

  lemma MulAppend(q: seq<bool>, b: bool, g: Bits)
    ensures Mul(q + [b], g) == Xor(Shift(Mul(q, g), 1), if b then g else {})
  {
    assert (q + [b])[..|q|] == q;
  }

  function XorSeq(p: seq<bool>, q: seq<bool>): (r: seq<bool>)
    requires |p| == |q|
    ensures |r| == |p|
  {
    seq(|p|, i requires 0 <= i < |p| => p[i] != q[i])
  }

  lemma {:induction false} MulXor(p: seq<bool>, q: seq<bool>, g: Bits)
    requires |p| == |q|
    ensures Mul(XorSeq(p, q), g) == Xor(Mul(p, g), Mul(q, g))
  {
    if p != [] {
      var n := |p| - 1;
      assert XorSeq(p, q)[..n] == XorSeq(p[..n], q[..n]);
      MulXor(p[..n], q[..n], g);
    }
  }

  /** A product with a polynomial of degree w is zero or has a term of degree w or more. */
  lemma {:induction false} MulDegree(q: seq<bool>, g: Bits, w: nat)
    requires w in g && Below(g, w + 1)
    ensures Mul(q, g) == {} || exists i :: i in Mul(q, g) && i >= w
  {
    if q != [] {
      var m := Mul(q[..|q| - 1], g);
      MulDegree(q[..|q| - 1], g, w);
      if m == {} {
        assert Shift(m, 1) == {};
        if q[|q| - 1] {
          assert w in Mul(q, g);
        }
      } else {
        var i :| i in m && i >= w;
        assert i + 1 in Mul(q, g);
      }
    }
  }

  /** r is the remainder of a modulo g, a polynomial of degree w. */
  ghost predicate IsRemainder(a: Bits, g: Bits, w: nat, r: Bits) {
    Below(r, w) && exists q: seq<bool> :: a == Xor(Mul(q, g), r)
  }

  /** Quotients of different lengths are compared after padding with leading zeros. */
  lemma {:induction false} MulPadded(q: seq<bool>, g: Bits)
    ensures Mul([false] + q, g) == Mul(q, g)
  {
    if q == [] {
      assert [false] + q == [] + [false];
      MulAppend([], false, g);
      assert Shift({}, 1) == {};
    } else {
      var n := |q| - 1;
      assert [false] + q == ([false] + q[..n]) + [q[n]];
      MulAppend([false] + q[..n], q[n], g);
      MulPadded(q[..n], g);
    }
  }

  lemma {:induction false} PadTo(q: seq<bool>, g: Bits, n: nat) returns (p: seq<bool>)
    requires n >= |q|
    ensures |p| == n && Mul(p, g) == Mul(q, g)
    decreases n - |q|
  {
    if n == |q| {
      p := q;
    } else {
      MulPadded(q, g);
      p := PadTo([false] + q, g, n);
    }
  }

  /** There is only one remainder. */
  lemma RemainderUnique(a: Bits, g: Bits, w: nat, r: Bits, s: Bits)
    requires w in g && Below(g, w + 1)
    requires IsRemainder(a, g, w, r) && IsRemainder(a, g, w, s)
    ensures r == s
  {
    hide Mul;
    var p: seq<bool> :| a == Xor(Mul(p, g), r);
    var q: seq<bool> :| a == Xor(Mul(q, g), s);
    var n := if |p| >= |q| then |p| else |q|;
    var p' := PadTo(p, g, n);
    var q' := PadTo(q, g, n);
    MulXor(p', q', g);
    MulDegree(XorSeq(p', q'), g, w);
    var d := Xor(Mul(p, g), Mul(q, g));
    assert d == Xor(r, s);
    assert d == {};
  }
}
