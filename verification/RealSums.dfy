/** Finite sums of reals over an index range. */
module RealSums {

  function Sum(f: nat -> real, n: nat): real {
    if n == 0 then 0.0 else Sum(f, n - 1) + f(n - 1)
  }

  function Abs(x: real): real { if x < 0.0 then -x else x }

  lemma {:induction false} SumEqual(f: nat -> real, g: nat -> real, n: nat)
    requires forall i: nat | i < n :: f(i) == g(i)
    ensures Sum(f, n) == Sum(g, n)
  {
    if n > 0 { SumEqual(f, g, n - 1); }
  }

  lemma {:induction false} SumMonotone(f: nat -> real, g: nat -> real, n: nat)
    requires forall i: nat | i < n :: f(i) <= g(i)
    ensures Sum(f, n) <= Sum(g, n)
  {
    if n > 0 { SumMonotone(f, g, n - 1); }
  }

  lemma {:induction false} SumZero(f: nat -> real, n: nat)
    requires forall i: nat | i < n :: f(i) == 0.0
    ensures Sum(f, n) == 0.0
  {
    if n > 0 { SumZero(f, n - 1); }
  }

  lemma {:induction false} SumNonNegative(f: nat -> real, n: nat)
    requires forall i: nat | i < n :: f(i) >= 0.0
    ensures Sum(f, n) >= 0.0
    ensures Sum(f, n) == 0.0 ==> forall i: nat | i < n :: f(i) == 0.0
  {
    if n > 0 { SumNonNegative(f, n - 1); }
  }

  function Scale(c: real, x: real): real { c * x }

  lemma ScaleDistributes(c: real, x: real, y: real)
    ensures Scale(c, x + y) == Scale(c, x) + Scale(c, y)
    ensures Scale(c, x - y) == Scale(c, x) - Scale(c, y)
  {
    assert c * (x + y) == c * x + c * y;
    assert c * (x - y) == c * x - c * y;
  }

  lemma ScaleUnits(c: real, x: real)
    ensures Scale(c, 0.0) == 0.0 == Scale(0.0, x) && Scale(1.0, x) == x == Scale(x, 1.0)
  {
  }

  lemma ScaleSign(c: real, x: real)
    requires c >= 0.0 && x >= 0.0
    ensures Scale(c, x) >= 0.0
  {
  }

  lemma ScaleCancels(c: real, x: real)
    requires c != 0.0 && Scale(c, x) == c
    ensures x == 1.0
  {
    assert x == (c * x) / c;
  }

  lemma ScaleLaws(c: real, x: real, y: real)
    ensures Scale(c, x + y) == Scale(c, x) + Scale(c, y)
    ensures Scale(c, x - y) == Scale(c, x) - Scale(c, y)
    ensures Scale(c, 0.0) == 0.0 == Scale(0.0, x) && Scale(1.0, x) == x
    ensures c >= 0.0 && x <= y ==> Scale(c, x) <= Scale(c, y)
    ensures c >= 0.0 && x >= 0.0 ==> Scale(c, x) >= 0.0
    ensures c >= 0.0 ==> Abs(Scale(c, x)) == Scale(c, Abs(x))
  {
    hide Scale;
    ScaleDistributes(c, x, y);
    ScaleDistributes(c, y, x);
    ScaleDistributes(c, 0.0, x);
    ScaleUnits(c, x);
    if c >= 0.0 && x <= y { ScaleSign(c, y - x); }
    if c >= 0.0 { ScaleSign(c, Abs(x)); }
  }

  /** `h` is pointwise `c * f`. */
  lemma {:induction false} SumScale(h: nat -> real, c: real, f: nat -> real, n: nat)
    requires forall i: nat | i < n :: h(i) == Scale(c, f(i))
    ensures Sum(h, n) == Scale(c, Sum(f, n))
  {
    if n == 0 {
      ScaleLaws(c, 0.0, 0.0);
    } else {
      ScaleLaws(c, Sum(f, n - 1), f(n - 1));
      hide Scale;
      SumScale(h, c, f, n - 1);
    }
  }

  /** `h` is pointwise `f - g`. */
  lemma {:induction false} SumMinus(h: nat -> real, f: nat -> real, g: nat -> real, n: nat)
    requires forall i: nat | i < n :: h(i) == f(i) - g(i)
    ensures Sum(h, n) == Sum(f, n) - Sum(g, n)
  {
    if n > 0 { SumMinus(h, f, g, n - 1); }
  }

  /** `h` is pointwise `f + g`. */
  lemma {:induction false} SumPlus(h: nat -> real, f: nat -> real, g: nat -> real, n: nat)
    requires forall i: nat | i < n :: h(i) == f(i) + g(i)
    ensures Sum(h, n) == Sum(f, n) + Sum(g, n)
  {
    if n > 0 { SumPlus(h, f, g, n - 1); }
  }

  /** `g` bounds the absolute value of `f` pointwise. */
  lemma {:induction false} SumAbs(f: nat -> real, g: nat -> real, n: nat)
    requires forall i: nat | i < n :: Abs(f(i)) <= g(i)
    ensures Abs(Sum(f, n)) <= Sum(g, n)
  {
    if n > 0 { SumAbs(f, g, n - 1); }
  }

  function RowSums(f: (nat, nat) -> real, m: nat): nat -> real { (i: nat) => Sum((j: nat) => f(i, j), m) }

  function ColumnSums(f: (nat, nat) -> real, n: nat): nat -> real { (j: nat) => Sum((i: nat) => f(i, j), n) }

  /** Adding up rows or columns first makes no difference. */
  lemma {:induction false} SumSwap(f: (nat, nat) -> real, n: nat, m: nat)
    ensures Sum(RowSums(f, m), n) == Sum(ColumnSums(f, n), m)
  {
    if n == 0 {
      SumZero(ColumnSums(f, n), m);
    } else {
      SumSwap(f, n - 1, m);
      var last := (j: nat) => f(n - 1, j);
      SumPlus(ColumnSums(f, n), ColumnSums(f, n - 1), last, m);
    }
  }
}
