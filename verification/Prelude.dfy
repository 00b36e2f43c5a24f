/** Small helpers shared by every module: optional values and real arithmetic. */
module Prelude {

  datatype Option<+T> = None | Some(value: T)

  function Min(a: real, b: real): real { if b < a then b else a }

  function Max(a: real, b: real): real { if b > a then b else a }

  function Abs(a: real): real { if a < 0.0 then -a else a }

  function Clamp(v: real, low: real, high: real): real { Max(low, Min(high, v)) }

  /** A product as a named function, so that a proof can hide its nonlinear meaning. */
  function Mul(a: real, b: real): real { a * b }

  function Pow(b: real, n: nat): real { if n == 0 then 1.0 else Mul(b, Pow(b, n - 1)) }

  /** `q` added up `n` times. */
  function Times(n: nat, q: real): real { if n == 0 then 0.0 else Times(n - 1, q) + q }

  function Whole(x: real, w: real): int
    requires 0.0 < w
  {
    (x / w).Floor
  }

  lemma ProductNonNegative(a: real, b: real)
    requires 0.0 <= a && 0.0 <= b
    ensures 0.0 <= a * b
  {
  }

  /** Multiplying by a positive factor reflects the order as well. */
  lemma MulOrder(a: real, b: real, c: real)
    requires 0.0 < c
    ensures Mul(a, c) < Mul(b, c) <==> a < b
    ensures Mul(a, c) <= Mul(b, c) <==> a <= b
  {
  }

  lemma Distribute(a: real, b: real, c: real)
    ensures Mul(a, b + c) == Mul(a, b) + Mul(a, c)
    ensures Mul(a, b - c) == Mul(a, b) - Mul(a, c)
  {
  }

  lemma Reassociate(a: real, b: real, c: real)
    ensures Mul(Mul(a, b), c) == Mul(a, Mul(b, c)) == Mul(b, Mul(a, c))
  {
  }

  lemma SumTimes(a: real, b: real, c: real)
    ensures Mul(a + b, c) == Mul(a, c) + Mul(b, c)
    ensures Mul(1.0, c) == c && Mul(0.0, c) == 0.0
  {
  }

  lemma {:induction false} TimesIsProduct(n: nat, q: real)
    ensures Times(n, q) == Mul(n as real, q)
  {
    hide Mul;
    SumTimes((n - 1) as real, 1.0, q);
    if n > 0 {
      TimesIsProduct(n - 1, q);
      assert n as real == (n - 1) as real + 1.0;
    }
  }

  lemma DivideBack(x: real, w: real)
    requires w != 0.0
    ensures Mul(x / w, w) == x
  {
  }

  lemma MulInUnit(a: real, b: real)
    requires 0.0 <= a && 0.0 <= b <= 1.0
    ensures 0.0 <= Mul(a, b) <= a
  {
  }

  lemma PowInUnit(b: real, n: nat)
    requires 0.0 <= b <= 1.0
    ensures 0.0 <= Pow(b, n) <= 1.0
  {
    hide Mul;
    if n > 0 {
      PowInUnit(b, n - 1);
      MulInUnit(b, Pow(b, n - 1));
    }
  }

  /** The floored quotient is the only integer whose multiple of `w` is within one `w` below `x`. */
  lemma WholeUnique(x: real, w: real, k: int)
    requires 0.0 < w
    requires Mul(k as real, w) <= x < Mul(k as real + 1.0, w)
    ensures Whole(x, w) == k
  {
    hide Mul;
    DivideBack(x, w);
    MulOrder(x / w, k as real + 1.0, w);
    MulOrder(k as real, x / w, w);
  }

  lemma WholeBounds(x: real, w: real)
    requires 0.0 < w
    ensures Mul(Whole(x, w) as real, w) <= x < Mul(Whole(x, w) as real + 1.0, w)
    ensures 0.0 <= x ==> 0 <= Whole(x, w)
    ensures w <= x ==> 1 <= Whole(x, w)
  {
    hide Mul;
    var q := x / w;
    DivideBack(x, w);
    MulOrder(q.Floor as real, q, w);
    MulOrder(q, q.Floor as real + 1.0, w);
    SumTimes(0.0, 0.0, w);
    MulOrder(0.0, q, w);
    MulOrder(1.0, q, w);
  }
}
