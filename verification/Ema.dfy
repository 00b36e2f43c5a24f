/** The exponential moving-average filter applied to both temperatures. */
module Ema {
  import opened Prelude

  function Filter(previous: Option<real>, sample: real, alpha: real): real {
    if previous.None? then sample
    else previous.value + Mul(alpha, sample - previous.value)
  }

  /** The filter's stored value after a run of samples. */
  function Run(previous: Option<real>, xs: seq<real>, alpha: real): Option<real> {
    if xs == [] then previous
    else Some(Filter(Run(previous, xs[..|xs|-1], alpha), xs[|xs|-1], alpha))
  }

  /** The weight that sample `i` out of `n` carries in the filtered value. */
  function Weight(alpha: real, n: nat, i: nat): real
    requires i < n
  {
    if i == 0 then Pow(1.0 - alpha, n - 1) else Mul(alpha, Pow(1.0 - alpha, n - 1 - i))
  }

  function WeightedSum(alpha: real, n: nat, xs: seq<real>): real
    requires |xs| <= n
  {
    if xs == [] then 0.0
    else WeightedSum(alpha, n, xs[..|xs|-1]) + Mul(Weight(alpha, n, |xs| - 1), xs[|xs|-1])
  }

  /** A one-step blend stays between its two arguments. */
  lemma BlendInHull(u: real, x: real, alpha: real, lo: real, hi: real)
    requires 0.0 <= alpha <= 1.0 && lo <= u <= hi && lo <= x <= hi
    ensures lo <= u + Mul(alpha, x - u) <= hi
  {
    ProductNonNegative(alpha, x - lo);
    ProductNonNegative(1.0 - alpha, u - lo);
    ProductNonNegative(alpha, hi - x);
    ProductNonNegative(1.0 - alpha, hi - u);
  }

  /** The filtered value never leaves the hull of its samples, from below or from above. */
  lemma {:induction false} HullAbove(previous: Option<real>, xs: seq<real>, alpha: real, lo: real)
    requires 0.0 <= alpha <= 1.0
    requires previous.Some? ==> lo <= previous.value
    requires forall i :: 0 <= i < |xs| ==> lo <= xs[i]
    ensures Run(previous, xs, alpha).Some? ==> lo <= Run(previous, xs, alpha).value
  {
    hide Mul;
    if xs != [] {
      var n := |xs| - 1;
      HullAbove(previous, xs[..n], alpha, lo);
      var u := Run(previous, xs[..n], alpha);
      if u.Some? {
        BlendInHull(u.value, xs[n], alpha, lo, Max(u.value, xs[n]));
      }
    }
  }

  lemma {:induction false} HullBelow(previous: Option<real>, xs: seq<real>, alpha: real, hi: real)
    requires 0.0 <= alpha <= 1.0
    requires previous.Some? ==> previous.value <= hi
    requires forall i :: 0 <= i < |xs| ==> xs[i] <= hi
    ensures Run(previous, xs, alpha).Some? ==> Run(previous, xs, alpha).value <= hi
  {
    hide Mul;
    if xs != [] {
      var n := |xs| - 1;
      HullBelow(previous, xs[..n], alpha, hi);
      var u := Run(previous, xs[..n], alpha);
      if u.Some? {
        BlendInHull(u.value, xs[n], alpha, Min(u.value, xs[n]), hi);
      }
    }
  }

  lemma WeightScales(alpha: real, n: nat, i: nat)
    requires i < n
    ensures Weight(alpha, n + 1, i) == Mul(1.0 - alpha, Weight(alpha, n, i))
  {
  }

  /** Scaling every weight by one more factor of (1 - alpha) scales the sum. */
  lemma {:induction false} WeightsScale(alpha: real, n: nat, xs: seq<real>)
    requires |xs| <= n
    ensures WeightedSum(alpha, n + 1, xs) == Mul(1.0 - alpha, WeightedSum(alpha, n, xs))
  {
    if xs == [] {
      assert Mul(1.0 - alpha, 0.0) == 0.0;
    } else {
      hide Mul;
      var m, b := |xs| - 1, 1.0 - alpha;
      WeightsScale(alpha, n, xs[..m]);
      WeightScales(alpha, n, m);
      hide Weight;
      Reassociate(b, Weight(alpha, n, m), xs[m]);
      Distribute(b, WeightedSum(alpha, n, xs[..m]), Mul(Weight(alpha, n, m), xs[m]));
    }
  }

  lemma BlendAsWeights(u: real, x: real, alpha: real)
    ensures u + Mul(alpha, x - u) == Mul(1.0 - alpha, u) + Mul(alpha, x)
  {
  }

  lemma One(x: real)
    ensures Mul(1.0, x) == x && Mul(x, 1.0) == x && Mul(x, 0.0) == 0.0
  {
  }

  /** The recursive filter is the weighted sum of all of its samples. */
  lemma {:induction false} ClosedForm(xs: seq<real>, alpha: real)
    requires xs != []
    ensures Run(None, xs, alpha) == Some(WeightedSum(alpha, |xs|, xs))
  {
    hide Mul;
    var n := |xs| - 1;
    One(xs[n]);
    if n == 0 {
      assert Weight(alpha, 1, 0) == 1.0;
      assert WeightedSum(alpha, 1, xs) == WeightedSum(alpha, 1, xs[..0]) + Mul(1.0, xs[0]);
    } else {
      ClosedForm(xs[..n], alpha);
      WeightsScale(alpha, n, xs[..n]);
      One(alpha);
      assert Pow(1.0 - alpha, 0) == 1.0;
      assert Weight(alpha, n + 1, n) == alpha;
      BlendAsWeights(WeightedSum(alpha, n, xs[..n]), xs[n], alpha);
    }
  }

  /** The weights are nonnegative and sum to one: they form an average. */
  lemma {:induction false} WeightsAreAverage(alpha: real, n: nat)
    requires 0.0 < alpha <= 1.0 && 0 < n
    ensures forall i :: 0 <= i < n ==> 0.0 <= Weight(alpha, n, i)
    ensures WeightedSum(alpha, n, seq(n, _ => 1.0)) == 1.0
  {
    hide Mul;
    forall i | 0 <= i < n ensures 0.0 <= Weight(alpha, n, i) {
      PowInUnit(1.0 - alpha, n - 1 - i);
      MulInUnit(alpha, Pow(1.0 - alpha, n - 1 - i));
    }
    ClosedForm(seq(n, _ => 1.0), alpha);
    ConstantFixed(n, alpha);
  }

  lemma {:induction false} ConstantFixed(n: nat, alpha: real)
    requires 0 < n
    ensures Run(None, seq(n, _ => 1.0), alpha) == Some(1.0)
  {
    hide Mul;
    var xs := seq(n, _ => 1.0);
    if n > 1 {
      ConstantFixed(n - 1, alpha);
      assert xs[..n-1] == seq(n - 1, _ => 1.0);
      One(alpha);
    }
  }

  /** Two filters fed the same samples forget their starting difference geometrically. */
  lemma {:induction false} Contraction(u: real, v: real, xs: seq<real>, alpha: real)
    ensures Run(Some(u), xs, alpha).Some? && Run(Some(v), xs, alpha).Some?
    ensures Run(Some(u), xs, alpha).value - Run(Some(v), xs, alpha).value
            == Mul(Pow(1.0 - alpha, |xs|), u - v)
  {
    hide Mul;
    One(u - v);
    if xs != [] {
      var n, b := |xs| - 1, 1.0 - alpha;
      Contraction(u, v, xs[..n], alpha);
      var p, q := Run(Some(u), xs[..n], alpha).value, Run(Some(v), xs[..n], alpha).value;
      BlendAsWeights(p, xs[n], alpha);
      BlendAsWeights(q, xs[n], alpha);
      Distribute(b, p, q);
      Reassociate(b, Pow(b, n), u - v);
    }
  }
}
