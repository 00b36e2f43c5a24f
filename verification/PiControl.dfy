/** The PI controller: a bounded integral with conditional anti-windup. */
module PiControl {
  import opened Prelude
  import opened Settings

  datatype PiState = PiState(integral: real, lastUpdate: Option<real>)

  datatype Reading = Reading(internal: real, ambient: real, now: real)

  datatype Decision = Decision(effort: real, error: real, p: real, i: real, ff: real)

  /** What one reading contributes: `step` is the change of the integral before any limit. */
  datatype Terms = Terms(error: real, p: real, ff: real, step: real)

  const INITIAL := PiState(0.0, None)

  function Error(c: Config, x: Reading): real { c.setpoint - x.internal }

  function EffectiveDt(c: Config, s: PiState, now: real): real {
    if s.lastUpdate.None? then c.period
    else Clamp(now - s.lastUpdate.value, 0.0, c.tuning.integralDtMax)
  }

  function TermsOf(c: Config, s: PiState, x: Reading): Terms {
    var e := Error(c, x);
    Terms(e, c.tuning.kp * e, c.tuning.kff * (c.setpoint - x.ambient),
          c.tuning.kiPerHour * e * (EffectiveDt(c, s, x.now) / 3600.0))
  }

  function Candidate(limit: real, integral: real, t: Terms): real {
    Clamp(integral + t.step, -limit, limit)
  }

  predicate FreezesHigh(limit: real, integral: real, t: Terms) {
    t.p + Candidate(limit, integral, t) + t.ff > 1.0 && t.error > 0.0
  }

  predicate FreezesLow(limit: real, integral: real, t: Terms) {
    t.p + Candidate(limit, integral, t) + t.ff < -1.0 && t.error < 0.0
  }

  function Settle(limit: real, integral: real, t: Terms): real {
    if FreezesHigh(limit, integral, t) || FreezesLow(limit, integral, t) then integral
    else Candidate(limit, integral, t)
  }

  function NextState(c: Config, s: PiState, x: Reading): PiState {
    PiState(Settle(c.tuning.integralLimit, s.integral, TermsOf(c, s, x)), Some(x.now))
  }

  function Decide(c: Config, s: PiState, x: Reading): Decision {
    var t, i := TermsOf(c, s, x), NextState(c, s, x).integral;
    Decision(Clamp(t.p + i + t.ff, -1.0, 1.0), t.error, t.p, i, t.ff)
  }

  function Run(c: Config, s: PiState, xs: seq<Reading>): PiState {
    if xs == [] then s else NextState(c, Run(c, s, xs[..|xs|-1]), xs[|xs|-1])
  }

  predicate Bounded(c: Config, s: PiState) {
    -c.tuning.integralLimit <= s.integral <= c.tuning.integralLimit
  }

  class PIController {
    const cfg: Config
    var integral: real
    var lastUpdate: Option<real>

    ghost function State(): PiState
      reads this
    {
      PiState(integral, lastUpdate)
    }

    constructor (cfg: Config)
      ensures this.cfg == cfg && State() == INITIAL
    {
      this.cfg := cfg;
      integral := 0.0;
      lastUpdate := None;
    }

    method Update(internal: real, ambient: real, now: real) returns (d: Decision)
      modifies this
      ensures State() == NextState(cfg, old(State()), Reading(internal, ambient, now))
      ensures d == Decide(cfg, old(State()), Reading(internal, ambient, now))
    {
      var dt: real;
      if lastUpdate.None? {
        dt := cfg.period;
      } else {
        dt := Clamp(now - lastUpdate.value, 0.0, cfg.tuning.integralDtMax);
      }
      lastUpdate := Some(now);

      var error := cfg.setpoint - internal;
      var t := Terms(error, cfg.tuning.kp * error, cfg.tuning.kff * (cfg.setpoint - ambient),
                     cfg.tuning.kiPerHour * error * (dt / 3600.0));
      assert t == TermsOf(cfg, old(State()), Reading(internal, ambient, now));
      var effort := ApplyTerms(t);
      d := Decision(effort, error, t.p, integral, t.ff);
    }

    /** The second half of an update: move the integral unless that drives farther into saturation. */
    method ApplyTerms(t: Terms) returns (effort: real)
      modifies this`integral
      ensures integral == Settle(cfg.tuning.integralLimit, old(integral), t)
      ensures effort == Clamp(t.p + integral + t.ff, -1.0, 1.0)
    {
      var candidate := Clamp(integral + t.step, -cfg.tuning.integralLimit, cfg.tuning.integralLimit);
      var raw := t.p + candidate + t.ff;
      var driving := (raw > 1.0 && t.error > 0.0) || (raw < -1.0 && t.error < 0.0);
      if !driving {
        integral := candidate;
      }
      effort := Clamp(t.p + integral + t.ff, -1.0, 1.0);
    }
  }

  /** Whatever is read, the integral stays within its limit and the effort within [-1, 1]. */
  lemma {:induction false} AlwaysBounded(c: Config, xs: seq<Reading>, x: Reading)
    requires Valid(c)
    ensures Bounded(c, Run(c, INITIAL, xs))
    ensures -1.0 <= Decide(c, Run(c, INITIAL, xs), x).effort <= 1.0
  {
    hide TermsOf;
    if xs != [] {
      AlwaysBounded(c, xs[..|xs|-1], x);
    }
  }

  /** An update whose output is still saturated in the direction of the error leaves the
      integral alone; the output here is the one computed with the new integral. */
  lemma SaturatedUpdateFreezes(c: Config, s: PiState, x: Reading)
    ensures Saturated(c, s, x) ==> NextState(c, s, x).integral == s.integral
  {
  }

  predicate Saturated(c: Config, s: PiState, x: Reading) {
    var t, i := TermsOf(c, s, x), NextState(c, s, x).integral;
    (t.p + i + t.ff > 1.0 && t.error > 0.0) || (t.p + i + t.ff < -1.0 && t.error < 0.0)
  }

  /** As long as the output stays saturated in the direction of the error, for however many updates,
      nothing winds up: the integral is still what it was before. */
  lemma {:induction false} SaturationFreezes(c: Config, s: PiState, xs: seq<Reading>)
    requires forall k :: 0 <= k < |xs| ==> Saturated(c, Run(c, s, xs[..k]), xs[k])
    ensures Run(c, s, xs).integral == s.integral
  {
    hide Saturated;
    hide NextState;
    if xs != [] {
      var n := |xs| - 1;
      assert forall k :: 0 <= k < n ==> xs[..n][..k] == xs[..k];
      SaturationFreezes(c, s, xs[..n]);
      SaturatedUpdateFreezes(c, Run(c, s, xs[..n]), xs[n]);
    }
  }

  /** The sign and size of the integral's step: it follows the error. */
  lemma StepFollowsError(c: Config, s: PiState, x: Reading, eps: real, d: real)
    requires 0.0 <= c.tuning.kiPerHour && 0.0 <= eps && 0.0 <= d <= EffectiveDt(c, s, x.now)
    requires Error(c, x) <= -eps
    ensures TermsOf(c, s, x).step <= -(c.tuning.kiPerHour * eps * d / 3600.0)
  {
  }

  // ---- The integral in the readings' own terms --------------------------------------------------

  /** How long reading `k` counts: since the reading before it, at least zero and at most the configured
      maximum. The very first reading counts as one period. */
  function Seconds(c: Config, s: PiState, xs: seq<Reading>, k: nat): real
    requires k < |xs|
  {
    var before := if k > 0 then Some(xs[k-1].now) else s.lastUpdate;
    if before.None? then c.period
    else if xs[k].now < before.value then 0.0
    else if c.tuning.integralDtMax < xs[k].now - before.value then c.tuning.integralDtMax
    else xs[k].now - before.value
  }

  /** The sum of error times duration. */
  function ErrorSeconds(c: Config, s: PiState, xs: seq<Reading>): real {
    if xs == [] then 0.0
    else
      var n := |xs| - 1;
      ErrorSeconds(c, s, xs[..n]) + Mul(c.setpoint - xs[n].internal, Seconds(c, s, xs, n))
  }

  /** The integral that nothing holds back; the gain is per hour. */
  function Ideal(c: Config, s: PiState, xs: seq<Reading>): real {
    s.integral + Mul(c.tuning.kiPerHour, ErrorSeconds(c, s, xs)) / 3600.0
  }

  function Proportional(c: Config, x: Reading): real { c.tuning.kp * (c.setpoint - x.internal) }

  function Feedforward(c: Config, x: Reading): real { c.tuning.kff * (c.setpoint - x.ambient) }

  function Output(c: Config, x: Reading, integral: real): real { Proportional(c, x) + integral + Feedforward(c, x) }

  /** The ideal integral stays within its limit and never meets an output beyond full effort that the
      error drives farther. */
  ghost predicate Unhindered(c: Config, s: PiState, xs: seq<Reading>) {
    forall k :: 0 <= k < |xs| ==> UnhinderedAt(c, s, xs[..k+1], xs[k])
  }

  predicate UnhinderedAt(c: Config, s: PiState, xs: seq<Reading>, x: Reading) {
    var i := Ideal(c, s, xs);
    && -c.tuning.integralLimit <= i <= c.tuning.integralLimit
    && !(Output(c, x, i) > 1.0 && x.internal < c.setpoint)
    && !(Output(c, x, i) < -1.0 && x.internal > c.setpoint)
  }

  lemma {:induction false} LastOfRun(c: Config, s: PiState, xs: seq<Reading>)
    ensures Run(c, s, xs).lastUpdate == if xs == [] then s.lastUpdate else Some(xs[|xs|-1].now)
  {
  }

  lemma StepAsProduct(c: Config, s: PiState, x: Reading)
    ensures TermsOf(c, s, x).step == Mul(c.tuning.kiPerHour, Mul(Error(c, x), EffectiveDt(c, s, x.now))) / 3600.0
  {
    var k, e, d := c.tuning.kiPerHour, Error(c, x), EffectiveDt(c, s, x.now);
    assert k * e * (d / 3600.0) == k * (e * d) / 3600.0;
  }

  lemma SecondsAreEffective(c: Config, s: PiState, xs: seq<Reading>)
    requires Valid(c) && xs != []
    ensures var n := |xs| - 1; EffectiveDt(c, Run(c, s, xs[..n]), xs[n].now) == Seconds(c, s, xs, n)
  {
    hide NextState;
    LastOfRun(c, s, xs[..|xs|-1]);
    hide Run;
  }

  /** One more reading adds its error times its duration. */
  lemma IdealStep(c: Config, s: PiState, xs: seq<Reading>)
    requires Valid(c) && xs != []
    ensures var n := |xs| - 1;
      Ideal(c, s, xs) == Ideal(c, s, xs[..n]) + TermsOf(c, Run(c, s, xs[..n]), xs[n]).step
  {
    hide Mul;
    hide Run;
    hide TermsOf;
    hide EffectiveDt;
    hide Seconds;
    var n := |xs| - 1;
    SecondsAreEffective(c, s, xs);
    StepAsProduct(c, Run(c, s, xs[..n]), xs[n]);
    Distribute(c.tuning.kiPerHour, ErrorSeconds(c, s, xs[..n]), Mul(c.setpoint - xs[n].internal, Seconds(c, s, xs, n)));
  }

  lemma TermsAreOutput(c: Config, s: PiState, x: Reading, i: real)
    ensures var t := TermsOf(c, s, x);
      && t.error == c.setpoint - x.internal && t.p + i + t.ff == Output(c, x, i)
      && t.p == Proportional(c, x) && t.ff == Feedforward(c, x)
  {
  }

  /** As long as no limit is reached and nothing freezes, the integral is its start plus the integral
      gain times the sum of error times duration, and the effort is the sum of the three terms, cut off
      at full effort. */
  lemma {:induction false} IntegralLaw(c: Config, s: PiState, xs: seq<Reading>)
    requires Valid(c) && Unhindered(c, s, xs)
    ensures Run(c, s, xs).integral == Ideal(c, s, xs)
    ensures xs != [] ==>
      var n := |xs| - 1;
      var y := Output(c, xs[n], Ideal(c, s, xs));
      Decide(c, Run(c, s, xs[..n]), xs[n]) ==
        Decision(if y > 1.0 then 1.0 else if y < -1.0 then -1.0 else y,
                 c.setpoint - xs[n].internal, Proportional(c, xs[n]), Ideal(c, s, xs), Feedforward(c, xs[n]))
  {
    hide TermsOf;
    hide ErrorSeconds;
    hide Mul;
    hide Proportional;
    hide Feedforward;
    if xs != [] {
      var n := |xs| - 1;
      forall k | 0 <= k < n ensures UnhinderedAt(c, s, xs[..n][..k+1], xs[..n][k]) {
        assert xs[..n][..k+1] == xs[..k+1];
      }
      IntegralLaw(c, s, xs[..n]);
      IdealStep(c, s, xs);
      TermsAreOutput(c, Run(c, s, xs[..n]), xs[n], Ideal(c, s, xs));
      assert xs[..n+1] == xs;
      assert UnhinderedAt(c, s, xs, xs[n]);
    } else {
      NoErrorSeconds(c, s);
    }
  }

  lemma NoErrorSeconds(c: Config, s: PiState)
    ensures Ideal(c, s, []) == s.integral
  {
    SumTimes(0.0, 0.0, c.tuning.kiPerHour);
  }

  /** Readings after `t`, none before the one before it and none later than the maximum after it. */
  ghost predicate Spread(c: Config, t: real, xs: seq<Reading>) {
    forall k :: 0 <= k < |xs| ==>
      0.0 <= xs[k].now - TimeBefore(t, xs, k) <= c.tuning.integralDtMax
  }

  function TimeBefore(t: real, xs: seq<Reading>, k: nat): real
    requires k <= |xs|
  {
    if k == 0 then t else xs[k-1].now
  }

  /** However often the readings are taken: a constant error moves the integral in proportion to the time
      that has gone by. */
  lemma ConstantErrorRamps(c: Config, s: PiState, xs: seq<Reading>, e: real)
    requires Valid(c) && s.lastUpdate.Some? && xs != [] && Unhindered(c, s, xs) && Spread(c, s.lastUpdate.value, xs)
    requires forall k :: 0 <= k < |xs| ==> c.setpoint - xs[k].internal == e
    ensures Run(c, s, xs).integral
            == s.integral + c.tuning.kiPerHour * (e * (xs[|xs|-1].now - s.lastUpdate.value)) / 3600.0
  {
    hide Unhindered;
    hide Run;
    hide ErrorSeconds;
    hide Spread;
    IntegralLaw(c, s, xs);
    Telescopes(c, s, xs, e);
  }

  lemma {:induction false} Telescopes(c: Config, s: PiState, xs: seq<Reading>, e: real)
    requires s.lastUpdate.Some? && Spread(c, s.lastUpdate.value, xs)
    requires forall k :: 0 <= k < |xs| ==> c.setpoint - xs[k].internal == e
    ensures ErrorSeconds(c, s, xs) == Mul(e, TimeBefore(s.lastUpdate.value, xs, |xs|) - s.lastUpdate.value)
  {
    var t0 := s.lastUpdate.value;
    if xs == [] {
      SumTimes(0.0, 0.0, e);
    } else {
      hide Mul;
      var n := |xs| - 1;
      var ys := xs[..n];
      forall k | 0 <= k < n
        ensures 0.0 <= ys[k].now - TimeBefore(t0, ys, k) <= c.tuning.integralDtMax
      {
        assert TimeBefore(t0, ys, k) == TimeBefore(t0, xs, k);
      }
      Telescopes(c, s, ys, e);
      var t1 := TimeBefore(t0, xs, n);
      assert 0.0 <= xs[n].now - t1 <= c.tuning.integralDtMax;
      assert Seconds(c, s, xs, n) == xs[n].now - t1;
      Distribute(e, t1 - t0, xs[n].now - t1);
    }
  }

  // ---- Windup recovery -------------------------------------------------------------------

  /** Every reading is at least `eps` too warm and at least `d` seconds of integration. */
  ghost predicate TooWarm(c: Config, s: PiState, xs: seq<Reading>, eps: real, d: real) {
    forall k :: 0 <= k < |xs| ==>
      xs[k].internal - c.setpoint >= eps && d <= Seconds(c, s, xs, k)
  }

  /** After `k` readings the integral sits at its lower limit, or low saturation freezes it. */
  ghost predicate UnwoundAt(c: Config, s: PiState, xs: seq<Reading>, k: nat)
    requires k <= |xs|
  {
    var z := Run(c, s, xs[..k]);
    || z.integral == -c.tuning.integralLimit
    || (k < |xs| && FreezesLow(c.tuning.integralLimit, z.integral, TermsOf(c, z, xs[k])))
  }

  ghost predicate Unwound(c: Config, s: PiState, xs: seq<Reading>) {
    exists k :: 0 <= k <= |xs| && UnwoundAt(c, s, xs, k)
  }

  lemma SettleDescends(limit: real, integral: real, t: Terms, q: real)
    requires -limit <= integral <= limit && 0.0 < q && t.step <= -q && t.error < 0.0
    ensures -limit <= Settle(limit, integral, t) <= limit
    ensures || FreezesLow(limit, integral, t)
            || Settle(limit, integral, t) == -limit
            || Settle(limit, integral, t) <= integral - q
  {
  }

  ghost predicate StepsDown(c: Config, s: PiState, xs: seq<Reading>, q: real) {
    forall k :: 0 <= k < |xs| ==>
      var t := TermsOf(c, Run(c, s, xs[..k]), xs[k]);
      t.error < 0.0 && t.step <= -q
  }

  lemma {:induction false} WarmDescent(c: Config, s: PiState, xs: seq<Reading>, q: real)
    requires Valid(c) && Bounded(c, s) && 0.0 < q && StepsDown(c, s, xs, q)
    ensures Bounded(c, Run(c, s, xs))
    ensures Unwound(c, s, xs) || Run(c, s, xs).integral <= s.integral - Times(|xs|, q)
  {
    hide TermsOf;
    hide Settle;
    hide FreezesLow;
    if xs != [] {
      var n := |xs| - 1;
      var ys := xs[..n];
      forall k | 0 <= k <= n ensures ys[..k] == xs[..k] {}
      WarmDescent(c, s, ys, q);
      var z := Run(c, s, ys);
      SettleDescends(c.tuning.integralLimit, z.integral, TermsOf(c, z, xs[n]), q);
      assert xs[..|xs|] == xs;
      if Unwound(c, s, ys) {
        var k :| 0 <= k <= n && UnwoundAt(c, s, ys, k);
        assert UnwoundAt(c, s, xs, k);
      } else if !UnwoundAt(c, s, xs, n) && !UnwoundAt(c, s, xs, |xs|) {
        assert Run(c, s, xs).integral <= z.integral - q;
      }
    }
  }

  lemma WarmStepsDown(c: Config, s: PiState, xs: seq<Reading>, eps: real, d: real)
    requires Valid(c) && 0.0 < c.tuning.kiPerHour && 0.0 < eps && 0.0 < d && TooWarm(c, s, xs, eps, d)
    ensures StepsDown(c, s, xs, c.tuning.kiPerHour * eps * d / 3600.0)
  {
    forall k | 0 <= k < |xs|
      ensures var t := TermsOf(c, Run(c, s, xs[..k]), xs[k]);
              t.error < 0.0 && t.step <= -(c.tuning.kiPerHour * eps * d / 3600.0)
    {
      assert xs[..k+1][..k] == xs[..k];
      SecondsAreEffective(c, s, xs[..k+1]);
      StepFollowsError(c, Run(c, s, xs[..k]), xs[k], eps, d);
    }
  }

  lemma EnoughSteps(limit: real, n: nat, y: real)
    requires 7200.0 * limit <= n as real * y
    ensures 2.0 * limit <= Times(n, y / 3600.0)
  {
    TimesIsProduct(n, y / 3600.0);
    assert n as real * (y / 3600.0) == n as real * y / 3600.0;
  }

  lemma DescentUnwinds(c: Config, s: PiState, xs: seq<Reading>, q: real)
    requires Valid(c) && Bounded(c, s) && 0.0 < q && StepsDown(c, s, xs, q)
    requires 2.0 * c.tuning.integralLimit <= Times(|xs|, q)
    ensures Unwound(c, s, xs)
  {
    WarmDescent(c, s, xs, q);
    if !Unwound(c, s, xs) {
      assert xs[..|xs|] == xs;
      assert UnwoundAt(c, s, xs, |xs|);
    }
  }

  /** Enough readings that are too warm unwind any integral, however it got there. */
  lemma WindupRecovery(c: Config, s: PiState, xs: seq<Reading>, eps: real, d: real)
    requires Valid(c) && Bounded(c, s) && 0.0 < c.tuning.kiPerHour && 0.0 < eps && 0.0 < d
    requires TooWarm(c, s, xs, eps, d)
    requires 7200.0 * c.tuning.integralLimit <= |xs| as real * (c.tuning.kiPerHour * eps * d)
    ensures Unwound(c, s, xs)
  {
    hide TooWarm;
    hide StepsDown;
    hide Unwound;
    var y := c.tuning.kiPerHour * eps * d;
    assert 0.0 < y;
    WarmStepsDown(c, s, xs, eps, d);
    EnoughSteps(c.tuning.integralLimit, |xs|, y);
    DescentUnwinds(c, s, xs, y / 3600.0);
  }

  // ---- Mirror symmetry -------------------------------------------------------------------

  function Mirror(c: Config, x: Reading): Reading {
    Reading(2.0 * c.setpoint - x.internal, 2.0 * c.setpoint - x.ambient, x.now)
  }

  function Negate(s: PiState): PiState { PiState(-s.integral, s.lastUpdate) }

  function Opposite(t: Terms): Terms { Terms(-t.error, -t.p, -t.ff, -t.step) }

  lemma MirrorTerms(c: Config, s: PiState, x: Reading)
    ensures TermsOf(c, Negate(s), Mirror(c, x)) == Opposite(TermsOf(c, s, x))
  {
  }

  /** Reflecting both temperatures in the setpoint negates the integral and the effort. */
  lemma MirrorStep(c: Config, s: PiState, x: Reading)
    requires Valid(c)
    ensures NextState(c, Negate(s), Mirror(c, x)) == Negate(NextState(c, s, x))
    ensures Decide(c, Negate(s), Mirror(c, x)).effort == -Decide(c, s, x).effort
    ensures var l := c.tuning.integralLimit;
            FreezesLow(l, -s.integral, TermsOf(c, Negate(s), Mirror(c, x)))
            <==> FreezesHigh(l, s.integral, TermsOf(c, s, x))
  {
    MirrorTerms(c, s, x);
    hide TermsOf;
  }

  function MirrorAll(c: Config, xs: seq<Reading>): seq<Reading> {
    seq(|xs|, i requires 0 <= i < |xs| => Mirror(c, xs[i]))
  }

  lemma {:induction false} MirrorRun(c: Config, s: PiState, xs: seq<Reading>)
    requires Valid(c)
    ensures Run(c, Negate(s), MirrorAll(c, xs)) == Negate(Run(c, s, xs))
  {
    hide NextState;
    if xs != [] {
      var n := |xs| - 1;
      MirrorRun(c, s, xs[..n]);
      MirrorStep(c, Run(c, s, xs[..n]), xs[n]);
      assert MirrorAll(c, xs)[..n] == MirrorAll(c, xs[..n]);
    }
  }

  ghost predicate UnwoundUpAt(c: Config, s: PiState, xs: seq<Reading>, k: nat)
    requires k <= |xs|
  {
    var z := Run(c, s, xs[..k]);
    || z.integral == c.tuning.integralLimit
    || (k < |xs| && FreezesHigh(c.tuning.integralLimit, z.integral, TermsOf(c, z, xs[k])))
  }

  /** Every reading is at least `eps` too cold and at least `d` seconds of integration. */
  ghost predicate TooCold(c: Config, s: PiState, xs: seq<Reading>, eps: real, d: real) {
    forall k :: 0 <= k < |xs| ==>
      c.setpoint - xs[k].internal >= eps && d <= Seconds(c, s, xs, k)
  }

  ghost predicate UnwoundUp(c: Config, s: PiState, xs: seq<Reading>) {
    exists k :: 0 <= k <= |xs| && UnwoundUpAt(c, s, xs, k)
  }

  lemma MirrorPrefix(c: Config, s: PiState, xs: seq<Reading>, k: nat)
    requires Valid(c) && k <= |xs|
    ensures Run(c, Negate(s), MirrorAll(c, xs)[..k]) == Negate(Run(c, s, xs[..k]))
  {
    MirrorRun(c, s, xs[..k]);
    assert MirrorAll(c, xs)[..k] == MirrorAll(c, xs[..k]);
  }

  lemma MirrorTooCold(c: Config, s: PiState, xs: seq<Reading>, eps: real, d: real)
    requires Valid(c) && TooCold(c, s, xs, eps, d)
    ensures TooWarm(c, Negate(s), MirrorAll(c, xs), eps, d)
  {
  }

  lemma MirrorUnwound(c: Config, s: PiState, xs: seq<Reading>)
    requires Valid(c) && Unwound(c, Negate(s), MirrorAll(c, xs))
    ensures UnwoundUp(c, s, xs)
  {
    hide TermsOf;
    hide NextState;
    hide FreezesLow;
    hide FreezesHigh;
    var ys, z := MirrorAll(c, xs), Negate(s);
    var k :| 0 <= k <= |ys| && UnwoundAt(c, z, ys, k);
    MirrorPrefix(c, s, xs, k);
    if k < |xs| {
      MirrorStep(c, Run(c, s, xs[..k]), xs[k]);
    }
    assert UnwoundUpAt(c, s, xs, k);
  }

  /** The same recovery from the other side: readings that are too cold. */
  lemma WindupRecoveryCold(c: Config, s: PiState, xs: seq<Reading>, eps: real, d: real)
    requires Valid(c) && Bounded(c, s) && 0.0 < c.tuning.kiPerHour && 0.0 < eps && 0.0 < d
    requires TooCold(c, s, xs, eps, d)
    requires 7200.0 * c.tuning.integralLimit <= |xs| as real * (c.tuning.kiPerHour * eps * d)
    ensures UnwoundUp(c, s, xs)
  {
    hide TooWarm;
    hide Unwound;
    MirrorTooCold(c, s, xs, eps, d);
    WindupRecovery(c, Negate(s), MirrorAll(c, xs), eps, d);
    MirrorUnwound(c, s, xs);
  }
}
