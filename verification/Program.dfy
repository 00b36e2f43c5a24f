/** What the whole control program guarantees, from its sensors to its plugs. */
module Program {
  import opened Prelude
  import opened Settings
  import Ema
  import PiControl
  import opened Actuator
  import Interlock
  import Window
  import Reversal
  import opened ControlLoop

  // ---- The actuator's guarantees, for the program ---------------------------------------------

  /** Interlock, walk and reversal lockout hold after every pass of every run of the program. */
  lemma ProgramSafe(c: Config, on: set<int>, t0: real, o: Outcomes, ps: seq<Pass>)
    requires Valid(c) && c.heatNode != c.coolNode && Begin(c, on, t0, o).Some?
    ensures var r := Passes(c, Begin(c, on, t0, o).value, ps).rig;
      && Interlock.Safe(c, r) && Reversal.Walk(r.log) && Reversal.Spaced(c, r.log)
      && (Interlock.NoStrands(r.chip.trace, 0) ==> Interlock.Covered(c, r))
  {
    var l := Begin(c, on, t0, o).value;
    var es := Events(c, l, ps);
    LoopIsRun(c, l, ps);
    Interlock.Interlocked(c, on, t0, o, es);
    Reversal.ReversalLockout(c, on, t0, o, es);
    Interlock.RecordCoversIff(c, on, t0, o, es);
    assert es[..|es|] == es;
    hide Start;
    hide Run;
    hide Interlock.Safe;
  }

  lemma ProgramPlugLockout(c: Config, on: set<int>, t0: real, o: Outcomes, ps: seq<Pass>)
    requires Valid(c) && c.heatNode != c.coolNode && Begin(c, on, t0, o).Some? && Ordered(t0, ps)
    requires Interlock.NoStrands(Passes(c, Begin(c, on, t0, o).value, ps).rig.chip.trace, 0)
    ensures Reversal.PlugsSpaced(c, Passes(c, Begin(c, on, t0, o).value, ps).rig.chip.trace)
  {
    var l := Begin(c, on, t0, o).value;
    LoopIsRun(c, l, ps);
    LoopMonotone(c, l, ps, t0);
    Reversal.PlugLockout(c, on, t0, o, Events(c, l, ps));
  }

  /** The shutdown that ends the program leaves both plugs off when its OFF commands are confirmed,
      unless an earlier ON took effect after reporting failure. */
  lemma ProgramShutdown(c: Config, on: set<int>, t0: real, o: Outcomes, ps: seq<Pass>, now: real)
    requires Valid(c) && c.heatNode != c.coolNode && Begin(c, on, t0, o).Some?
    requires Interlock.NoStrands(Passes(c, Begin(c, on, t0, o).value, ps).rig.chip.trace, 0)
    ensures var r := ForceIdle(c, Passes(c, Begin(c, on, t0, o).value, ps).rig, now, ALL_DONE);
      c.heatNode !in r.chip.on && c.coolNode !in r.chip.on
  {
    var r := Passes(c, Begin(c, on, t0, o).value, ps).rig;
    ProgramSafe(c, on, t0, o, ps);
    Interlock.ShutdownLeavesOff(c, r, now, ALL_DONE);
    var s1 := SweepOff(c, r.chip, {}, now, ALL_DONE, 1);
    assert !s1.failed;
    hide Passes;
  }

  /** The first update after an outage that outlasted the command: whatever the window was, a new one
      starts at the instant of the update, and the tick that follows at once acts on an eligible effort
      unless a reversal is locked out. */
  lemma RecoveryPass(c: Config, l: Loop, p: Pass)
    requires Valid(c) && PassOrdered(p) && Due(l, p) && p.raw.Some? && Stale(c, l.rig.act, p.t1)
    ensures OnePass(c, l, p).rig.act.windowStart == Some(Advance(c.tuning.window, p.t1, p.t2))
    ensures var r := Apply(c, l.rig, Ticked(p.now, p.o)); var e := NewEffort(c, l, p.raw.value, p.t1);
      var s := AdvanceWindow(c, SetEffort(c, r.act, e, p.t1), p.t1);
      && s.windowStart == Some(p.t1)
      && (Eligible(c, e) ==>
            PlanAt(c, s, p.t1).requested == if LockedOut(c, s, Direction(e), p.t1) then IDLE else Direction(e))
  {
    hide Advance;
    hide SwitchTo;
    hide PlanAt;
    hide Filtered;
    hide PiControl.NextState;
    hide LockedOut;
    hide Eligible;
    var r, e := Apply(c, l.rig, Ticked(p.now, p.o)), NewEffort(c, l, p.raw.value, p.t1);
    Window.AdvanceWhole(c.tuning.window, p.t1, p.t1);
    Window.AdvancePathIndependent(c.tuning.window, p.t1, p.t1, p.t2);
    Window.AdvancePathIndependent(c.tuning.window, p.t1, p.t2, p.t2);
    Window.AdvanceSame(c.tuning.window, p.t1);
    EffortInUnit(c, l.pi, Filtered(c, l, p.raw.value, p.t1));
    if Eligible(c, e) { Window.RecoveryStartsFresh(c, r, e, p.t1); }
  }

  lemma EffortInUnit(c: Config, s: PiControl.PiState, x: PiControl.Reading)
    ensures -1.0 <= PiControl.Decide(c, s, x).effort <= 1.0
  {
  }

  // ---- What the filters and the controller have seen ---------------------------------------------

  /** The calibrated reading of one pass, if an update is due by then and both sensors answer. */
  function Calibrated(c: Config, due: real, p: Pass): seq<PiControl.Reading> {
    if due <= p.now && p.raw.Some? then
      [PiControl.Reading(p.raw.value.internal + c.internalOffset, p.raw.value.ambient + c.ambientOffset, p.t1)]
    else []
  }

  /** The calibrated readings that the schedule calls for, in order. */
  function Readings(c: Config, t0: real, ps: seq<Pass>): seq<PiControl.Reading> {
    if ps == [] then []
    else Readings(c, t0, ps[..|ps|-1]) + Calibrated(c, NextDue(c, t0, ps[..|ps|-1]), ps[|ps|-1])
  }

  function Internals(us: seq<PiControl.Reading>): seq<real> {
    seq(|us|, i requires 0 <= i < |us| => us[i].internal)
  }

  function Ambients(us: seq<PiControl.Reading>): seq<real> {
    seq(|us|, i requires 0 <= i < |us| => us[i].ambient)
  }

  /** The readings after filtering: each temperature by the average of all of its samples so far. */
  function FilteredAll(c: Config, us: seq<PiControl.Reading>): seq<PiControl.Reading> {
    if us == [] then []
    else
      var n := |us| - 1;
      var alpha, beta := c.tuning.internalAlpha, c.tuning.ambientAlpha;
      FilteredAll(c, us[..n]) +
      [PiControl.Reading(Ema.Filter(Ema.Run(None, Internals(us[..n]), alpha), us[n].internal, alpha),
                         Ema.Filter(Ema.Run(None, Ambients(us[..n]), beta), us[n].ambient, beta),
                         us[n].now)]
  }

  /** The filters and the controller after these updates. */
  ghost predicate Fed(c: Config, l: Loop, us: seq<PiControl.Reading>) {
    && l.internal == Ema.Run(None, Internals(us), c.tuning.internalAlpha)
    && l.ambient == Ema.Run(None, Ambients(us), c.tuning.ambientAlpha)
    && l.pi == PiControl.Run(c, PiControl.INITIAL, FilteredAll(c, us))
  }

  /** One more update, as the loop performs it. */
  lemma FeedOne(c: Config, l: Loop, us: seq<PiControl.Reading>, x: PiControl.Reading, l': Loop)
    requires Fed(c, l, us)
    requires var y := PiControl.Reading(Ema.Filter(l.internal, x.internal, c.tuning.internalAlpha),
                                        Ema.Filter(l.ambient, x.ambient, c.tuning.ambientAlpha), x.now);
      l'.internal == Some(y.internal) && l'.ambient == Some(y.ambient) && l'.pi == PiControl.NextState(c, l.pi, y)
    ensures Fed(c, l', us + [x])
  {
    hide Ema.Filter;
    hide PiControl.NextState;
    var vs := us + [x];
    assert vs[..|us|] == us;
    assert Internals(vs)[..|us|] == Internals(us) && Ambients(vs)[..|us|] == Ambients(us);
    var fs := FilteredAll(c, vs);
    assert fs[..|fs|-1] == FilteredAll(c, us);
  }

  lemma PassFeeds(c: Config, l: Loop, p: Pass)
    requires Valid(c)
    ensures var l' := OnePass(c, l, p);
      if Due(l, p) && p.raw.Some? then
        var y := Filtered(c, l, p.raw.value, p.t1);
        l'.internal == Some(y.internal) && l'.ambient == Some(y.ambient) && l'.pi == PiControl.NextState(c, l.pi, y)
      else l'.internal == l.internal && l'.ambient == l.ambient && l'.pi == l.pi
  {
  }

  lemma FeedPass(c: Config, l: Loop, us: seq<PiControl.Reading>, p: Pass)
    requires Valid(c) && Fed(c, l, us)
    ensures Fed(c, OnePass(c, l, p), us + Calibrated(c, l.nextUpdate, p))
  {
    hide OnePass;
    hide Ema.Filter;
    hide Ema.Run;
    hide PiControl.NextState;
    hide PiControl.Run;
    hide FilteredAll;
    PassFeeds(c, l, p);
    if Due(l, p) && p.raw.Some? {
      FeedOne(c, l, us, Calibrated(c, l.nextUpdate, p)[0], OnePass(c, l, p));
    } else {
      assert us + Calibrated(c, l.nextUpdate, p) == us;
    }
  }

  /** The command in force: what the controller decided on the last reading, given at its time. */
  ghost predicate Obeys(c: Config, l: Loop, us: seq<PiControl.Reading>) {
    if us == [] then l.rig.act.lastEffort == None && l.rig.act.effort == 0.0
    else
      var m, ys := |us| - 1, FilteredAll(c, us);
      && |ys| == |us|
      && l.rig.act.lastEffort == Some(us[m].now)
      && l.rig.act.effort == PiControl.Decide(c, PiControl.Run(c, PiControl.INITIAL, ys[..m]), ys[m]).effort
  }

  /** What a pass commands. */
  lemma PassCommands(c: Config, l: Loop, p: Pass)
    requires Valid(c)
    ensures var a := OnePass(c, l, p).rig.act;
      if Due(l, p) && p.raw.Some? then
        && a.lastEffort == Some(p.t1)
        && a.effort == PiControl.Decide(c, l.pi, Filtered(c, l, p.raw.value, p.t1)).effort
      else a.lastEffort == l.rig.act.lastEffort && a.effort == l.rig.act.effort
  {
    hide SwitchTo;
    hide PlanAt;
    hide Advance;
    hide PiControl.NextState;
    hide Ema.Filter;
    if p.raw.Some? { EffortInUnit(c, l.pi, Filtered(c, l, p.raw.value, p.t1)); }
    hide PiControl.Decide;
  }

  lemma {:induction false} FilteredLength(c: Config, us: seq<PiControl.Reading>)
    ensures |FilteredAll(c, us)| == |us|
  {
    if us != [] { FilteredLength(c, us[..|us|-1]); }
  }

  lemma FilteredSnoc(c: Config, us: seq<PiControl.Reading>, x: PiControl.Reading)
    ensures var a := Ema.Run(None, Internals(us), c.tuning.internalAlpha);
      var b := Ema.Run(None, Ambients(us), c.tuning.ambientAlpha);
      FilteredAll(c, us + [x]) == FilteredAll(c, us) +
        [PiControl.Reading(Ema.Filter(a, x.internal, c.tuning.internalAlpha),
                           Ema.Filter(b, x.ambient, c.tuning.ambientAlpha), x.now)]
  {
    hide Ema.Run;
    hide Ema.Filter;
    assert (us + [x])[..|us|] == us;
  }

  lemma ObeyPass(c: Config, l: Loop, us: seq<PiControl.Reading>, p: Pass)
    requires Valid(c) && Fed(c, l, us) && Obeys(c, l, us)
    ensures Obeys(c, OnePass(c, l, p), us + Calibrated(c, l.nextUpdate, p))
  {
    hide OnePass;
    hide Ema.Filter;
    hide Ema.Run;
    hide PiControl.Run;
    hide PiControl.Decide;
    hide FilteredAll;
    PassCommands(c, l, p);
    FilteredLength(c, us);
    if Due(l, p) && p.raw.Some? {
      var x := Calibrated(c, l.nextUpdate, p)[0];
      FilteredSnoc(c, us, x);
      var ys := FilteredAll(c, us + [x]);
      assert ys[..|us|] == FilteredAll(c, us) && ys[|us|] == Filtered(c, l, p.raw.value, p.t1);
    } else {
      assert us + Calibrated(c, l.nextUpdate, p) == us;
    }
  }

  lemma {:induction false} PassesFeed(c: Config, l: Loop, ps: seq<Pass>)
    requires Valid(c) && Fed(c, l, []) && Obeys(c, l, [])
    ensures Fed(c, Passes(c, l, ps), Readings(c, l.nextUpdate, ps))
    ensures Obeys(c, Passes(c, l, ps), Readings(c, l.nextUpdate, ps))
  {
    hide Fed;
    hide Obeys;
    hide OnePass;
    hide Calibrated;
    if ps != [] {
      var ds := ps[..|ps|-1];
      PassesFeed(c, l, ds);
      ScheduleKept(c, l, ds);
      FeedPass(c, Passes(c, l, ds), Readings(c, l.nextUpdate, ds), ps[|ps|-1]);
      ObeyPass(c, Passes(c, l, ds), Readings(c, l.nextUpdate, ds), ps[|ps|-1]);
    }
  }

  /** The filters and the integral are the filter and controller runs over the readings that the schedule
      calls for, so the averaging, integral and windup laws hold of the program; and the command in force
      is what the controller decided on the last of them, given at the time of that reading. */
  lemma LoopFeedsController(c: Config, on: set<int>, t0: real, o: Outcomes, ps: seq<Pass>)
    requires Valid(c) && Begin(c, on, t0, o).Some?
    ensures var l := Passes(c, Begin(c, on, t0, o).value, ps); var us := Readings(c, t0, ps);
      Fed(c, l, us) && Obeys(c, l, us) && PiControl.Bounded(c, l.pi)
  {
    hide SwitchTo;
    hide Passes;
    hide Readings;
    var l0 := Begin(c, on, t0, o).value;
    assert Internals([]) == [] && Ambients([]) == [];
    assert Fed(c, l0, []) && Obeys(c, l0, []);
    PassesFeed(c, l0, ps);
    PiControl.AlwaysBounded(c, FilteredAll(c, Readings(c, t0, ps)), PiControl.Reading(0.0, 0.0, 0.0));
  }

  // ---- The watchdog ---------------------------------------------------------------------------

  /** A pass that reads nothing only ticks. */
  lemma SilentPass(c: Config, l: Loop, p: Pass)
    requires Valid(c) && Calibrated(c, l.nextUpdate, p) == []
    ensures OnePass(c, l, p).rig == Tick(c, l.rig, p.now, p.o)
  {
  }

  /** A tick on a stale command, with its OFF commands confirmed, leaves both plugs off. */
  lemma StaleTickTurnsOff(c: Config, r: Rig, now: real)
    requires Valid(c) && c.heatNode != c.coolNode && Stale(c, r.act, now)
    requires Interlock.Safe(c, r) && Interlock.Covered(c, r)
    ensures var r' := Tick(c, r, now, ALL_DONE);
      r'.act.action == IDLE && c.heatNode !in r'.chip.on && c.coolNode !in r'.chip.on
  {
    var s := AdvanceWindow(c, r.act, now);
    assert PlanAt(c, s, now).requested == IDLE;
    hide Advance;
    hide PlanAt;
    Interlock.SwitchFacts(c, r.chip, IDLE, now, ALL_DONE);
    var s1 := SweepOff(c, r.chip, {}, now, ALL_DONE, 1);
    assert !s1.failed;
    var after := SwitchTo(c, r.chip, IDLE, now, ALL_DONE).0;
    assert Interlock.PlugOn(c, after, HEAT) <==> c.heatNode in after.on;
    assert Interlock.PlugOn(c, after, COOL) <==> c.coolNode in after.on;
    if s.action == IDLE {
      assert !Interlock.PlugOn(c, r.chip, HEAT) && !Interlock.PlugOn(c, r.chip, COOL);
    }
  }

  /** The watchdog. Whatever the plug commands did so far (short of a stranding ON): at a time `x` more
      than `staleTimeout` plus `delta` after the last reading that the program got, or any time if it got
      none, with passes at most `delta` apart and the OFF commands of the last one confirmed, no plug
      is on. */
  lemma Watchdog(c: Config, on: set<int>, t0: real, o: Outcomes, ps: seq<Pass>, delta: real, x: real)
    requires Valid(c) && c.heatNode != c.coolNode && Begin(c, on, t0, o).Some?
    requires ps != [] && PassOrdered(ps[|ps|-1]) && ps[|ps|-1].o == ALL_DONE
    requires 0.0 <= delta && ps[|ps|-1].now <= x <= ps[|ps|-1].now + delta
    requires var us := Readings(c, t0, ps); us != [] ==> us[|us|-1].now + c.tuning.staleTimeout + delta < x
    requires Interlock.NoStrands(Passes(c, Begin(c, on, t0, o).value, ps[..|ps|-1]).rig.chip.trace, 0)
    ensures var r := Passes(c, Begin(c, on, t0, o).value, ps).rig;
      r.act.action == IDLE && c.heatNode !in r.chip.on && c.coolNode !in r.chip.on
  {
    hide OnePass;
    hide Tick;
    hide SwitchTo;
    hide Fed;
    hide FilteredAll;
    var l0, ds, p := Begin(c, on, t0, o).value, ps[..|ps|-1], ps[|ps|-1];
    var l := Passes(c, l0, ds);
    LoopFeedsController(c, on, t0, o, ds);
    ScheduleKept(c, l0, ds);
    assert Calibrated(c, l.nextUpdate, p) == [];
    SilentPass(c, l, p);
    ProgramSafe(c, on, t0, o, ds);
    StaleTickTurnsOff(c, l.rig, p.now);
  }

  // ---- The heartbeat ---------------------------------------------------------------------------

  /** A plan repeated right after a confirmed tick asks for what the tick has switched to. */
  lemma PlanAfterTick(c: Config, r: Rig, now: real)
    requires Valid(c) && c.heatNode != c.coolNode
    ensures var r' := Apply(c, Tick(c, r, now, ALL_DONE), Replanned(now));
      r'.act.action != IDLE ==> PlanAt(c, r'.act, now).requested == r'.act.action
  {
    hide Mul;
    hide SwitchTo;
    var w := c.tuning.window;
    if r.act.windowStart.Some? { Window.AdvanceTwice(w, r.act.windowStart.value, now); }
    Window.AdvanceSame(w, now);
    hide Advance;
    Interlock.SwitchCommands(c, r.chip, PlanAt(c, AdvanceWindow(c, r.act, now), now).requested, now, ALL_DONE);
  }

  /** What the telemetry reports is true: when the plan reported by an update asks for IDLE, and the
      commands of the tick before it were confirmed, both plugs are off (short of a stranding ON). */
  lemma {:induction false} IdleReportMeansOff(c: Config, on: set<int>, t0: real, o: Outcomes, ps: seq<Pass>)
    requires Valid(c) && c.heatNode != c.coolNode && Begin(c, on, t0, o).Some? && ps != []
    requires var n := |ps| - 1; NextDue(c, t0, ps[..n]) <= ps[n].now && ps[n].raw.Some? && ps[n].o2 == ALL_DONE
    requires Interlock.NoStrands(Passes(c, Begin(c, on, t0, o).value, ps).rig.chip.trace, 0)
    ensures var r := Passes(c, Begin(c, on, t0, o).value, ps).rig;
      r.act.windowStart.Some?
      && (PlanAt(c, r.act, ps[|ps|-1].t2).requested == IDLE ==>
            c.heatNode !in r.chip.on && c.coolNode !in r.chip.on)
  {
    hide Begin;
    hide Tick;
    hide PlanAt;
    hide Interlock.Safe;
    var l0, n := Begin(c, on, t0, o).value, |ps| - 1;
    assert l0.nextUpdate == t0 by { Started(c, on, t0, o); }
    var l, p := Passes(c, l0, ps[..n]), ps[n];
    ScheduleKept(c, l0, ps[..n]);
    ProgramSafe(c, on, t0, o, ps);
    var r2 := SecondTick(c, l, p);
    PlanAfterTick(c, r2, p.t2);
    var r := Passes(c, l0, ps).rig;
    hide OnePass;
    assert Interlock.PlugOn(c, r.chip, HEAT) <==> c.heatNode in r.chip.on;
    assert Interlock.PlugOn(c, r.chip, COOL) <==> c.coolNode in r.chip.on;
  }

  lemma Started(c: Config, on: set<int>, t0: real, o: Outcomes)
    requires Begin(c, on, t0, o).Some?
    ensures Begin(c, on, t0, o).value.nextUpdate == t0
  {
  }

  /** An update ends with a tick and a plan at one time. */
  lemma SecondTick(c: Config, l: Loop, p: Pass) returns (r: Rig)
    requires Valid(c) && Due(l, p) && p.raw.Some?
    ensures OnePass(c, l, p).rig == Apply(c, Tick(c, r, p.t2, p.o2), Replanned(p.t2))
  {
    var r0 := Apply(c, l.rig, Ticked(p.now, p.o));
    var r1 := Apply(c, r0, EffortSet(NewEffort(c, l.(rig := r0), p.raw.value, p.t1), p.t1));
    r := Apply(c, r1, Ticked(p.t1, p.o1));
    hide Tick;
    hide NewEffort;
  }

  // ---- Direction safety -------------------------------------------------------------------------

  /** How far a temperature lies on the side of the setpoint that calls for the opposite of `d`. */
  function Excess(c: Config, d: Action, temperature: real): real {
    if d == HEAT then temperature - c.setpoint else c.setpoint - temperature
  }

  /** Calibrated readings: the beer at least `m` and the room at least `a` beyond the setpoint. */
  ghost predicate Beyond(c: Config, d: Action, ps: seq<Pass>, m: real, a: real) {
    forall i :: 0 <= i < |ps| && ps[i].raw.Some? ==>
      && m <= Excess(c, d, ps[i].raw.value.internal + c.internalOffset)
      && a <= Excess(c, d, ps[i].raw.value.ambient + c.ambientOffset)
  }

  /** Such readings never ask for direction `d`: feedback and feedforward outweigh the integral. */
  predicate Outweighs(c: Config, m: real, a: real) {
    && 0.0 <= c.tuning.kp && 0.0 <= c.tuning.kff
    && c.tuning.kp * m + c.tuning.kff * a > c.tuning.integralLimit
  }

  /** The effort does not point in direction `d`. */
  predicate Away(d: Action, effort: real) { if d == HEAT then effort <= 0.0 else 0.0 <= effort }

  lemma HotTerms(c: Config, s: PiControl.PiState, x: PiControl.Reading, m: real, a: real)
    requires Valid(c) && Outweighs(c, m, a)
    requires m <= x.internal - c.setpoint && a <= x.ambient - c.setpoint
    ensures var t := PiControl.TermsOf(c, s, x); t.p + t.ff < -c.tuning.integralLimit
  {
  }

  lemma HotEffort(c: Config, s: PiControl.PiState, x: PiControl.Reading, m: real, a: real)
    requires Valid(c) && Outweighs(c, m, a) && PiControl.Bounded(c, s)
    requires m <= x.internal - c.setpoint && a <= x.ambient - c.setpoint
    ensures PiControl.Decide(c, s, x).effort < 0.0
  {
    HotTerms(c, s, x, m, a);
    hide PiControl.TermsOf;
    hide Outweighs;
  }

  /** The controller's share, for either direction (cooling by mirror symmetry). */
  lemma BeyondEffort(c: Config, d: Action, s: PiControl.PiState, x: PiControl.Reading, m: real, a: real)
    requires Valid(c) && Outweighs(c, m, a) && PiControl.Bounded(c, s) && d != IDLE
    requires m <= Excess(c, d, x.internal) && a <= Excess(c, d, x.ambient)
    ensures Away(d, PiControl.Decide(c, s, x).effort)
    ensures PiControl.Bounded(c, PiControl.NextState(c, s, x))
  {
    hide Outweighs;
    hide PiControl.TermsOf;
    if d == HEAT {
      HotEffort(c, s, x, m, a);
    } else {
      PiControl.MirrorStep(c, s, x);
      HotEffort(c, PiControl.Negate(s), PiControl.Mirror(c, x), m, a);
    }
  }

  /** The filter's share: a filtered temperature stays as far beyond as its samples. */
  lemma BeyondFilter(c: Config, d: Action, previous: Option<real>, sample: real, alpha: real, m: real)
    requires 0.0 <= alpha <= 1.0 && m <= Excess(c, d, sample)
    requires previous.Some? ==> m <= Excess(c, d, previous.value)
    ensures m <= Excess(c, d, Ema.Filter(previous, sample, alpha))
  {
    hide Mul;
    if previous.Some? {
      var u := previous.value;
      Ema.BlendInHull(u, sample, alpha, Min(u, sample), Max(u, sample));
    }
  }

  /** The actuator's share: an effort away from `d` never plans or commands `d`. */
  ghost predicate Avoids(c: Config, r: Rig, d: Action)
    requires d != IDLE
  {
    && Away(d, r.act.effort) && r.act.action != d
    && (forall i :: 0 <= i < |r.chip.trace| ==> !(r.chip.trace[i].on && r.chip.trace[i].node == NodeOf(c, d)))
    && (forall i :: 0 <= i < |r.log| ==> r.log[i].action != d)
  }

  lemma AwayPlan(c: Config, s: ActState, d: Action, now: real)
    requires Valid(c) && s.windowStart.Some? && d != IDLE && Away(d, s.effort)
    ensures PlanAt(c, s, now).requested != d
  {
  }

  lemma AvoidingSwitch(c: Config, chip: Chip, a: Action, d: Action, now: real, o: Outcomes)
    requires c.heatNode != c.coolNode && d != IDLE && a != d
    requires forall i :: 0 <= i < |chip.trace| ==> !(chip.trace[i].on && chip.trace[i].node == NodeOf(c, d))
    ensures var after := SwitchTo(c, chip, a, now, o).0;
      forall i :: 0 <= i < |after.trace| ==> !(after.trace[i].on && after.trace[i].node == NodeOf(c, d))
  {
  }

  lemma ApplyAvoids(c: Config, r: Rig, e: Event, d: Action)
    requires Valid(c) && c.heatNode != c.coolNode && d != IDLE && Avoids(c, r, d)
    requires e.EffortSet? ==> Away(d, e.effort)
    ensures Avoids(c, Apply(c, r, e), d)
  {
    hide Advance;
    match e
    case EffortSet(_, _) =>
    case Replanned(_) =>
    case Ticked(now, o) =>
      var a := PlanAt(c, AdvanceWindow(c, r.act, now), now).requested;
      AwayPlan(c, AdvanceWindow(c, r.act, now), d, now);
      AvoidingSwitch(c, r.chip, a, d, now, o);
      hide PlanAt;
      hide SwitchTo;
    case ShutDown(now, o) =>
      AvoidingSwitch(c, r.chip, IDLE, d, now, o);
      hide SwitchTo;
  }

  ghost predicate LoopBeyond(c: Config, l: Loop, d: Action, m: real, a: real)
    requires d != IDLE
  {
    && (l.internal.Some? ==> m <= Excess(c, d, l.internal.value))
    && (l.ambient.Some? ==> a <= Excess(c, d, l.ambient.value))
    && PiControl.Bounded(c, l.pi) && Avoids(c, l.rig, d)
  }

  lemma UpdateBeyond(c: Config, l: Loop, p: Pass, d: Action, m: real, a: real)
    requires Valid(c) && c.heatNode != c.coolNode && d != IDLE && Outweighs(c, m, a)
    requires LoopBeyond(c, l, d, m, a) && Beyond(c, d, [p], m, a)
    ensures LoopBeyond(c, ControlUpdate(c, l, p), d, m, a)
  {
    hide Outweighs;
    if p.raw.Some? {
      assert [p][0].raw.Some?;
      var raw := p.raw.value;
      var x := Filtered(c, l, raw, p.t1);
      BeyondFilter(c, d, l.internal, raw.internal + c.internalOffset, c.tuning.internalAlpha, m);
      BeyondFilter(c, d, l.ambient, raw.ambient + c.ambientOffset, c.tuning.ambientAlpha, a);
      hide Ema.Filter;
      BeyondEffort(c, d, l.pi, x, m, a);
      hide PiControl.NextState;
      hide PiControl.Decide;
      hide Avoids;
      hide Apply;
      var e := NewEffort(c, l, raw, p.t1);
      var r1 := Apply(c, l.rig, EffortSet(e, p.t1));
      ApplyAvoids(c, l.rig, EffortSet(e, p.t1), d);
      var r2 := Apply(c, r1, Ticked(p.t1, p.o1));
      ApplyAvoids(c, r1, Ticked(p.t1, p.o1), d);
      ApplyAvoids(c, r2, Ticked(p.t2, p.o2), d);
      ApplyAvoids(c, Apply(c, r2, Ticked(p.t2, p.o2)), Replanned(p.t2), d);
    }
  }

  lemma {:induction false} LoopStaysBeyond(c: Config, l: Loop, ps: seq<Pass>, d: Action, m: real, a: real)
    requires Valid(c) && c.heatNode != c.coolNode && d != IDLE && Outweighs(c, m, a)
    requires LoopBeyond(c, l, d, m, a) && Beyond(c, d, ps, m, a)
    ensures LoopBeyond(c, Passes(c, l, ps), d, m, a)
  {
    if ps != [] {
      var n := |ps| - 1;
      LoopStaysBeyond(c, l, ps[..n], d, m, a);
      var q, p := Passes(c, l, ps[..n]), ps[n];
      ApplyAvoids(c, q.rig, Ticked(p.now, p.o), d);
      var q1 := q.(rig := Apply(c, q.rig, Ticked(p.now, p.o)));
      UpdateBeyond(c, q1, p, d, m, a);
      hide Apply;
      hide ControlUpdate;
      hide Avoids;
      hide Outweighs;
      hide Beyond;
    }
  }

  /** End to end: as long as every calibrated reading is far enough beyond the setpoint, the program
      never plans, records or commands the direction that would drive it farther, from the filters
      through the controller to the plugs. For `d` HEAT the readings are too warm, for COOL too cold. */
  lemma NeverTheWrongDirection(
      c: Config, on: set<int>, t0: real, o: Outcomes, ps: seq<Pass>, d: Action, m: real, a: real, now: real)
    requires Valid(c) && c.heatNode != c.coolNode && d != IDLE && Begin(c, on, t0, o).Some?
    requires Outweighs(c, m, a) && Beyond(c, d, ps, m, a)
    ensures var r := Passes(c, Begin(c, on, t0, o).value, ps).rig;
      && PlanAt(c, AdvanceWindow(c, r.act, now), now).requested != d
      && r.act.action != d
      && (forall i :: 0 <= i < |r.log| ==> r.log[i].action != d)
      && (forall i :: 0 <= i < |r.chip.trace| ==> !(r.chip.trace[i].on && r.chip.trace[i].node == NodeOf(c, d)))
  {
    var l := Begin(c, on, t0, o).value;
    LoopStaysBeyond(c, l, ps, d, m, a);
    var r := Passes(c, l, ps).rig;
    hide Outweighs;
    hide Beyond;
    hide Passes;
    hide Advance;
    hide Start;
    AwayPlan(c, AdvanceWindow(c, r.act, now), d, now);
  }
}
