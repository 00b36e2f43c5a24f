/** Duty fidelity: over whole windows, the plug is on for the requested share of the time. */
module Duty {
  import opened Prelude
  import opened Settings
  import opened Actuator
  import Interlock
  import Window

  // ---- On-time of a sampled plug ---------------------------------------------------------------

  /** The plug from one tick on, until the next. */
  datatype Sample = Sample(time: real, on: bool)

  function Overlap(a: real, b: real, lo: real, hi: real): real { Max(0.0, Min(b, hi) - Max(a, lo)) }

  /** How long the plug is on between `lo` and `hi`, up to the last sample. */
  function OnTime(ss: seq<Sample>, lo: real, hi: real): real {
    if |ss| < 2 then 0.0
    else
      var n := |ss| - 1;
      OnTime(ss[..n], lo, hi) +
      if ss[n-1].on then Overlap(ss[n-1].time, ss[n].time, lo, hi) else 0.0
  }

  /** Samples on a clock that does not go back, at most `delta` apart. */
  ghost predicate Dense(ss: seq<Sample>, delta: real) {
    forall i :: 0 < i < |ss| ==> ss[i-1].time <= ss[i].time <= ss[i-1].time + delta
  }

  /** Inside the window from `lo` to `hi` a sample is on exactly during the first `active`. */
  ghost predicate Pulsed(ss: seq<Sample>, lo: real, hi: real, active: real) {
    forall i :: 0 <= i < |ss| && lo <= ss[i].time < hi ==> (ss[i].on <==> ss[i].time < lo + active)
  }

  predicate Near(x: real, y: real, d: real) { y - d <= x <= y + d }

  /** What the on-time `x` inside the window can be when the clock shows `t`. */
  predicate OnTrack(lo: real, active: real, delta: real, t: real, x: real) {
    && (t <= lo ==> x == 0.0)
    && (lo <= t < lo + active ==> t - lo - delta <= x <= t - lo)
    && (lo + active <= t ==> Near(x, active, delta))
  }

  lemma TrackStep(lo: real, hi: real, active: real, delta: real, a: real, on: bool, b: real, x: real)
    requires 0.0 <= active <= hi - lo && 0.0 <= delta && a <= b <= a + delta
    requires lo <= a < hi ==> (on <==> a < lo + active)
    requires OnTrack(lo, active, delta, a, x)
    ensures OnTrack(lo, active, delta, b, x + if on then Overlap(a, b, lo, hi) else 0.0)
  {
  }

  /** The on-time inside one window, tracked sample by sample. */
  lemma {:induction false} OneWindow(ss: seq<Sample>, lo: real, hi: real, active: real, delta: real)
    requires ss != [] && ss[0].time <= lo && 0.0 <= active <= hi - lo && 0.0 <= delta
    requires Dense(ss, delta) && Pulsed(ss, lo, hi, active)
    ensures OnTrack(lo, active, delta, ss[|ss|-1].time, OnTime(ss, lo, hi))
  {
    if |ss| > 1 {
      var n := |ss| - 1;
      assert ss[..n][n-1] == ss[n-1];
      hide OnTrack;
      hide Overlap;
      OneWindow(ss[..n], lo, hi, active, delta);
      TrackStep(lo, hi, active, delta, ss[n-1].time, ss[n-1].on, ss[n].time, OnTime(ss[..n], lo, hi));
    }
  }

  lemma {:induction false} OnTimeSplits(ss: seq<Sample>, lo: real, mid: real, hi: real, delta: real)
    requires lo <= mid <= hi && Dense(ss, delta)
    ensures OnTime(ss, lo, hi) == OnTime(ss, lo, mid) + OnTime(ss, mid, hi)
  {
    if |ss| > 1 {
      OnTimeSplits(ss[..|ss|-1], lo, mid, hi, delta);
    }
  }

  /** The k-th window after `start`. */
  function WindowAt(start: real, w: real, k: nat): real { start + Mul(k as real, w) }

  /** Windows `k` to `k + m`: one `delta` of error for each. */
  lemma {:induction false} ManyWindows(ss: seq<Sample>, start: real, w: real, active: real, delta: real, k: nat, m: nat)
    requires ss != [] && ss[0].time <= WindowAt(start, w, k) && 0.0 <= active <= w && 0.0 < w && 0.0 <= delta
    requires WindowAt(start, w, k + m) <= ss[|ss|-1].time
    requires Dense(ss, delta)
    requires forall j: nat :: Pulsed(ss, WindowAt(start, w, j), WindowAt(start, w, j) + w, active)
    ensures WindowAt(start, w, k) <= WindowAt(start, w, k + m)
    ensures Near(OnTime(ss, WindowAt(start, w, k), WindowAt(start, w, k + m)), Times(m, active), Times(m, delta))
  {
    if m == 0 {
      EmptyWindow(ss, WindowAt(start, w, k));
    } else {
      var lo, mid := WindowAt(start, w, k), WindowAt(start, w, k + m - 1);
      SumTimes((k + m - 1) as real, 1.0, w);
      assert (k + m - 1) as real + 1.0 == (k + m) as real;
      assert WindowAt(start, w, k + m) == mid + w;
      ManyWindows(ss, start, w, active, delta, k, m - 1);
      OneWindow(ss, mid, mid + w, active, delta);
      OnTimeSplits(ss, lo, mid, mid + w, delta);
    }
  }

  lemma {:induction false} EmptyWindow(ss: seq<Sample>, t: real)
    ensures OnTime(ss, t, t) == 0.0
  {
    if |ss| > 1 {
      EmptyWindow(ss[..|ss|-1], t);
    }
  }

  // ---- The actuator under a held command -----------------------------------------------------------

  /** The calls that a held command allows: itself again, ticks with confirmed plug commands, plans. */
  predicate Holding(e: real, ev: Event) {
    match ev
    case EffortSet(effort, _) => effort == e
    case Ticked(_, o) => o == ALL_DONE
    case Replanned(_) => true
    case ShutDown(_, _) => false
  }

  function LastTick(es: seq<Event>): Option<real> {
    if es == [] then None
    else if es[|es|-1].Ticked? then Some(es[|es|-1].now)
    else LastTick(es[..|es|-1])
  }

  /** The call comes in order and not too late: the command in force is fresh and no tick is more than
      `delta` after the one before. */
  predicate InTime(c: Config, r: Rig, last: Option<real>, ev: Event, delta: real) {
    && r.clock <= ev.now
    && (ev.Replanned? || !Stale(c, r.act, ev.now))
    && (ev.Ticked? && last.Some? ==> last.value <= ev.now <= last.value + delta)
  }

  ghost predicate Regular(c: Config, r: Rig, e: real, es: seq<Event>, delta: real)
    requires Valid(c)
  {
    es != [] ==>
      var n := |es| - 1;
      && Regular(c, r, e, es[..n], delta)
      && Holding(e, es[n]) && InTime(c, Run(c, r, es[..n]), LastTick(es[..n]), es[n], delta)
  }

  /** The plug of direction `d` after each tick. */
  ghost function Samples(c: Config, r: Rig, d: Action, es: seq<Event>): (ss: seq<Sample>)
    requires Valid(c) && d != IDLE
    ensures ss == [] <==> LastTick(es) == None
    ensures ss != [] ==> Some(ss[|ss|-1].time) == LastTick(es)
  {
    if es == [] then []
    else
      Samples(c, r, d, es[..|es|-1]) +
      if es[|es|-1].Ticked? then [Sample(es[|es|-1].now, Interlock.PlugOn(c, Run(c, r, es).chip, d))] else []
  }

  /** The plugs are what the record says. */
  ghost predicate Exact(c: Config, r: Rig) {
    forall d :: d != IDLE ==> (Interlock.PlugOn(c, r.chip, d) <==> r.act.action == d)
  }

  /** An eligible effort `e` is in force, the plugs match the record and no reversal is pending. */
  ghost predicate Held(c: Config, r: Rig, e: real, start: real)
    requires Valid(c)
  {
    var s, d := r.act, Direction(e);
    && -1.0 <= e <= 1.0 && Eligible(c, e) && s.effort == e && s.lastEffort.Some?
    && s.windowStart.Some? && start <= s.windowStart.value <= r.clock
    && Advance(c.tuning.window, start, s.windowStart.value) == s.windowStart.value
    && Exact(c, r) && s.action in {IDLE, d}
    && ((s.lastDirection.Some? && s.lastDirection.value != d && s.idleSince.Some?) ==>
          s.idleSince.value + c.tuning.reverseIdle <= r.clock)
  }

  /** Confirmed commands set the plugs to the wanted action. */
  lemma ConfirmedSwitch(c: Config, chip: Chip, a: Action, now: real)
    requires c.heatNode != c.coolNode && Interlock.NotBoth(c, chip.on)
    ensures var (after, ok) := SwitchTo(c, chip, a, now, ALL_DONE);
      ok && forall d :: d != IDLE ==> (Interlock.PlugOn(c, after, d) <==> d == a)
  {
  }

  lemma HeldPlan(c: Config, r: Rig, e: real, start: real, now: real)
    requires Valid(c) && Held(c, r, e, start) && r.clock <= now && !Stale(c, r.act, now)
    ensures var s := AdvanceWindow(c, r.act, now); var x := Advance(c.tuning.window, start, now);
      && s == r.act.(windowStart := Some(x)) && start <= x <= now
      && Advance(c.tuning.window, start, x) == x
      && PlanAt(c, s, now).requested == if now - x < ActiveS(c, e) then Direction(e) else IDLE
  {
    var w, y := c.tuning.window, r.act.windowStart.value;
    Window.AdvancePathIndependent(w, start, y, now);
    Window.AdvanceWhole(w, start, now);
    Window.AdvanceIdempotent(w, start, now);
    hide Advance;
    hide ActiveS;
    hide Exact;
  }

  /** Under a held command every tick sets the plug by the phase of its window alone. */
  lemma HeldTick(c: Config, r: Rig, e: real, start: real, now: real)
    requires Valid(c) && c.heatNode != c.coolNode && Held(c, r, e, start)
    requires r.clock <= now && !Stale(c, r.act, now)
    ensures var r' := Tick(c, r, now, ALL_DONE);
      && Held(c, r', e, start) && r'.clock == now
      && (Interlock.PlugOn(c, r'.chip, Direction(e))
          <==> now - Advance(c.tuning.window, start, now) < ActiveS(c, e))
  {
    HeldPlan(c, r, e, start, now);
    var s := AdvanceWindow(c, r.act, now);
    var a := PlanAt(c, s, now).requested;
    assert Interlock.NotBoth(c, r.chip.on) by {
      assert Interlock.PlugOn(c, r.chip, HEAT) <==> c.heatNode in r.chip.on;
      assert Interlock.PlugOn(c, r.chip, COOL) <==> c.coolNode in r.chip.on;
    }
    ConfirmedSwitch(c, r.chip, a, now);
    hide Advance;
    hide ActiveS;
    hide SwitchTo;
    hide PlanAt;
    hide AdvanceWindow;
  }

  lemma HeldReplan(c: Config, r: Rig, e: real, start: real, now: real)
    requires Valid(c) && Held(c, r, e, start) && r.clock <= now
    ensures Held(c, Apply(c, r, Replanned(now)), e, start)
  {
    var w, y := c.tuning.window, r.act.windowStart.value;
    Window.AdvancePathIndependent(w, start, y, now);
    Window.AdvanceWhole(w, start, now);
    Window.AdvanceIdempotent(w, start, now);
    hide Advance;
    hide Eligible;
    hide Interlock.PlugOn;
  }

  lemma HeldEvent(c: Config, r: Rig, e: real, start: real, ev: Event)
    requires Valid(c) && c.heatNode != c.coolNode && Held(c, r, e, start)
    requires Holding(e, ev) && r.clock <= ev.now && (ev.Replanned? || !Stale(c, r.act, ev.now))
    ensures Held(c, Apply(c, r, ev), e, start) && Apply(c, r, ev).clock == ev.now
  {
    match ev
    case Ticked(now, _) =>
      hide Held;
      HeldTick(c, r, e, start, now);
    case Replanned(now) =>
      hide Held;
      HeldReplan(c, r, e, start, now);
    case EffortSet(_, _) =>
  }

  lemma {:induction false} HeldRun(c: Config, r: Rig, e: real, start: real, es: seq<Event>, delta: real)
    requires Valid(c) && c.heatNode != c.coolNode && Held(c, r, e, start) && Regular(c, r, e, es, delta)
    ensures Held(c, Run(c, r, es), e, start)
  {
    hide Held;
    hide Apply;
    hide Stale;
    hide Holding;
    if es != [] {
      HeldRun(c, r, e, start, es[..|es|-1], delta);
      HeldEvent(c, Run(c, r, es[..|es|-1]), e, start, es[|es|-1]);
    }
  }

  /** The sample that a tick of a held command gives. */
  ghost predicate PhaseSample(c: Config, e: real, start: real, x: Sample)
    requires Valid(c)
  {
    start <= x.time && (x.on <==> x.time - Advance(c.tuning.window, start, x.time) < ActiveS(c, e))
  }

  lemma LastSample(c: Config, r: Rig, e: real, start: real, es: seq<Event>, delta: real)
    requires Valid(c) && c.heatNode != c.coolNode && Held(c, r, e, start) && Regular(c, r, e, es, delta)
    requires es != [] && es[|es|-1].Ticked?
    ensures PhaseSample(c, e, start,
                        Sample(es[|es|-1].now, Interlock.PlugOn(c, Run(c, r, es).chip, Direction(e))))
  {
    hide Held;
    hide Advance;
    hide ActiveS;
    hide Stale;
    hide Tick;
    hide Interlock.PlugOn;
    var n := |es| - 1;
    var q := Run(c, r, es[..n]);
    HeldRun(c, r, e, start, es[..n], delta);
    HeldTick(c, q, e, start, es[n].now);
    HeldStart(c, q, e, start);
  }

  lemma {:induction false} HeldSamples(c: Config, r: Rig, e: real, start: real, es: seq<Event>, delta: real)
    requires Valid(c) && c.heatNode != c.coolNode && Held(c, r, e, start) && Regular(c, r, e, es, delta)
    ensures var ss := Samples(c, r, Direction(e), es);
      Dense(ss, delta) && forall i :: 0 <= i < |ss| ==> PhaseSample(c, e, start, ss[i])
  {
    hide Held;
    hide PhaseSample;
    hide Run;
    hide Stale;
    hide Holding;
    hide Interlock.PlugOn;
    hide Dense;
    if es == [] {
      NoneDense(delta);
    } else {
      var n := |es| - 1;
      HeldSamples(c, r, e, start, es[..n], delta);
      if es[n].Ticked? {
        LastSample(c, r, e, start, es, delta);
        DenseAppend(Samples(c, r, Direction(e), es[..n]),
                    Sample(es[n].now, Interlock.PlugOn(c, Run(c, r, es).chip, Direction(e))), delta);
      } else {
        assert Samples(c, r, Direction(e), es) == Samples(c, r, Direction(e), es[..n]);
      }
    }
  }

  lemma NoneDense(delta: real)
    ensures Dense([], delta)
  {
  }

  lemma DenseAppend(ss: seq<Sample>, x: Sample, delta: real)
    requires Dense(ss, delta) && (ss != [] ==> ss[|ss|-1].time <= x.time <= ss[|ss|-1].time + delta)
    ensures Dense(ss + [x], delta)
  {
  }

  lemma HeldStart(c: Config, r: Rig, e: real, start: real)
    requires Valid(c) && Held(c, r, e, start)
    ensures start <= r.clock
  {
  }

  lemma HeldPulsed(c: Config, ss: seq<Sample>, e: real, start: real, j: nat)
    requires Valid(c)
    requires forall i :: 0 <= i < |ss| ==> PhaseSample(c, e, start, ss[i])
    ensures var w := c.tuning.window;
      Pulsed(ss, WindowAt(start, w, j), WindowAt(start, w, j) + w, ActiveS(c, e))
  {
    var w := c.tuning.window;
    hide Advance;
    hide ActiveS;
    forall i | 0 <= i < |ss| && WindowAt(start, w, j) <= ss[i].time < WindowAt(start, w, j) + w
      ensures ss[i].on <==> ss[i].time < WindowAt(start, w, j) + ActiveS(c, e)
    {
      Window.AdvanceInWindow(w, start, j, ss[i].time);
    }
  }

  lemma ActiveInWindow(c: Config, e: real)
    requires Valid(c) && -1.0 <= e <= 1.0
    ensures 0.0 <= ActiveS(c, e) <= c.tuning.window
  {
  }

  /** The premise is met by the first command after startup, whatever the plugs did before. */
  lemma HeldAfterStart(c: Config, on: set<int>, t0: real, o: Outcomes, e: real, now: real)
    requires Valid(c) && c.heatNode != c.coolNode && Start(c, on, t0, o).Some?
    requires t0 <= now && -1.0 <= e <= 1.0 && Eligible(c, e)
    ensures Held(c, Apply(c, Start(c, on, t0, o).value, EffortSet(e, now)), e, now)
  {
  }

  lemma DutyOfWindows(c: Config, r: Rig, e: real, es: seq<Event>, delta: real, k: nat, m: nat)
    requires Valid(c) && c.heatNode != c.coolNode && r.act.windowStart.Some? && 0.0 <= delta
    requires Held(c, r, e, r.act.windowStart.value) && Regular(c, r, e, es, delta)
    requires Spanned(Samples(c, r, Direction(e), es), r.act.windowStart.value, c.tuning.window, k, m)
    ensures var start, w := r.act.windowStart.value, c.tuning.window;
      Near(OnTime(Samples(c, r, Direction(e), es), WindowAt(start, w, k), WindowAt(start, w, k + m)),
           Times(m, Mul(Abs(e), w)), Times(m, delta))
  {
    var start, w := r.act.windowStart.value, c.tuning.window;
    var ss := Samples(c, r, Direction(e), es);
    HeldSamples(c, r, e, start, es, delta);
    ActiveInWindow(c, e);
    assert -1.0 <= e <= 1.0;
    hide Held;
    hide Samples;
    hide Regular;
    hide Mul;
    forall j: nat
      ensures Pulsed(ss, WindowAt(start, w, j), WindowAt(start, w, j) + w, ActiveS(c, e))
    {
      HeldPulsed(c, ss, e, start, j);
    }
    hide Pulsed;
    ManyWindows(ss, start, w, ActiveS(c, e), delta, k, m);
  }

  /** There are samples from the beginning of window `k` to the beginning of window `k + m`. */
  predicate Spanned(ss: seq<Sample>, start: real, w: real, k: nat, m: nat) {
    ss != [] && ss[0].time <= WindowAt(start, w, k) && WindowAt(start, w, k + m) <= ss[|ss|-1].time
  }

  /** In every run of calls in which an eligible effort is held, with fresh commands, confirmed plug
      commands, no pending reversal and ticks at most `delta` apart: over any `m` windows that the ticks
      span, the plug of the requested direction is on for `m * |e| * window` up to `m * delta`. */
  lemma DutyFidelity(c: Config, r: Rig, e: real, es: seq<Event>, delta: real, k: nat, m: nat)
    requires Valid(c) && c.heatNode != c.coolNode && r.act.windowStart.Some? && 0.0 <= delta
    requires Held(c, r, e, r.act.windowStart.value) && Regular(c, r, e, es, delta)
    requires Spanned(Samples(c, r, Direction(e), es), r.act.windowStart.value, c.tuning.window, k, m)
    ensures var start, w := r.act.windowStart.value, c.tuning.window;
      Near(OnTime(Samples(c, r, Direction(e), es), WindowAt(start, w, k), WindowAt(start, w, k + m)),
           m as real * (Abs(e) * w), m as real * delta)
  {
    hide Held;
    hide Samples;
    hide Regular;
    hide WindowAt;
    hide OnTime;
    hide Spanned;
    DutyOfWindows(c, r, e, es, delta, k, m);
    TimesIsProduct(m, Mul(Abs(e), c.tuning.window));
    TimesIsProduct(m, delta);
  }
}
