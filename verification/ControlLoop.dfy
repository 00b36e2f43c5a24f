/** The loop that reads the sensors now and then and keeps the actuator ticking in between. */
module ControlLoop {
  import opened Prelude
  import opened Settings
  import Ema
  import PiControl
  import opened Actuator

  datatype Loop = Loop(
    ambient: Option<real>,
    internal: Option<real>,
    pi: PiControl.PiState,
    rig: Rig,
    nextUpdate: real)

  /** Both temperatures as the sensors report them, before calibration. */
  datatype Raw = Raw(ambient: real, internal: real)

  /** What the environment supplies to one pass: the clock each time it is read, the sensor
      readings (none if a read fails) and the outcomes of the plug commands of each tick. */
  datatype Pass = Pass(
    now: real, o: Outcomes,
    raw: Option<Raw>,
    t1: real, o1: Outcomes,
    t2: real, o2: Outcomes,
    t3: real)

  function Begin(c: Config, on: set<int>, now: real, o: Outcomes): Option<Loop> {
    var r := Start(c, on, now, o);
    if r.None? then None else Some(Loop(None, None, PiControl.INITIAL, r.value, now))
  }

  /** The filtered temperatures after one more reading. */
  function Filtered(c: Config, l: Loop, raw: Raw, now: real): PiControl.Reading {
    PiControl.Reading(
      Ema.Filter(l.internal, raw.internal + c.internalOffset, c.tuning.internalAlpha),
      Ema.Filter(l.ambient, raw.ambient + c.ambientOffset, c.tuning.ambientAlpha),
      now)
  }

  /** The effort commanded by one more reading. */
  function NewEffort(c: Config, l: Loop, raw: Raw, now: real): real {
    PiControl.Decide(c, l.pi, Filtered(c, l, raw, now)).effort
  }

  function ControlUpdate(c: Config, l: Loop, p: Pass): Loop
    requires Valid(c)
  {
    if p.raw.None? then l
    else
      var x := Filtered(c, l, p.raw.value, p.t1);
      var r1 := Apply(c, l.rig, EffortSet(NewEffort(c, l, p.raw.value, p.t1), p.t1));
      var r2 := Apply(c, r1, Ticked(p.t1, p.o1));
      var r3 := Apply(c, r2, Ticked(p.t2, p.o2));
      l.(ambient := Some(x.ambient), internal := Some(x.internal), pi := PiControl.NextState(c, l.pi, x),
         rig := Apply(c, r3, Replanned(p.t2)))
  }

  function Due(l: Loop, p: Pass): bool { p.now >= l.nextUpdate }

  function OnePass(c: Config, l: Loop, p: Pass): Loop
    requires Valid(c)
  {
    var l1 := l.(rig := Apply(c, l.rig, Ticked(p.now, p.o)));
    if Due(l, p) then ControlUpdate(c, l1, p).(nextUpdate := p.t3 + c.period) else l1
  }

  function Passes(c: Config, l: Loop, ps: seq<Pass>): Loop
    requires Valid(c)
  {
    if ps == [] then l else OnePass(c, Passes(c, l, ps[..|ps|-1]), ps[|ps|-1])
  }

  // ---- The loop as a run of the actuator --------------------------------------------------------

  function PassEvents(c: Config, l: Loop, p: Pass): seq<Event> {
    [Ticked(p.now, p.o)] +
    if Due(l, p) && p.raw.Some? then
      [EffortSet(NewEffort(c, l, p.raw.value, p.t1), p.t1), Ticked(p.t1, p.o1), Ticked(p.t2, p.o2), Replanned(p.t2)]
    else []
  }

  function Events(c: Config, l: Loop, ps: seq<Pass>): seq<Event>
    requires Valid(c)
  {
    if ps == [] then []
    else Events(c, l, ps[..|ps|-1]) + PassEvents(c, Passes(c, l, ps[..|ps|-1]), ps[|ps|-1])
  }

  lemma {:induction false} RunAppend(c: Config, r: Rig, es: seq<Event>, fs: seq<Event>)
    requires Valid(c)
    ensures Run(c, r, es + fs) == Run(c, Run(c, r, es), fs)
  {
    hide Apply;
    if fs == [] {
      assert es + fs == es;
    } else {
      RunAppend(c, r, es, fs[..|fs|-1]);
      assert (es + fs)[..|es + fs|-1] == es + fs[..|fs|-1];
    }
  }

  lemma RunOne(c: Config, r: Rig, e: Event)
    requires Valid(c)
    ensures Run(c, r, [e]) == Apply(c, r, e)
  {
  }

  lemma PassIsRun(c: Config, l: Loop, p: Pass)
    requires Valid(c)
    ensures OnePass(c, l, p).rig == Run(c, l.rig, PassEvents(c, l, p))
  {
    hide Apply;
    RunOne(c, l.rig, Ticked(p.now, p.o));
    if Due(l, p) && p.raw.Some? {
      var e := NewEffort(c, l, p.raw.value, p.t1);
      assert NewEffort(c, l.(rig := Apply(c, l.rig, Ticked(p.now, p.o))), p.raw.value, p.t1) == e;
      var r := Run(c, l.rig, [Ticked(p.now, p.o)]);
      var e1, e2, e3, e4 := EffortSet(e, p.t1), Ticked(p.t1, p.o1), Ticked(p.t2, p.o2), Replanned(p.t2);
      RunOne(c, r, e1);
      RunAppend(c, r, [e1], [e2]);
      RunOne(c, Run(c, r, [e1]), e2);
      RunAppend(c, r, [e1, e2], [e3]);
      RunOne(c, Run(c, r, [e1, e2]), e3);
      RunAppend(c, r, [e1, e2, e3], [e4]);
      RunOne(c, Run(c, r, [e1, e2, e3]), e4);
      assert [e1] + [e2] == [e1, e2] && [e1, e2] + [e3] == [e1, e2, e3];
      assert [e1, e2, e3] + [e4] == [e1, e2, e3, e4];
      RunAppend(c, l.rig, [Ticked(p.now, p.o)], [e1, e2, e3, e4]);
    } else {
      assert PassEvents(c, l, p) == [Ticked(p.now, p.o)];
    }
  }

  /** Everything the loop does to the actuator is a run of calls, so what holds of all runs
      holds of the program. */
  lemma {:induction false} LoopIsRun(c: Config, l: Loop, ps: seq<Pass>)
    requires Valid(c)
    ensures Passes(c, l, ps).rig == Run(c, l.rig, Events(c, l, ps))
  {
    if ps != [] {
      var q, p := Passes(c, l, ps[..|ps|-1]), ps[|ps|-1];
      LoopIsRun(c, l, ps[..|ps|-1]);
      PassIsRun(c, q, p);
      RunAppend(c, l.rig, Events(c, l, ps[..|ps|-1]), PassEvents(c, q, p));
    }
  }

  // ---- The clock ------------------------------------------------------------------------------

  predicate PassOrdered(p: Pass) { p.now <= p.t1 <= p.t2 <= p.t3 }

  predicate Ordered(t0: real, ps: seq<Pass>) {
    ps != [] ==>
      var n := |ps| - 1;
      && Ordered(t0, ps[..n]) && PassOrdered(ps[n])
      && (if n == 0 then t0 else ps[n-1].t3) <= ps[n].now
  }

  lemma {:induction false} MonotoneAppend(t0: real, es: seq<Event>, fs: seq<Event>)
    requires Monotone(t0, es) && Monotone(LastTime(t0, es), fs)
    ensures Monotone(t0, es + fs) && LastTime(t0, es + fs) == LastTime(LastTime(t0, es), fs)
  {
    if fs == [] {
      assert es + fs == es;
    } else {
      MonotoneAppend(t0, es, fs[..|fs|-1]);
      assert (es + fs)[..|es + fs|-1] == es + fs[..|fs|-1];
    }
  }

  lemma PassMonotone(c: Config, l: Loop, p: Pass, t: real)
    requires PassOrdered(p) && t <= p.now
    ensures Monotone(t, PassEvents(c, l, p)) && LastTime(t, PassEvents(c, l, p)) <= p.t3
  {
    var e0 := Ticked(p.now, p.o);
    assert [e0][..0] == [];
    if Due(l, p) && p.raw.Some? {
      hide NewEffort;
      var e1, e2, e3, e4 := EffortSet(NewEffort(c, l, p.raw.value, p.t1), p.t1),
                            Ticked(p.t1, p.o1), Ticked(p.t2, p.o2), Replanned(p.t2);
      assert PassEvents(c, l, p) == [e0, e1, e2, e3, e4];
      assert Monotone(t, []) && Monotone(t, [e0]);
      assert [e0, e1][..1] == [e0];
      assert [e0, e1, e2][..2] == [e0, e1];
      assert [e0, e1, e2, e3][..3] == [e0, e1, e2];
      assert [e0, e1, e2, e3, e4][..4] == [e0, e1, e2, e3];
      assert Monotone(t, [e0, e1]);
      assert Monotone(t, [e0, e1, e2]);
      assert Monotone(t, [e0, e1, e2, e3]);
    } else {
      assert PassEvents(c, l, p) == [e0];
    }
  }

  lemma {:induction false} LoopMonotone(c: Config, l: Loop, ps: seq<Pass>, t0: real)
    requires Valid(c) && Ordered(t0, ps)
    ensures Monotone(t0, Events(c, l, ps))
    ensures LastTime(t0, Events(c, l, ps)) <= if ps == [] then t0 else ps[|ps|-1].t3
  {
    hide PassEvents;
    if ps != [] {
      var n := |ps| - 1;
      LoopMonotone(c, l, ps[..n], t0);
      if n > 0 { assert ps[..n][n-1] == ps[n-1]; }
      var t := LastTime(t0, Events(c, l, ps[..n]));
      PassMonotone(c, Passes(c, l, ps[..n]), ps[n], t);
      MonotoneAppend(t0, Events(c, l, ps[..n]), PassEvents(c, Passes(c, l, ps[..n]), ps[n]));
    }
  }

  /** No catch-up bursts: sensor updates start at least one period after the previous one ended. */
  lemma {:induction false} UpdatesSpaced(c: Config, l: Loop, ps: seq<Pass>, i: nat, j: nat)
    requires Valid(c) && i < j < |ps| && Ordered(l.nextUpdate, ps)
    requires Due(Passes(c, l, ps[..i]), ps[i]) && Due(Passes(c, l, ps[..j]), ps[j])
    ensures ps[i].t3 + c.period <= ps[j].now
  {
    hide Passes;
    hide Due;
    OrderedPrefix(l.nextUpdate, ps, j);
    assert ps[..j][..i] == ps[..i] && ps[..j][i] == ps[i];
    NextUpdateKept(c, l, ps[..j], i);
    DueAfter(c, l, ps[..j], ps[j]);
  }

  lemma DueAfter(c: Config, l: Loop, ps: seq<Pass>, p: Pass)
    requires Valid(c) && Due(Passes(c, l, ps), p)
    ensures Passes(c, l, ps).nextUpdate <= p.now
  {
  }

  lemma {:induction false} OrderedPrefix(t: real, ps: seq<Pass>, j: nat)
    requires Ordered(t, ps) && j <= |ps|
    ensures Ordered(t, ps[..j])
  {
    if j < |ps| {
      OrderedPrefix(t, ps[..|ps|-1], j);
      assert ps[..|ps|-1][..j] == ps[..j];
    } else {
      assert ps[..j] == ps;
    }
  }

  lemma {:induction false} NextUpdateKept(c: Config, l: Loop, ps: seq<Pass>, i: nat)
    requires Valid(c) && i < |ps| && Due(Passes(c, l, ps[..i]), ps[i])
    requires Ordered(l.nextUpdate, ps)
    ensures ps[i].t3 + c.period <= Passes(c, l, ps).nextUpdate
  {
    hide Apply;
    hide Filtered;
    var n := |ps| - 1;
    assert ps[..|ps|] == ps;
    if i < n {
      assert ps[..n][..i] == ps[..i] && ps[..n][i] == ps[i];
      NextUpdateKept(c, l, ps[..n], i);
    } else {
      assert ps[..i] == ps[..n];
    }
    var q := Passes(c, l, ps[..n]);
    if Due(q, ps[n]) {
      assert PassOrdered(ps[n]);
    }
  }

  // ---- The schedule ---------------------------------------------------------------------------

  /** When an update is due after these passes: at `t0`, and then a period after the last one ended. */
  function NextDue(c: Config, t0: real, ps: seq<Pass>): real {
    if ps == [] then t0
    else
      var n := |ps| - 1;
      if NextDue(c, t0, ps[..n]) <= ps[n].now then ps[n].t3 + c.period else NextDue(c, t0, ps[..n])
  }

  /** The loop keeps to the schedule: every update that is due happens, and no other. */
  lemma {:induction false} ScheduleKept(c: Config, l: Loop, ps: seq<Pass>)
    requires Valid(c)
    ensures Passes(c, l, ps).nextUpdate == NextDue(c, l.nextUpdate, ps)
  {
    if ps != [] {
      ScheduleKept(c, l, ps[..|ps|-1]);
      PassSchedules(c, Passes(c, l, ps[..|ps|-1]), ps[|ps|-1]);
    }
  }

  lemma PassSchedules(c: Config, l: Loop, p: Pass)
    requires Valid(c)
    ensures OnePass(c, l, p).nextUpdate == if l.nextUpdate <= p.now then p.t3 + c.period else l.nextUpdate
  {
    hide Apply;
    hide Filtered;
    hide PiControl.NextState;
  }

  // ---- The program --------------------------------------------------------------------------

  class Controller {
    const cfg: Config
    const controller: PiControl.PIController
    const actuator: TimeProportionalActuator
    var ambientFiltered: Option<real>
    var internalFiltered: Option<real>
    var nextUpdate: real

    ghost predicate Linked() {
      controller.cfg == cfg && actuator.cfg == cfg
    }

    ghost function State(): Loop
      reads this, controller, actuator, actuator.chip
    {
      Loop(ambientFiltered, internalFiltered, controller.State(), actuator.State(), nextUpdate)
    }

    constructor (cfg: Config, controller: PiControl.PIController, actuator: TimeProportionalActuator)
      requires controller.cfg == cfg && actuator.cfg == cfg
      ensures Linked() && this.controller == controller && this.actuator == actuator && this.cfg == cfg
      ensures ambientFiltered == None && internalFiltered == None
    {
      this.cfg := cfg;
      this.controller := controller;
      this.actuator := actuator;
      ambientFiltered := None;
      internalFiltered := None;
      nextUpdate := 0.0;
    }

    /** One control update, if both sensors answer; `plan` is what the heartbeat reports. */
    method Update(p: Pass) returns (plan: Option<Plan>)
      requires Linked() && Valid(cfg)
      modifies this`ambientFiltered, this`internalFiltered, controller, actuator, actuator.chip
      ensures State() == ControlUpdate(cfg, old(State()), p)
      ensures plan.Some? <==> p.raw.Some?
      ensures plan.Some? ==> actuator.windowStart.Some? && plan.value == PlanAt(cfg, actuator.Act(), p.t2)
    {
      if p.raw.None? {
        return None;
      }
      hide Apply;
      hide Filtered;
      hide NewEffort;
      hide PiControl.NextState;
      var effort := Observe(p.raw.value, p.t1);
      var reported := Act(effort, p);
      plan := Some(reported);
    }

    /** Filter one calibrated reading and let the controller decide on it. */
    method Observe(raw: Raw, now: real) returns (effort: real)
      requires Linked() && Valid(cfg)
      modifies this`ambientFiltered, this`internalFiltered, controller
      ensures var x := Filtered(cfg, old(State()), raw, now);
        && ambientFiltered == Some(x.ambient) && internalFiltered == Some(x.internal)
        && controller.State() == PiControl.NextState(cfg, old(State()).pi, x)
        && effort == NewEffort(cfg, old(State()), raw, now)
    {
      var ambient := raw.ambient + cfg.ambientOffset;
      var internal := raw.internal + cfg.internalOffset;
      hide Ema.Filter;
      hide PiControl.NextState;
      hide PiControl.Decide;
      ambientFiltered := Some(Ema.Filter(ambientFiltered, ambient, cfg.tuning.ambientAlpha));
      internalFiltered := Some(Ema.Filter(internalFiltered, internal, cfg.tuning.internalAlpha));
      var decision := controller.Update(internalFiltered.value, ambientFiltered.value, now);
      effort := decision.effort;
    }

    /** The actuator's share of an update: command, tick, tick again after the gravity read, plan. */
    method Act(effort: real, p: Pass) returns (plan: Plan)
      requires Linked() && Valid(cfg)
      modifies actuator, actuator.chip
      ensures var r1 := Apply(cfg, old(actuator.State()), EffortSet(effort, p.t1));
              var r2 := Apply(cfg, r1, Ticked(p.t1, p.o1));
              var r3 := Apply(cfg, r2, Ticked(p.t2, p.o2));
              actuator.State() == Apply(cfg, r3, Replanned(p.t2))
      ensures actuator.windowStart.Some? && plan == PlanAt(cfg, actuator.Act(), p.t2)
    {
      hide Tick;
      hide SetEffort;
      hide AdvanceWindow;
      actuator.SetEffortCommand(effort, p.t1);
      var transition := actuator.TickAt(p.t1, p.o1);
      transition := actuator.TickAt(p.t2, p.o2);
      plan := actuator.Heartbeat(p.t2);
    }

    /** The whole program for a finite schedule, up to the shutdown that interrupts the loop;
        false if startup could not turn the plugs off. */
    method Run(t0: real, o0: Outcomes, ps: seq<Pass>, tEnd: real, oEnd: Outcomes) returns (started: bool)
      requires Linked() && Valid(cfg) && actuator.Act() == NEW_ACTUATOR
      requires controller.State() == PiControl.INITIAL
      requires ambientFiltered == None && internalFiltered == None
      modifies this, controller, actuator, actuator.chip
      ensures started == Begin(cfg, old(actuator.chip.on), t0, o0).Some?
      ensures started ==>
                var l := Passes(cfg, Begin(cfg, old(actuator.chip.on), t0, o0).value, ps);
                State() == l.(rig := ForceIdle(cfg, l.rig, tEnd, oEnd))
    {
      hide OnePass;
      hide ForceIdle;
      hide Start;
      var t: Transition;
      started, t := actuator.Initialize(t0, o0);
      if !started {
        return;
      }
      nextUpdate := t0;
      ghost var l0 := State();
      for i := 0 to |ps|
        invariant Linked() && State() == Passes(cfg, l0, ps[..i])
      {
        assert ps[..i+1][..i] == ps[..i];
        Iterate(ps[i]);
      }
      assert ps[..|ps|] == ps;
      var last := actuator.ForceIdleAt(tEnd, oEnd);
    }

    method Iterate(p: Pass)
      requires Linked() && Valid(cfg)
      modifies this, controller, actuator, actuator.chip
      ensures State() == OnePass(cfg, old(State()), p)
    {
      var transition := actuator.TickAt(p.now, p.o);
      hide ControlUpdate;
      hide Tick;
      if p.now >= nextUpdate {
        var plan := Update(p);
        nextUpdate := p.t3 + cfg.period;
      }
    }
  }
}
