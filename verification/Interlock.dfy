/** The two plugs are never on together, and what the recorded action says about them. */
module Interlock {
  import opened Settings
  import opened Actuator

  predicate NotBoth(c: Config, on: set<int>) { !(c.heatNode in on && c.coolNode in on) }

  /** No command of the history left, or found, both plugs on. */
  ghost predicate TraceNotBoth(c: Config, trace: seq<Command>) {
    forall i :: 0 <= i < |trace| ==> NotBoth(c, trace[i].before) && NotBoth(c, trace[i].after)
  }

  /** Recorded HEAT means the cooler is off, recorded COOL means the heater is off. */
  predicate RecordExcludes(c: Config, r: Rig) {
    r.act.action != IDLE ==> NodeOf(c, OppositeOf(r.act.action)) !in r.chip.on
  }

  ghost predicate Safe(c: Config, r: Rig) {
    NotBoth(c, r.chip.on) && TraceNotBoth(c, r.chip.trace) && RecordExcludes(c, r)
  }

  /** The node is on for the plug of direction `d`. */
  predicate PlugOn(c: Config, chip: Chip, d: Action)
    requires d != IDLE
  {
    NodeOf(c, d) in chip.on
  }

  /** What one switch does, whatever its commands' outcomes. */
  lemma SwitchFacts(c: Config, chip: Chip, a: Action, now: real, o: Outcomes)
    requires c.heatNode != c.coolNode && NotBoth(c, chip.on)
    ensures var (after, ok) := SwitchTo(c, chip, a, now, o);
      && NotBoth(c, after.on)
      && (TraceNotBoth(c, chip.trace) ==> TraceNotBoth(c, after.trace))
      && (forall d :: d != IDLE && d != a && PlugOn(c, after, d) ==> PlugOn(c, chip, d))
      && (ok ==> forall d :: d != IDLE ==> (PlugOn(c, after, d) <==> d == a))
  {
  }

  // ---- What a switch tells the plugs -----------------------------------------------------------------

  /** The command turns this node on or off, at this time and with this outcome. */
  predicate Tells(k: Command, node: int, on: bool, now: real, outcome: Outcome) {
    k == Command(now, node, on, outcome, k.before, k.after)
  }

  /** The commands of a switch and whether it succeeds: towards IDLE an OFF to each plug, also after the
      first has failed; towards a direction an OFF to the other plug, and an ON if that was confirmed. */
  lemma SwitchCommands(c: Config, chip: Chip, a: Action, now: real, o: Outcomes)
    requires c.heatNode != c.coolNode
    ensures var (after, ok) := SwitchTo(c, chip, a, now, o); var n := |chip.trace|;
      && chip.trace <= after.trace
      && ok == (o == ALL_DONE)
      && (a == IDLE ==>
            && |after.trace| == n + 2
            && Tells(after.trace[n], c.heatNode, false, now, o.first)
            && Tells(after.trace[n+1], c.coolNode, false, now, o.second))
      && (a != IDLE ==>
            && |after.trace| == n + (if o.first == Done then 2 else 1)
            && Tells(after.trace[n], if a == HEAT then c.coolNode else c.heatNode, false, now, o.first)
            && (o.first == Done ==>
                  Tells(after.trace[n+1], if a == HEAT then c.heatNode else c.coolNode, true, now, o.second)))
  {
    var s1 := SweepOff(c, chip, Wanted(c, a), now, o, 1);
    var s2 := SweepOff(c, chip, Wanted(c, a), now, o, 2);
    assert s1.used == if a == HEAT then 0 else 1;
    assert s2.used == if a == IDLE then 2 else 1;
  }

  /** Every plug other than that of `a` has been told to turn off since position `n` of the history, and
      is off unless its command was rejected. */
  ghost predicate OthersToldOff(c: Config, chip: Chip, n: nat, a: Action, now: real) {
    forall d :: d != IDLE && d != a ==> ToldOff(c, chip, n, d, now)
  }

  ghost predicate ToldOff(c: Config, chip: Chip, n: nat, d: Action, now: real)
    requires d != IDLE
  {
    exists i :: n <= i < |chip.trace| && Tells(chip.trace[i], NodeOf(c, d), false, now, chip.trace[i].outcome)
                && (chip.trace[i].outcome != Rejected ==> !PlugOn(c, chip, d))
  }

  /** Whatever the outcomes, also when the switch fails halfway. */
  lemma SwitchTellsOthersOff(c: Config, chip: Chip, a: Action, now: real, o: Outcomes)
    requires c.heatNode != c.coolNode
    ensures OthersToldOff(c, SwitchTo(c, chip, a, now, o).0, |chip.trace|, a, now)
  {
    SwitchCommands(c, chip, a, now, o);
    SwitchEffect(c, chip, a, now, o);
    var after, n := SwitchTo(c, chip, a, now, o).0, |chip.trace|;
    hide SwitchTo;
    forall d | d != IDLE && d != a ensures ToldOff(c, after, n, d, now) {
      var i := if a == IDLE && d == COOL then n + 1 else n;
      assert Tells(after.trace[i], NodeOf(c, d), false, now, after.trace[i].outcome);
    }
  }

  lemma SwitchEffect(c: Config, chip: Chip, a: Action, now: real, o: Outcomes)
    requires c.heatNode != c.coolNode
    ensures var after := SwitchTo(c, chip, a, now, o).0;
      && (a == IDLE && o.first != Rejected ==> c.heatNode !in after.on)
      && (a == IDLE && o.second != Rejected ==> c.coolNode !in after.on)
      && (a == HEAT && o.first != Rejected ==> c.coolNode !in after.on)
      && (a == COOL && o.first != Rejected ==> c.heatNode !in after.on)
  {
    var s1 := SweepOff(c, chip, Wanted(c, a), now, o, 1);
    var s2 := SweepOff(c, chip, Wanted(c, a), now, o, 2);
  }

  /** A tick that plans another action than the recorded one, and a shutdown of a recorded direction,
      tell every plug that is not to be on to turn off. */
  lemma TickTellsOthersOff(c: Config, r: Rig, now: real, o: Outcomes)
    requires Valid(c) && c.heatNode != c.coolNode
    ensures var a := PlanAt(c, AdvanceWindow(c, r.act, now), now).requested;
      a != r.act.action ==> OthersToldOff(c, Tick(c, r, now, o).chip, |r.chip.trace|, a, now)
    ensures r.act.action != IDLE ==> OthersToldOff(c, ForceIdle(c, r, now, o).chip, |r.chip.trace|, IDLE, now)
  {
    hide SwitchTo;
    hide PlanAt;
    hide Advance;
    hide OthersToldOff;
    SwitchTellsOthersOff(c, r.chip, PlanAt(c, AdvanceWindow(c, r.act, now), now).requested, now, o);
    SwitchTellsOthersOff(c, r.chip, IDLE, now, o);
  }

  /** A plan never asks for the direction opposite to the recorded one. */
  lemma PlanKeepsDirection(c: Config, s: ActState, now: real)
    requires s.windowStart.Some?
    ensures s.action != IDLE ==> PlanAt(c, s, now).requested in {IDLE, s.action}
  {
  }

  lemma ApplyKeepsSafe(c: Config, r: Rig, e: Event)
    requires Valid(c) && c.heatNode != c.coolNode && Safe(c, r)
    ensures Safe(c, Apply(c, r, e))
  {
    match e
    case EffortSet(effort, now) =>
    case Replanned(now) => hide Advance;
    case Ticked(now, o) =>
      var s := AdvanceWindow(c, r.act, now);
      PlanKeepsDirection(c, s, now);
      hide Advance;
      var a := PlanAt(c, s, now).requested;
      hide PlanAt;
      SwitchFacts(c, r.chip, a, now, o);
      hide SwitchTo;
      assert s.action == r.act.action;
      if s.action != IDLE {
        assert !PlugOn(c, r.chip, OppositeOf(s.action));
      }
      if a != IDLE {
        assert OppositeOf(a) != a && OppositeOf(a) != IDLE;
      }
    case ShutDown(now, o) =>
      SwitchFacts(c, r.chip, IDLE, now, o);
      hide SwitchTo;
      if r.act.action != IDLE {
        assert !PlugOn(c, r.chip, OppositeOf(r.act.action));
      }
  }

  lemma StartSafe(c: Config, on: set<int>, now: real, o: Outcomes)
    requires c.heatNode != c.coolNode && Start(c, on, now, o).Some?
    ensures var r := Start(c, on, now, o).value;
      Safe(c, r) && c.heatNode !in r.chip.on && c.coolNode !in r.chip.on
  {
  }

  /** From the return of startup on, in every state of every run: never both plugs, not even
      between two commands of one switch. */
  lemma {:induction false} Interlocked(c: Config, on: set<int>, t0: real, o: Outcomes, es: seq<Event>)
    requires Valid(c) && c.heatNode != c.coolNode && Start(c, on, t0, o).Some?
    ensures Safe(c, Run(c, Start(c, on, t0, o).value, es))
  {
    StartSafe(c, on, t0, o);
    if es != [] {
      Interlocked(c, on, t0, o, es[..|es|-1]);
      ApplyKeepsSafe(c, Run(c, Start(c, on, t0, o).value, es[..|es|-1]), es[|es|-1]);
    }
  }

  /** Full heat demand right after startup: in every valid configuration it turns the heater on. */
  const FULL_HEAT: seq<Event> := [EffortSet(1.0, 0.0), Ticked(0.0, ALL_DONE)]

  lemma FullHeatTurnsOn(c: Config)
    requires Valid(c)
    ensures Start(c, {}, 0.0, ALL_DONE).Some?
    ensures c.heatNode in Run(c, Start(c, {}, 0.0, ALL_DONE).value, FULL_HEAT).chip.on
  {
    var r0 := Start(c, {}, 0.0, ALL_DONE).value;
    var r1 := Apply(c, r0, FULL_HEAT[0]);
    assert FULL_HEAT[..2][..1][..0] == [] && FULL_HEAT[..1] == [FULL_HEAT[0]];
    assert Run(c, r0, FULL_HEAT[..1]) == r1;
    assert Run(c, r0, FULL_HEAT) == Apply(c, r1, FULL_HEAT[1]);
    assert ActiveS(c, 1.0) == c.tuning.window;
    assert AdvanceWindow(c, r1.act, 0.0) == r1.act;
    assert PlanAt(c, r1.act, 0.0).requested == HEAT;
  }

  ghost predicate AlwaysInterlocked(c: Config)
    requires Valid(c)
  {
    forall on, t0, o, es :: Start(c, on, t0, o).Some? ==>
      NotBoth(c, Run(c, Start(c, on, t0, o).value, es).chip.on)
  }

  /** The configuration check does not compare the two node numbers, and the interlock holds
      exactly for the configurations in which they differ. */
  lemma InterlockIffDistinctNodes(c: Config)
    requires Valid(c)
    ensures AlwaysInterlocked(c) <==> c.heatNode != c.coolNode
  {
    if c.heatNode == c.coolNode {
      FullHeatTurnsOn(c);
      assert !NotBoth(c, Run(c, Start(c, {}, 0.0, ALL_DONE).value, FULL_HEAT).chip.on);
    } else {
      forall on, t0, o, es | Start(c, on, t0, o).Some?
        ensures NotBoth(c, Run(c, Start(c, on, t0, o).value, es).chip.on)
      {
        Interlocked(c, on, t0, o, es);
      }
    }
  }

  // ---- The record against reality -------------------------------------------------------------

  /** A plug that is on is the one the recorded action names. */
  ghost predicate Covered(c: Config, r: Rig) {
    forall d :: d != IDLE && PlugOn(c, r.chip, d) ==> r.act.action == d
  }

  /** A command that turned a plug on and yet reported failure. */
  predicate Strands(k: Command) { k.on && k.outcome == Unconfirmed }

  /** No command of the history from position `n` on is a stranding ON. */
  ghost predicate NoStrands(trace: seq<Command>, n: nat) {
    forall i :: n <= i < |trace| ==> !Strands(trace[i])
  }

  /** A switch only adds to the history. When it fails, a new plug can be on only by a stranding ON. */
  lemma SwitchTrace(c: Config, chip: Chip, a: Action, now: real, o: Outcomes)
    requires c.heatNode != c.coolNode
    ensures var (after, ok) := SwitchTo(c, chip, a, now, o);
      && chip.trace <= after.trace
      && (NoStrands(after.trace, |chip.trace|) && !ok ==>
            forall d :: d != IDLE && PlugOn(c, after, d) ==> PlugOn(c, chip, d))
      && (!NoStrands(after.trace, |chip.trace|) ==> !ok && a != IDLE && PlugOn(c, after, a))
  {
    var s1 := SweepOff(c, chip, Wanted(c, a), now, o, 1);
    var s2 := SweepOff(c, chip, Wanted(c, a), now, o, 2);
    assert NoStrands(s1.chip.trace, |chip.trace|);
    assert NoStrands(s2.chip.trace, |chip.trace|);
    assert s1.chip.on <= chip.on && s2.chip.on <= chip.on;
    var (after, ok) := SwitchTo(c, chip, a, now, o);
    if a != IDLE && !s2.failed {
      var m := |after.trace| - 1;
      assert after.trace[m] == Command(now, NodeOf(c, a), true, o.At(s2.used), s2.chip.on, after.on);
    }
  }

  /** Exactly when a tick breaks the record: it issued an ON that failed after taking effect. */
  lemma TickCoveredIff(c: Config, r: Rig, now: real, o: Outcomes)
    requires Valid(c) && c.heatNode != c.coolNode && Safe(c, r) && Covered(c, r)
    ensures Covered(c, Tick(c, r, now, o)) <==> NoStrands(Tick(c, r, now, o).chip.trace, |r.chip.trace|)
  {
    var s := AdvanceWindow(c, r.act, now);
    PlanKeepsDirection(c, s, now);
    hide Advance;
    var a := PlanAt(c, s, now).requested;
    hide PlanAt;
    SwitchFacts(c, r.chip, a, now, o);
    SwitchTrace(c, r.chip, a, now, o);
    hide SwitchTo;
  }

  /** The same for every kind of call. */
  lemma ApplyCoveredIff(c: Config, r: Rig, e: Event)
    requires Valid(c) && c.heatNode != c.coolNode && Safe(c, r) && Covered(c, r)
    ensures Covered(c, Apply(c, r, e)) <==> NoStrands(Apply(c, r, e).chip.trace, |r.chip.trace|)
  {
    match e
    case Ticked(now, o) => TickCoveredIff(c, r, now, o);
    case ShutDown(now, o) =>
      SwitchFacts(c, r.chip, IDLE, now, o);
      SwitchTrace(c, r.chip, IDLE, now, o);
      hide SwitchTo;
    case EffortSet(_, _) =>
    case Replanned(_) => hide Advance;
  }

  ghost predicate AlwaysCovered(c: Config, r: Rig, es: seq<Event>)
    requires Valid(c)
  {
    forall k :: 0 <= k <= |es| ==> Covered(c, Run(c, r, es[..k]))
  }

  lemma AlwaysCoveredStep(c: Config, r: Rig, es: seq<Event>)
    requires Valid(c) && es != []
    ensures AlwaysCovered(c, r, es) <==>
            AlwaysCovered(c, r, es[..|es|-1]) && Covered(c, Run(c, r, es))
  {
    hide Run;
    hide Covered;
    var n := |es| - 1;
    assert es[..|es|] == es;
    assert forall k :: 0 <= k <= n ==> es[..n][..k] == es[..k];
    if AlwaysCovered(c, r, es) {
      forall k | 0 <= k <= n ensures Covered(c, Run(c, r, es[..n][..k])) {}
    }
    if AlwaysCovered(c, r, es[..n]) && Covered(c, Run(c, r, es)) {
      forall k | 0 <= k <= |es| ensures Covered(c, Run(c, r, es[..k])) {
        if k <= n { assert Covered(c, Run(c, r, es[..n][..k])); }
      }
    }
  }

  /** Over any run: the record covers every plug that is on at all times exactly when no ON
      command took effect after reporting failure. Aborted switches and unconfirmed OFF
      commands do no harm. */
  lemma {:induction false} RecordCoversIff(c: Config, on: set<int>, t0: real, o: Outcomes, es: seq<Event>)
    requires Valid(c) && c.heatNode != c.coolNode && Start(c, on, t0, o).Some?
    ensures var r0 := Start(c, on, t0, o).value;
      AlwaysCovered(c, r0, es) <==> NoStrands(Run(c, r0, es).chip.trace, 0)
  {
    var r0 := Start(c, on, t0, o).value;
    StartSafe(c, on, t0, o);
    if es == [] {
      assert AlwaysCovered(c, r0, es);
    } else {
      var ds, e := es[..|es|-1], es[|es|-1];
      var r := Run(c, r0, ds);
      AlwaysCoveredStep(c, r0, es);
      RecordCoversIff(c, on, t0, o, ds);
      Interlocked(c, on, t0, o, ds);
      TraceGrows(c, r, e);
      if AlwaysCovered(c, r0, ds) {
        assert ds[..|ds|] == ds;
        assert Covered(c, r);
        ApplyCoveredIff(c, r, e);
      }
    }
  }

  lemma TraceGrows(c: Config, r: Rig, e: Event)
    requires Valid(c) && c.heatNode != c.coolNode
    ensures r.chip.trace <= Apply(c, r, e).chip.trace
    ensures NoStrands(Apply(c, r, e).chip.trace, 0) ==> NoStrands(r.chip.trace, 0)
  {
  }

  /** A stranding ON is all it takes: IDLE is recorded while the heater is on, and later ticks
      that plan IDLE send no OFF. */
  lemma StrandedHeater(c: Config, later: real)
    requires Valid(c) && c.heatNode != c.coolNode && c.tuning.staleTimeout < later
    ensures var es := [EffortSet(1.0, 0.0), Ticked(0.0, Outcomes(Done, Unconfirmed)), Ticked(later, ALL_DONE)];
      var r := Run(c, Start(c, {}, 0.0, ALL_DONE).value, es);
      r.act.action == IDLE && c.heatNode in r.chip.on
  {
    var es := [EffortSet(1.0, 0.0), Ticked(0.0, Outcomes(Done, Unconfirmed)), Ticked(later, ALL_DONE)];
    var r0 := Start(c, {}, 0.0, ALL_DONE).value;
    var r1 := Apply(c, r0, es[0]);
    var r2 := Apply(c, r1, es[1]);
    assert es[..3][..2] == es[..2] && es[..2][..1] == es[..1] && es[..1][..0] == [];
    assert Run(c, r0, es[..1]) == r1;
    assert Run(c, r0, es[..2]) == r2;
    assert Run(c, r0, es) == Apply(c, r2, es[2]);
    assert ActiveS(c, 1.0) == c.tuning.window;
    assert AdvanceWindow(c, r1.act, 0.0) == r1.act;
    assert PlanAt(c, r1.act, 0.0).requested == HEAT;
    hide Advance;
    assert r2.act.action == IDLE && c.heatNode in r2.chip.on;
    assert PlanAt(c, AdvanceWindow(c, r2.act, later), later).requested == IDLE;
  }

  /** A shutdown whose OFF commands are confirmed leaves both plugs off when the record covers them,
      and whenever it reports a transition. */
  lemma ShutdownLeavesOff(c: Config, r: Rig, now: real, o: Outcomes)
    requires c.heatNode != c.coolNode && Safe(c, r)
    ensures var r' := ForceIdle(c, r, now, o);
      (|r'.log| > |r.log|) || (r.act.action == IDLE && Covered(c, r))
      ==> c.heatNode !in r'.chip.on && c.coolNode !in r'.chip.on
  {
    SwitchFacts(c, r.chip, IDLE, now, o);
    if r.act.action == IDLE && Covered(c, r) {
      assert !PlugOn(c, r.chip, HEAT) && !PlugOn(c, r.chip, COOL);
    } else {
      var after := SwitchTo(c, r.chip, IDLE, now, o).0;
      assert PlugOn(c, after, HEAT) <==> c.heatNode in after.on;
      assert PlugOn(c, after, COOL) <==> c.coolNode in after.on;
    }
  }
}
