/** Reversing between heating and cooling: always through IDLE, and not before the lockout ends. */
module Reversal {
  import opened Prelude
  import opened Settings
  import opened Actuator
  import Interlock

  // ---- The log of completed transitions ------------------------------------------------------

  /** The log alternates between IDLE and one direction, from the IDLE of startup on. */
  ghost predicate Walk(log: seq<Entry>) {
    && log != [] && log[0].action == IDLE
    && forall i :: 0 < i < |log| ==> (log[i].action == IDLE <==> log[i-1].action != IDLE)
  }

  /** Entering the direction opposite to the one left last takes at least `reverseIdle`. */
  ghost predicate Spaced(c: Config, log: seq<Entry>) {
    forall i :: 2 <= i < |log| && log[i].action != IDLE && log[i].action == OppositeOf(log[i-2].action)
      ==> c.tuning.reverseIdle <= log[i].time - log[i-1].time
  }

  /** The fields of the actuator agree with the log. */
  ghost predicate Tracks(c: Config, r: Rig) {
    var n, s := |r.log|, r.act;
    && Walk(r.log) && Spaced(c, r.log)
    && s.action == r.log[n-1].action
    && (s.action == IDLE ==>
          && s.idleSince == Some(r.log[n-1].time)
          && s.lastDirection == if n == 1 then None else Some(r.log[n-2].action))
    && (s.action != IDLE ==> s.idleSince == None)
  }

  /** What a tick does to the record, without its arithmetic. */
  lemma TickOutcome(c: Config, r: Rig, now: real, o: Outcomes) returns (a: Action)
    requires Valid(c)
    ensures var r' := Tick(c, r, now, o); var s := AdvanceWindow(c, r.act, now);
      && s == r.act.(windowStart := s.windowStart)
      && (r.act.action != IDLE ==> a in {IDLE, r.act.action})
      && (a != IDLE ==> !LockedOut(c, r.act, a, now))
      && r'.clock == now
      && (a == r.act.action ==> r' == r.(act := s, clock := now))
      && (a != r.act.action ==>
            var (chip, ok) := SwitchTo(c, r.chip, a, now, o);
            r' == if ok then Rig(Complete(s, a, now), chip, r.log + [Entry(a, now)], now)
                  else Rig(s, chip, r.log, now))
  {
    var s := AdvanceWindow(c, r.act, now);
    a := PlanAt(c, s, now).requested;
    Interlock.PlanKeepsDirection(c, s, now);
    hide Advance;
  }

  /** Entering a direction that is not locked out keeps the reversals apart. */
  lemma CompleteSpaced(c: Config, r: Rig, a: Action, now: real)
    requires Tracks(c, r) && r.act.action == IDLE && a != IDLE && !LockedOut(c, r.act, a, now)
    ensures Spaced(c, r.log + [Entry(a, now)])
  {
    var n, log := |r.log|, r.log + [Entry(a, now)];
    assert log[n-1] == r.log[n-1];
    assert n >= 2 ==> r.act.lastDirection == Some(r.log[n-2].action);
  }

  /** A completed transition extends the walk, if it was not locked out. */
  lemma CompleteTracks(c: Config, r: Rig, a: Action, now: real, r': Rig)
    requires Tracks(c, r) && a != r.act.action && (r.act.action == IDLE || a == IDLE)
    requires a != IDLE ==> !LockedOut(c, r.act, a, now)
    requires r'.log == r.log + [Entry(a, now)]
    requires r'.act == Complete(r.act, a, now).(windowStart := r'.act.windowStart)
    ensures Tracks(c, r')
  {
    if a != IDLE {
      CompleteSpaced(c, r, a, now);
      hide Spaced;
    }
    assert Walk(r'.log);
  }

  lemma ApplyTracks(c: Config, r: Rig, e: Event)
    requires Valid(c) && Tracks(c, r)
    ensures Tracks(c, Apply(c, r, e))
  {
    hide Walk;
    hide Spaced;
    hide SwitchTo;
    match e
    case EffortSet(_, _) =>
    case Replanned(_) => hide Advance;
    case Ticked(now, o) =>
      var a := TickOutcome(c, r, now, o);
      var r' := Tick(c, r, now, o);
      if a != r.act.action && SwitchTo(c, r.chip, a, now, o).1 {
        CompleteTracks(c, r, a, now, r');
      }
      hide Tick;
      hide AdvanceWindow;
    case ShutDown(now, o) =>
      if r.act.action != IDLE && SwitchTo(c, r.chip, IDLE, now, o).1 {
        CompleteTracks(c, r, IDLE, now, ForceIdle(c, r, now, o));
      }
  }

  /** Over every run, whatever switches fail: transitions walk HEAT - IDLE - COOL without
      repetition, and no reversal completes within `reverseIdle` of the preceding IDLE. */
  lemma {:induction false} ReversalLockout(c: Config, on: set<int>, t0: real, o: Outcomes, es: seq<Event>)
    requires Valid(c) && Start(c, on, t0, o).Some?
    ensures var r := Run(c, Start(c, on, t0, o).value, es);
      Tracks(c, r) && Walk(r.log) && Spaced(c, r.log)
  {
    hide SwitchTo;
    if es != [] {
      ReversalLockout(c, on, t0, o, es[..|es|-1]);
      ApplyTracks(c, Run(c, Start(c, on, t0, o).value, es[..|es|-1]), es[|es|-1]);
    }
  }

  // ---- The plugs themselves ------------------------------------------------------------------

  /** The plug of direction `d` is on before or after the command. */
  predicate OnAt(c: Config, k: Command, d: Action)
    requires d != IDLE
  {
    NodeOf(c, d) in k.before + k.after
  }

  /** Whenever one plug is on at a command and the other at a later one, the two are
      `reverseIdle` apart. */
  ghost predicate PlugsSpaced(c: Config, trace: seq<Command>) {
    forall i, j, d :: 0 <= i < j < |trace| && d != IDLE && OnAt(c, trace[i], d) && OnAt(c, trace[j], OppositeOf(d))
      ==> c.tuning.reverseIdle <= trace[j].time - trace[i].time
  }

  /** What the actuator still owes a command that saw the plug of direction `d` on. */
  ghost predicate Respects(c: Config, r: Rig, k: Command, d: Action)
    requires d != IDLE
  {
    var s := r.act;
    OnAt(c, k, d) ==>
      && k.time <= r.clock
      && ((s.action == OppositeOf(d) || (s.action == IDLE && s.lastDirection == Some(OppositeOf(d)))) ==>
            k.time + c.tuning.reverseIdle <= r.clock)
      && (s.action == IDLE ==>
            && s.lastDirection.Some? && s.lastDirection.value != IDLE && s.idleSince.Some?
            && (s.lastDirection.value == d ==> k.time <= s.idleSince.value))
  }

  ghost predicate RespectsAll(c: Config, r: Rig) {
    forall i, d :: 0 <= i < |r.chip.trace| && d != IDLE ==> Respects(c, r, r.chip.trace[i], d)
  }

  /** During a switch, a plug is on only if it was before, or as the wanted one of a switch that succeeds. */
  lemma SwitchReach(c: Config, chip: Chip, a: Action, now: real, o: Outcomes)
    requires c.heatNode != c.coolNode
    ensures var (after, ok) := SwitchTo(c, chip, a, now, o);
      && chip.trace <= after.trace
      && forall i, d :: |chip.trace| <= i < |after.trace| && d != IDLE ==>
           && after.trace[i].time == now
           && (OnAt(c, after.trace[i], d) ==>
                 Interlock.PlugOn(c, chip, d) || (a == d && (ok || Interlock.Strands(after.trace[i]))))
  {
  }

  /** A transition to `a` that completes at the clock of `r'` without being locked out. */
  predicate MayComplete(c: Config, r: Rig, a: Action, r': Rig) {
    && a != r.act.action && (r.act.action == IDLE || a == IDLE)
    && (a != IDLE ==> !LockedOut(c, r.act, a, r'.clock))
    && SameRecord(r'.act, Complete(r.act, a, r'.clock))
  }

  predicate SameRecord(s: ActState, s': ActState) {
    s.action == s'.action && s.lastDirection == s'.lastDirection && s.idleSince == s'.idleSince
  }

  /** Old commands stay respected by whatever a tick does to the record. */
  lemma RecordStepRespects(c: Config, r: Rig, k: Command, d: Action, a: Action, r': Rig)
    requires 0.0 <= c.tuning.reverseIdle && d != IDLE && Respects(c, r, k, d) && r.clock <= r'.clock
    requires SameRecord(r'.act, r.act) || MayComplete(c, r, a, r')
    ensures Respects(c, r', k, d)
  {
  }

  /** A switch towards `a` and its effect on the record. */
  ghost predicate SwitchStep(c: Config, r: Rig, a: Action, o: Outcomes, r': Rig) {
    var (chip, ok) := SwitchTo(c, r.chip, a, r'.clock, o);
    && r.clock <= r'.clock && r'.chip == chip
    && (r.act.action != IDLE ==> a == IDLE)
    && (if ok then MayComplete(c, r, a, r') else SameRecord(r'.act, r.act))
  }

  /** Who can be on during a switch: the recorded plug, or the one that the switch then records. */
  lemma SwitchStepReach(c: Config, r: Rig, a: Action, o: Outcomes, r': Rig, i: nat, d: Action)
    requires c.heatNode != c.coolNode && Interlock.Covered(c, r) && SwitchStep(c, r, a, o, r')
    requires Interlock.NoStrands(r'.chip.trace, |r.chip.trace|)
    requires |r.chip.trace| <= i < |r'.chip.trace| && d != IDLE && OnAt(c, r'.chip.trace[i], d)
    ensures r'.chip.trace[i].time == r'.clock
    ensures r.act.action == d || (r.act.action == IDLE && a == d && MayComplete(c, r, a, r'))
  {
    SwitchReach(c, r.chip, a, r'.clock, o);
    hide SwitchTo;
    assert !Interlock.Strands(r'.chip.trace[i]);
    assert Interlock.PlugOn(c, r.chip, d) ==> r.act.action == d;
  }

  lemma SwitchStepSpaced(c: Config, r: Rig, a: Action, o: Outcomes, r': Rig)
    requires Valid(c) && c.heatNode != c.coolNode && Interlock.Covered(c, r)
    requires RespectsAll(c, r) && PlugsSpaced(c, r.chip.trace) && SwitchStep(c, r, a, o, r')
    requires Interlock.NoStrands(r'.chip.trace, |r.chip.trace|)
    ensures RespectsAll(c, r') && PlugsSpaced(c, r'.chip.trace)
  {
    SwitchReach(c, r.chip, a, r'.clock, o);
    var t, n, ok := r'.chip.trace, |r.chip.trace|, SwitchTo(c, r.chip, a, r'.clock, o).1;
    assert forall i :: 0 <= i < n ==> t[i] == r.chip.trace[i];
    assert if ok then MayComplete(c, r, a, r') else SameRecord(r'.act, r.act);
    hide SwitchTo;
    forall i, d | 0 <= i < |t| && d != IDLE && OnAt(c, t[i], d)
      ensures Respects(c, r', t[i], d)
    {
      if i < n {
        assert Respects(c, r, t[i], d);
        RecordStepRespects(c, r, t[i], d, a, r');
      } else {
        SwitchStepReach(c, r, a, o, r', i, d);
      }
    }
    forall i, j, d | 0 <= i < j < |t| && d != IDLE && OnAt(c, t[i], d) && OnAt(c, t[j], OppositeOf(d))
      ensures c.tuning.reverseIdle <= t[j].time - t[i].time
    {
      if n <= j {
        SwitchStepReach(c, r, a, o, r', j, OppositeOf(d));
        if i < n {
          assert Respects(c, r, t[i], d);
        } else {
          SwitchStepReach(c, r, a, o, r', i, d);
        }
      }
    }
  }

  lemma TickSpaced(c: Config, r: Rig, now: real, o: Outcomes)
    requires Valid(c) && c.heatNode != c.coolNode && r.clock <= now && Interlock.Covered(c, r)
    requires RespectsAll(c, r) && PlugsSpaced(c, r.chip.trace)
    requires Interlock.NoStrands(Tick(c, r, now, o).chip.trace, 0)
    ensures RespectsAll(c, Tick(c, r, now, o)) && PlugsSpaced(c, Tick(c, r, now, o).chip.trace)
  {
    var r' := Tick(c, r, now, o);
    var a := TickOutcome(c, r, now, o);
    hide Tick;
    hide AdvanceWindow;
    if a == r.act.action {
      SameRecordSpaced(c, r, r');
    } else {
      SwitchStepSpaced(c, r, a, o, r');
    }
  }

  lemma SameRecordSpaced(c: Config, r: Rig, r': Rig)
    requires Valid(c) && r.clock <= r'.clock && r'.chip == r.chip && SameRecord(r'.act, r.act)
    requires RespectsAll(c, r)
    ensures RespectsAll(c, r')
  {
    forall i, d | 0 <= i < |r'.chip.trace| && d != IDLE
      ensures Respects(c, r', r'.chip.trace[i], d)
    {
      assert Respects(c, r, r.chip.trace[i], d);
      RecordStepRespects(c, r, r.chip.trace[i], d, IDLE, r');
    }
  }

  /** The same lockout for the physical plugs: over every run on a clock that does not go back and
      without a stranding ON, the plug of one direction is never on within `reverseIdle` of the other. */
  lemma {:induction false} PlugLockout(c: Config, on: set<int>, t0: real, o: Outcomes, es: seq<Event>)
    requires Valid(c) && c.heatNode != c.coolNode && Start(c, on, t0, o).Some? && Monotone(t0, es)
    requires Interlock.NoStrands(Run(c, Start(c, on, t0, o).value, es).chip.trace, 0)
    ensures var r := Run(c, Start(c, on, t0, o).value, es);
      && RespectsAll(c, r) && PlugsSpaced(c, r.chip.trace)
      && r.clock == LastTime(t0, es)
  {
    var r0 := Start(c, on, t0, o).value;
    if es != [] {
      var ds, e := es[..|es|-1], es[|es|-1];
      var r := Run(c, r0, ds);
      Interlock.TraceGrows(c, r, e);
      PlugLockout(c, on, t0, o, ds);
      Interlock.RecordCoversIff(c, on, t0, o, ds);
      assert ds[..|ds|] == ds;
      hide Start;
      match e
      case Ticked(now, p) => TickSpaced(c, r, now, p);
      case ShutDown(now, p) =>
        if r.act.action == IDLE {
          SameRecordSpaced(c, r, Apply(c, r, e));
        } else {
          SwitchStepSpaced(c, r, IDLE, p, Apply(c, r, e));
        }
      case EffortSet(_, _) => SameRecordSpaced(c, r, Apply(c, r, e));
      case Replanned(_) =>
        hide Advance;
        SameRecordSpaced(c, r, Apply(c, r, e));
    } else {
      assert r0.chip.trace == [] && r0.clock == t0;
    }
  }

  /** Two calls at one instant: a new effort and the tick that acts on it. */
  lemma FullEffortTick(c: Config, r: Rig, e: real, now: real, o: Outcomes)
    requires Valid(c) && (e == 1.0 || e == -1.0) && r.act.action == IDLE && r.act.lastDirection == None
    requires r.act.windowStart == Some(now)
    ensures var r1 := Apply(c, r, EffortSet(e, now));
      var (chip, ok) := SwitchTo(c, r.chip, Direction(e), now, o);
      && r1.act.windowStart == Some(now)
      && Apply(c, r1, Ticked(now, o)) == if ok then Rig(Complete(r1.act, Direction(e), now), chip,
                                                       r.log + [Entry(Direction(e), now)], now)
                                        else Rig(r1.act, chip, r.log, now)
  {
  }

  lemma RunOfFour(c: Config, r: Rig, es: seq<Event>)
    requires Valid(c) && |es| == 4
    ensures Run(c, r, es) == Apply(c, Apply(c, Apply(c, Apply(c, r, es[0]), es[1]), es[2]), es[3])
  {
    hide Apply;
    assert es[..3][..2] == es[..2] && es[..2][..1] == es[..1] && es[..1][..0] == [];
    assert Run(c, r, es[..1]) == Apply(c, r, es[0]);
    assert Run(c, r, es[..2]) == Apply(c, Apply(c, r, es[0]), es[1]);
  }

  const STRANDING_RUN := [EffortSet(1.0, 0.0), Ticked(0.0, Outcomes(Done, Unconfirmed)),
                          EffortSet(-1.0, 0.0), Ticked(0.0, ALL_DONE)]

  /** The condition on ON commands cannot be dropped: one stranding ON lets both plugs be on
      at one instant of the clock, one after the other. */
  lemma StrandedReversal(c: Config)
    requires Valid(c) && c.heatNode != c.coolNode && 0.0 < c.tuning.reverseIdle
    ensures Start(c, {}, 0.0, ALL_DONE).Some?
    ensures !PlugsSpaced(c, Run(c, Start(c, {}, 0.0, ALL_DONE).value, STRANDING_RUN).chip.trace)
  {
    var es := STRANDING_RUN;
    var r0 := Start(c, {}, 0.0, ALL_DONE).value;
    var r1 := Apply(c, r0, es[0]);
    var r2 := Apply(c, r1, es[1]);
    var r3 := Apply(c, r2, es[2]);
    var r4 := Apply(c, r3, es[3]);
    FullEffortTick(c, r0, 1.0, 0.0, Outcomes(Done, Unconfirmed));
    FullEffortTick(c, r2, -1.0, 0.0, ALL_DONE);
    hide Tick;
    assert |r2.chip.trace| == 2 && OnAt(c, r2.chip.trace[1], HEAT);
    assert |r4.chip.trace| == 4 && OnAt(c, r4.chip.trace[3], COOL) && r4.chip.trace[1] == r2.chip.trace[1];
    hide SwitchTo;
    RunOfFour(c, r0, es);
    assert OppositeOf(HEAT) == COOL && r4.chip.trace[1].time == 0.0 == r4.chip.trace[3].time;
  }

  /** Commands are issued at the clock of their calls. */
  ghost predicate InOrder(trace: seq<Command>, clock: real) {
    && (forall i :: 0 <= i < |trace| ==> trace[i].time <= clock)
    && (forall i, j :: 0 <= i < j < |trace| ==> trace[i].time <= trace[j].time)
  }

  /** A call adds commands of its own time only. */
  lemma ApplyTimes(c: Config, r: Rig, e: Event)
    requires Valid(c) && c.heatNode != c.coolNode
    ensures var r' := Apply(c, r, e);
      && r'.clock == e.now && r.chip.trace <= r'.chip.trace
      && forall i :: |r.chip.trace| <= i < |r'.chip.trace| ==> r'.chip.trace[i].time == e.now
  {
    hide Advance;
    hide PlanAt;
    match e
    case Ticked(now, o) =>
      SwitchReach(c, r.chip, PlanAt(c, AdvanceWindow(c, r.act, now), now).requested, now, o);
      hide SwitchTo;
    case ShutDown(now, o) =>
      SwitchReach(c, r.chip, IDLE, now, o);
      hide SwitchTo;
    case EffortSet(_, _) =>
    case Replanned(_) =>
  }

  lemma {:induction false} CommandsInOrder(c: Config, r: Rig, t0: real, es: seq<Event>)
    requires Valid(c) && c.heatNode != c.coolNode && Monotone(t0, es) && r.clock == t0 && r.chip.trace == []
    ensures InOrder(Run(c, r, es).chip.trace, LastTime(t0, es))
  {
    hide Apply;
    if es != [] {
      CommandsInOrder(c, r, t0, es[..|es|-1]);
      ApplyTimes(c, Run(c, r, es[..|es|-1]), es[|es|-1]);
    }
  }

  /** The plugs' lockout with no condition on the plug commands: it holds in all runs, on clocks that
      do not go back, exactly if the configured idle time is zero. */
  lemma PlugLockoutIff(c: Config)
    requires Valid(c) && c.heatNode != c.coolNode
    ensures c.tuning.reverseIdle == 0.0 <==>
            forall on, t0, o, es :: Start(c, on, t0, o).Some? && Monotone(t0, es) ==>
              PlugsSpaced(c, Run(c, Start(c, on, t0, o).value, es).chip.trace)
  {
    hide Run;
    if c.tuning.reverseIdle == 0.0 {
      forall on, t0, o, es | Start(c, on, t0, o).Some? && Monotone(t0, es)
        ensures PlugsSpaced(c, Run(c, Start(c, on, t0, o).value, es).chip.trace)
      {
        CommandsInOrder(c, Start(c, on, t0, o).value, t0, es);
      }
    } else {
      StrandedReversal(c);
      StrandedInTime();
      hide PlugsSpaced;
      var on: set<int>, t0, o := {}, 0.0, ALL_DONE;
      assert Start(c, on, t0, o).Some? && Monotone(t0, STRANDING_RUN)
             && !PlugsSpaced(c, Run(c, Start(c, on, t0, o).value, STRANDING_RUN).chip.trace);
    }
  }

  lemma StrandedInTime()
    ensures Monotone(0.0, STRANDING_RUN)
  {
    assert STRANDING_RUN[..3][..2] == STRANDING_RUN[..2] && STRANDING_RUN[..2][..1] == STRANDING_RUN[..1];
    assert STRANDING_RUN[..1][..0] == [];
    assert Monotone(0.0, STRANDING_RUN[..1]);
    assert Monotone(0.0, STRANDING_RUN[..2]);
    assert Monotone(0.0, STRANDING_RUN[..3]);
  }
}
