/** The actuator's plan, read off the history of its calls instead of its fields. */
module Planning {
  import opened Prelude
  import opened Settings
  import opened Actuator
  import Reversal
  import Window

  /** The last command among these calls. */
  function LastCommand(es: seq<Event>): (e: Option<Event>)
    ensures e.Some? ==> e.value.EffortSet?
  {
    if es == [] then None
    else if es[|es|-1].EffortSet? then Some(es[|es|-1])
    else LastCommand(es[..|es|-1])
  }

  /** Full effort is the most that a command can ask for. */
  function CutOff(effort: real): real {
    if effort > 1.0 then 1.0 else if effort < -1.0 then -1.0 else effort
  }

  /** By the log of completed transitions: the opposite of `d` is on, or it was the last direction and
      the idle time since has not gone by. */
  predicate Opposed(c: Config, log: seq<Entry>, d: Action, now: real)
    requires log != []
  {
    var n := |log|;
    || (log[n-1].action != IDLE && log[n-1].action != d)
    || (&& log[n-1].action == IDLE && n >= 2 && log[n-2].action != d
        && now - log[n-1].time < c.tuning.reverseIdle)
  }

  /** The plan that the calls since startup at `t0` and the completed transitions call for. */
  function PlanOf(c: Config, t0: real, es: seq<Event>, log: seq<Entry>, now: real): Plan
    requires Valid(c) && log != []
  {
    var w := c.tuning.window;
    if LastCommand(es).None? then Plan(IDLE, 0.0, 0.0, 0.0, w, NoCommand)
    else
      var EffortSet(effort, time) := LastCommand(es).value;
      var e := CutOff(effort);
      var size := if e < 0.0 then -e else e;
      var pulse := Mul(size, w);
      var phase := now - Advance(w, Window.Anchor(c, t0, None, es), now);
      if time + c.tuning.staleTimeout < now then Plan(IDLE, e, 0.0, 0.0, w, StaleCommand)
      else if size <= c.tuning.deadband then Plan(IDLE, e, 0.0, 0.0, w, Deadband)
      else if pulse < (if e > 0.0 then c.tuning.heatMinOn else c.tuning.coolMinOn) then
        Plan(IDLE, e, size, pulse, w, BelowMinPulse)
      else if pulse <= phase then Plan(IDLE, e, size, pulse, w, DutyOff)
      else
        var d := if e > 0.0 then HEAT else COOL;
        if Opposed(c, log, d, now) then Plan(IDLE, e, size, pulse, w, ReverseLockout)
        else Plan(d, e, size, pulse, w, DutyOn)
  }

  lemma ApplyCommand(c: Config, r: Rig, e: Event)
    requires Valid(c)
    ensures Apply(c, r, e).act.effort == if e.EffortSet? then CutOff(e.effort) else r.act.effort
  {
    hide SwitchTo;
    hide PlanAt;
    hide Advance;
  }

  /** What is commanded, and since when. */
  lemma {:induction false} CommandOfRun(c: Config, r: Rig, es: seq<Event>)
    requires Valid(c)
    ensures var a := Run(c, r, es).act;
      match LastCommand(es)
      case None => a.effort == r.act.effort && a.lastEffort == r.act.lastEffort
      case Some(e) => a.effort == CutOff(e.effort) && a.lastEffort == Some(e.now)
  {
    hide Apply;
    if es != [] {
      CommandOfRun(c, r, es[..|es|-1]);
      ApplyCommand(c, Run(c, r, es[..|es|-1]), es[|es|-1]);
      Window.ApplyStamps(c, Run(c, r, es[..|es|-1]), es[|es|-1]);
    }
  }

  lemma LockedOutByLog(c: Config, r: Rig, d: Action, now: real)
    requires Valid(c) && Reversal.Tracks(c, r) && d != IDLE
    ensures LockedOut(c, AdvanceWindow(c, r.act, now), d, now) <==> Opposed(c, r.log, d, now)
  {
  }

  /** At any time after any calls, whatever the plug commands did: the plan made from the fields is the
      one that the history calls for. In particular a command counts for exactly the stale timeout, and
      until then an effort beyond the deadband and the minimum pulse is acted on during its share of
      each window unless a reversal is locked out. */
  lemma PlanOfRun(c: Config, on: set<int>, t0: real, o: Outcomes, es: seq<Event>, now: real)
    requires Valid(c) && Start(c, on, t0, o).Some? && Monotone(t0, es) && LastTime(t0, es) <= now
    ensures var r := Run(c, Start(c, on, t0, o).value, es);
      r.log != [] && PlanAt(c, AdvanceWindow(c, r.act, now), now) == PlanOf(c, t0, es, r.log, now)
  {
    hide Run;
    hide Advance;
    hide Mul;
    hide SwitchTo;
    hide Reversal.Tracks;
    hide Reversal.Spaced;
    hide Opposed;
    hide LockedOut;
    hide Window.Anchor;
    hide Window.PlanClock;
    hide LastCommand;
    var r0 := Start(c, on, t0, o).value;
    var r := Run(c, r0, es);
    CommandOfRun(c, r0, es);
    Window.WindowOfRun(c, r0, es);
    Reversal.ReversalLockout(c, on, t0, o, es);
    LockedOutByLog(c, r, HEAT, now);
    LockedOutByLog(c, r, COOL, now);
    Window.AdvancePathIndependent(c.tuning.window, Window.Anchor(c, t0, None, es),
                                  Window.PlanClock(c, t0, None, es), now);
  }
}
