/** The time-proportional actuator: effort in, HEAT / IDLE / COOL on two plugs out. */
module Actuator {
  import opened Prelude
  import opened Settings

  datatype Action = HEAT | IDLE | COOL

  datatype Reason =
    | Startup | NoCommand | StaleCommand | Deadband | BelowMinPulse
    | DutyOn | DutyOff | ReverseLockout | Shutdown

  datatype Plan = Plan(
    requested: Action, effort: real, duty: real, activeS: real, windowS: real, reason: Reason)

  datatype Transition = Transition(action: Action, plan: Plan)

  function OppositeOf(a: Action): Action {
    match a case HEAT => COOL case IDLE => IDLE case COOL => HEAT
  }

  // ---- The plugs, as the environment behind the command tool --------------------------------

  /** How a plug command ends: it returns, or it raises without or with an effect on the plug. */
  datatype Outcome = Done | Rejected | Unconfirmed

  /** The outcomes of the first and the second plug command that one call issues. */
  datatype Outcomes = Outcomes(first: Outcome, second: Outcome) {
    function At(k: nat): Outcome { if k == 0 then first else second }
  }

  const ALL_DONE := Outcomes(Done, Done)

  datatype Command = Command(
    time: real, node: int, on: bool, outcome: Outcome, before: set<int>, after: set<int>)

  /** The set of nodes that are physically on, and the history of all commands. */
  datatype Chip = Chip(on: set<int>, trace: seq<Command>)

  function Effect(on: set<int>, node: int, want: bool, outcome: Outcome): set<int> {
    if outcome == Rejected then on else if want then on + {node} else on - {node}
  }

  function Issue(chip: Chip, node: int, want: bool, time: real, outcome: Outcome): Chip {
    var after := Effect(chip.on, node, want, outcome);
    Chip(after, chip.trace + [Command(time, node, want, outcome, chip.on, after)])
  }

  // ---- Switching ----------------------------------------------------------------------------

  function NodeOf(c: Config, a: Action): int
    requires a != IDLE
  {
    if a == HEAT then c.heatNode else c.coolNode
  }

  function Wanted(c: Config, a: Action): set<int> {
    if a == IDLE then {} else {NodeOf(c, a)}
  }

  datatype Sweep = Sweep(chip: Chip, used: nat, failed: bool)

  function OffUnlessWanted(s: Sweep, node: int, wanted: set<int>, now: real, o: Outcomes): Sweep {
    if node in wanted then s
    else Sweep(Issue(s.chip, node, false, now, o.At(s.used)), s.used + 1, s.failed || o.At(s.used) != Done)
  }

  /** The first `i` of the two plugs have been told to turn off unless they are wanted. */
  function SweepOff(c: Config, chip: Chip, wanted: set<int>, now: real, o: Outcomes, i: nat): Sweep
    requires i <= 2
  {
    var s0 := Sweep(chip, 0, false);
    if i == 0 then s0 else
    var s1 := OffUnlessWanted(s0, c.heatNode, wanted, now, o);
    if i == 1 then s1 else OffUnlessWanted(s1, c.coolNode, wanted, now, o)
  }

  function SwitchTo(c: Config, chip: Chip, a: Action, now: real, o: Outcomes): (r: (Chip, bool)) {
    var s := SweepOff(c, chip, Wanted(c, a), now, o, 2);
    if s.failed then (s.chip, false)
    else if a == IDLE then (s.chip, true)
    else (Issue(s.chip, NodeOf(c, a), true, now, o.At(s.used)), o.At(s.used) == Done)
  }

  // ---- Planning -----------------------------------------------------------------------------

  datatype ActState = ActState(
    effort: real,
    lastEffort: Option<real>,
    windowStart: Option<real>,
    action: Action,
    lastDirection: Option<Action>,
    idleSince: Option<real>)

  const NEW_ACTUATOR := ActState(0.0, None, None, IDLE, None, None)

  /** The start of the window that holds `now`, given an earlier start. */
  function Advance(window: real, start: real, now: real): real
    requires 0.0 < window
  {
    if now - start >= window then start + Mul(Whole(now - start, window) as real, window) else start
  }

  function AdvanceWindow(c: Config, s: ActState, now: real): ActState
    requires Valid(c)
  {
    s.(windowStart :=
      Some(if s.windowStart.None? then now else Advance(c.tuning.window, s.windowStart.value, now)))
  }

  function Stale(c: Config, s: ActState, now: real): bool {
    s.lastEffort.None? || now - s.lastEffort.value > c.tuning.staleTimeout
  }

  function Direction(effort: real): Action { if effort > 0.0 then HEAT else COOL }

  function ActiveS(c: Config, effort: real): real { Mul(Abs(effort), c.tuning.window) }

  function MinOn(c: Config, a: Action): real {
    if a == HEAT then c.tuning.heatMinOn else c.tuning.coolMinOn
  }

  /** The effort is large enough to produce pulses. */
  predicate Eligible(c: Config, effort: real) {
    c.tuning.deadband < Abs(effort) && MinOn(c, Direction(effort)) <= ActiveS(c, effort)
  }

  predicate LockedOut(c: Config, s: ActState, a: Action, now: real) {
    || (s.action != IDLE && a != s.action)
    || (s.lastDirection.Some? && a != s.lastDirection.value
        && s.idleSince.Some? && now - s.idleSince.value < c.tuning.reverseIdle)
  }

  /** The plan for a state whose window has been advanced to `now`. */
  function PlanAt(c: Config, s: ActState, now: real): Plan
    requires s.windowStart.Some?
  {
    var e, m, w := s.effort, Abs(s.effort), c.tuning.window;
    if s.lastEffort.None? then Plan(IDLE, 0.0, 0.0, 0.0, w, NoCommand)
    else if Stale(c, s, now) then Plan(IDLE, e, 0.0, 0.0, w, StaleCommand)
    else if m <= c.tuning.deadband then Plan(IDLE, e, 0.0, 0.0, w, Deadband)
    else if !Eligible(c, e) then Plan(IDLE, e, m, ActiveS(c, e), w, BelowMinPulse)
    else if now - s.windowStart.value >= ActiveS(c, e) then Plan(IDLE, e, m, ActiveS(c, e), w, DutyOff)
    else if LockedOut(c, s, Direction(e), now) then Plan(IDLE, e, m, ActiveS(c, e), w, ReverseLockout)
    else Plan(Direction(e), e, m, ActiveS(c, e), w, DutyOn)
  }

  // ---- Steps and runs -----------------------------------------------------------------------

  datatype Entry = Entry(action: Action, time: real)

  /** The actuator with its plugs, the log of its completed transitions and the time of its last call. */
  datatype Rig = Rig(act: ActState, chip: Chip, log: seq<Entry>, clock: real)

  /** Startup: fails when a plug cannot be turned off. The histories start when it returns. */
  function Start(c: Config, on: set<int>, now: real, o: Outcomes): Option<Rig> {
    var (chip, ok) := SwitchTo(c, Chip(on, []), IDLE, now, o);
    if !ok then None
    else Some(Rig(NEW_ACTUATOR.(windowStart := Some(now), idleSince := Some(now)),
                  Chip(chip.on, []), [Entry(IDLE, now)], now))
  }

  function SetEffort(c: Config, s: ActState, effort: real, now: real): ActState {
    s.(windowStart := if Stale(c, s, now) then Some(now) else s.windowStart,
       effort := Clamp(effort, -1.0, 1.0),
       lastEffort := Some(now))
  }

  /** The bookkeeping of a completed switch. */
  function Complete(s: ActState, a: Action, now: real): ActState {
    s.(action := a,
       lastDirection := if s.action != IDLE then Some(s.action) else s.lastDirection,
       idleSince := if s.action != IDLE && a == IDLE then Some(now) else None)
  }

  function Tick(c: Config, r: Rig, now: real, o: Outcomes): Rig
    requires Valid(c)
  {
    var s := AdvanceWindow(c, r.act, now);
    var a := PlanAt(c, s, now).requested;
    if a == s.action then r.(act := s, clock := now)
    else
      var (chip, ok) := SwitchTo(c, r.chip, a, now, o);
      if ok then Rig(Complete(s, a, now), chip, r.log + [Entry(a, now)], now)
      else Rig(s, chip, r.log, now)
  }

  function ForceIdle(c: Config, r: Rig, now: real, o: Outcomes): Rig {
    if r.act.action == IDLE then r.(clock := now)
    else
      var (chip, ok) := SwitchTo(c, r.chip, IDLE, now, o);
      if ok then Rig(Complete(r.act, IDLE, now), chip, r.log + [Entry(IDLE, now)], now)
      else r.(chip := chip, clock := now)
  }

  /** Every call that can follow startup, in any order. */
  datatype Event =
    | EffortSet(effort: real, now: real)
    | Ticked(now: real, o: Outcomes)
    | Replanned(now: real)
    | ShutDown(now: real, o: Outcomes)

  function Apply(c: Config, r: Rig, e: Event): Rig
    requires Valid(c)
  {
    match e
    case EffortSet(effort, now) => r.(act := SetEffort(c, r.act, effort, now), clock := now)
    case Ticked(now, o) => Tick(c, r, now, o)
    case Replanned(now) => r.(act := AdvanceWindow(c, r.act, now), clock := now)
    case ShutDown(now, o) => ForceIdle(c, r, now, o)
  }

  function Run(c: Config, r: Rig, es: seq<Event>): Rig
    requires Valid(c)
  {
    if es == [] then r else Apply(c, Run(c, r, es[..|es|-1]), es[|es|-1])
  }

  function LastTime(clock: real, es: seq<Event>): real {
    if es == [] then clock else es[|es|-1].now
  }

  /** The clock handed to the calls never goes back. */
  predicate Monotone(clock: real, es: seq<Event>) {
    es != [] ==> Monotone(clock, es[..|es|-1]) && LastTime(clock, es[..|es|-1]) <= es[|es|-1].now
  }

  // ---- The program --------------------------------------------------------------------------

  class ChipTool {
    var on: set<int>
    ghost var trace: seq<Command>

    ghost function State(): Chip
      reads this
    {
      Chip(on, trace)
    }

    /** One plug command; its outcome belongs to the environment. */
    method SetPlug(node: int, want: bool, outcome: Outcome, ghost now: real) returns (ok: bool)
      modifies this
      ensures State() == Issue(old(State()), node, want, now, outcome)
      ensures ok == (outcome == Done)
    {
      trace := trace + [Command(now, node, want, outcome, on, Effect(on, node, want, outcome))];
      on := Effect(on, node, want, outcome);
      ok := outcome == Done;
    }
  }

  class TimeProportionalActuator {
    const cfg: Config
    const chip: ChipTool
    var effort: real
    var lastEffort: Option<real>
    var windowStart: Option<real>
    var action: Action
    var lastDirection: Option<Action>
    var idleSince: Option<real>
    ghost var log: seq<Entry>
    ghost var clock: real

    ghost function Act(): ActState
      reads this
    {
      ActState(effort, lastEffort, windowStart, action, lastDirection, idleSince)
    }

    ghost function State(): Rig
      reads this, chip
    {
      Rig(Act(), chip.State(), log, clock)
    }

    constructor (chip: ChipTool, cfg: Config)
      ensures this.cfg == cfg && this.chip == chip && Act() == NEW_ACTUATOR
    {
      this.cfg := cfg;
      this.chip := chip;
      effort := 0.0;
      lastEffort := None;
      windowStart := None;
      action := IDLE;
      lastDirection := None;
      idleSince := None;
    }

    /** Startup; `ok` is false where the program raises and ends. */
    method Initialize(now: real, o: Outcomes) returns (ok: bool, t: Transition)
      requires Act() == NEW_ACTUATOR
      modifies this, chip
      ensures ok == Start(cfg, old(chip.on), now, o).Some?
      ensures ok ==> State() == Start(cfg, old(chip.on), now, o).value
      ensures ok ==> t == Transition(IDLE, Plan(IDLE, 0.0, 0.0, 0.0, cfg.tuning.window, Startup))
    {
      chip.trace := [];
      ok := Switch(IDLE, o, now);
      t := Transition(IDLE, Plan(IDLE, 0.0, 0.0, 0.0, cfg.tuning.window, Startup));
      if ok {
        windowStart := Some(now);
        idleSince := Some(now);
        chip.trace, log, clock := [], [Entry(IDLE, now)], now;
      }
    }

    method SetEffortCommand(e: real, now: real)
      modifies this
      ensures Act() == SetEffort(cfg, old(Act()), e, now)
      ensures log == old(log) && clock == now
    {
      var wasStale := lastEffort.None? || now - lastEffort.value > cfg.tuning.staleTimeout;
      if wasStale {
        windowStart := Some(now);
      }
      effort := Max(-1.0, Min(1.0, e));
      lastEffort := Some(now);
      clock := now;
    }

    method AdvanceTo(now: real)
      requires Valid(cfg)
      modifies this`windowStart
      ensures Act() == AdvanceWindow(cfg, old(Act()), now)
    {
      if windowStart.None? {
        windowStart := Some(now);
        return;
      }
      var elapsed := now - windowStart.value;
      if elapsed >= cfg.tuning.window {
        windowStart := Some(windowStart.value + Mul(Whole(elapsed, cfg.tuning.window) as real, cfg.tuning.window));
      }
    }

    method MakePlan(now: real) returns (p: Plan)
      requires Valid(cfg)
      modifies this`windowStart
      ensures Act() == AdvanceWindow(cfg, old(Act()), now)
      ensures p == PlanAt(cfg, Act(), now)
    {
      AdvanceTo(now);
      hide Mul;
      hide Advance;
      if lastEffort.None? {
        return Plan(IDLE, 0.0, 0.0, 0.0, cfg.tuning.window, NoCommand);
      }
      if now - lastEffort.value > cfg.tuning.staleTimeout {
        return Plan(IDLE, effort, 0.0, 0.0, cfg.tuning.window, StaleCommand);
      }
      var magnitude := Abs(effort);
      if magnitude <= cfg.tuning.deadband {
        return Plan(IDLE, effort, 0.0, 0.0, cfg.tuning.window, Deadband);
      }
      var direction := if effort > 0.0 then HEAT else COOL;
      var activeS := Mul(magnitude, cfg.tuning.window);
      var minOn := if direction == HEAT then cfg.tuning.heatMinOn else cfg.tuning.coolMinOn;
      if activeS < minOn {
        return Plan(IDLE, effort, magnitude, activeS, cfg.tuning.window, BelowMinPulse);
      }
      var elapsed := now - windowStart.value;
      var requested := if elapsed < activeS then direction else IDLE;
      var reason := if requested != IDLE then DutyOn else DutyOff;
      if requested != IDLE {
        if action != IDLE && requested != action {
          requested, reason := IDLE, ReverseLockout;
        } else if lastDirection.Some? && requested != lastDirection.value
                  && idleSince.Some? && now - idleSince.value < cfg.tuning.reverseIdle {
          requested, reason := IDLE, ReverseLockout;
        }
      }
      p := Plan(requested, effort, magnitude, activeS, cfg.tuning.window, reason);
    }

    /** A plan made only to be reported; it still advances the window. */
    method Heartbeat(now: real) returns (p: Plan)
      requires Valid(cfg)
      modifies this
      ensures State() == Apply(cfg, old(State()), Replanned(now)) && windowStart.Some?
      ensures p == PlanAt(cfg, Act(), now)
    {
      clock := now;
      p := MakePlan(now);
    }

    method TickAt(now: real, o: Outcomes) returns (t: Option<Transition>)
      requires Valid(cfg)
      modifies this, chip
      ensures State() == Tick(cfg, old(State()), now, o)
      ensures t.Some? <==> |log| > old(|log|)
      ensures var plan := PlanAt(cfg, AdvanceWindow(cfg, old(Act()), now), now);
        t.Some? ==> t.value == Transition(plan.requested, plan)
    {
      clock := now;
      var plan := MakePlan(now);
      hide PlanAt;
      hide SwitchTo;
      hide AdvanceWindow;
      var wanted := plan.requested;
      if wanted == action {
        return None;
      }
      var previous := action;
      var ok := Switch(wanted, o, now);
      if !ok {
        return None;
      }
      if previous != IDLE && wanted != previous {
        lastDirection := Some(previous);
        idleSince := if wanted == IDLE then Some(now) else None;
      } else if previous == IDLE && wanted != IDLE {
        idleSince := None;
      }
      action := wanted;
      log := log + [Entry(wanted, now)];
      t := Some(Transition(wanted, plan));
    }

    method ForceIdleAt(now: real, o: Outcomes) returns (t: Option<Transition>)
      modifies this, chip
      ensures State() == ForceIdle(cfg, old(State()), now, o)
      ensures t.Some? <==> |log| > old(|log|)
      ensures t.Some? ==> t.value == Transition(IDLE, Plan(IDLE, effort, 0.0, 0.0, cfg.tuning.window, Shutdown))
    {
      clock := now;
      if action == IDLE {
        return None;
      }
      var previous := action;
      var ok := Switch(IDLE, o, now);
      hide SwitchTo;
      if !ok {
        return None;
      }
      lastDirection := Some(previous);
      idleSince := Some(now);
      action := IDLE;
      log := log + [Entry(IDLE, now)];
      t := Some(Transition(IDLE, Plan(IDLE, effort, 0.0, 0.0, cfg.tuning.window, Shutdown)));
    }

    /** OFF first, for both plugs, and an ON only when every OFF was confirmed. */
    method Switch(a: Action, o: Outcomes, ghost now: real) returns (ok: bool)
      modifies chip
      ensures (chip.State(), ok) == SwitchTo(cfg, old(chip.State()), a, now, o)
    {
      var wanted := Wanted(cfg, a);
      var nodes := [cfg.heatNode, cfg.coolNode];
      var used, offFailed := 0, false;
      for i := 0 to 2
        invariant Sweep(chip.State(), used, offFailed) == SweepOff(cfg, old(chip.State()), wanted, now, o, i)
      {
        if nodes[i] !in wanted {
          var done := chip.SetPlug(nodes[i], false, o.At(used), now);
          used := used + 1;
          if !done {
            offFailed := true;
          }
        }
      }
      if offFailed {
        return false;
      }
      ok := true;
      if a != IDLE {
        ok := chip.SetPlug(NodeOf(cfg, a), true, o.At(used), now);
      }
    }
  }
}
