/** The proportional-output window: where it starts depends on the clock, not on who asked. */
module Window {
  import opened Prelude
  import opened Settings
  import opened Actuator

  /** The start is the anchor plus as many whole windows as have passed since. */
  lemma AdvanceWhole(w: real, s: real, t: real)
    requires 0.0 < w && s <= t
    ensures Advance(w, s, t) == s + Mul(Whole(t - s, w) as real, w)
    ensures 0 <= Whole(t - s, w)
    ensures s <= Advance(w, s, t) <= t < Advance(w, s, t) + w
  {
    WholeBounds(t - s, w);
    var k := Whole(t - s, w) as real;
    SumTimes(k, 1.0, w);
    SumTimes(0.0, 1.0, w);
    MulOrder(0.0, k, w);
    hide Mul;
    if t - s < w {
      WholeUnique(t - s, w, 0);
    }
  }

  /** Advancing to `t1` and then to `t2` is advancing to `t2`. */
  lemma AdvancePathIndependent(w: real, s: real, t1: real, t2: real)
    requires 0.0 < w && s <= t1 <= t2
    ensures Advance(w, Advance(w, s, t1), t2) == Advance(w, s, t2)
  {
    var s1, k1, k2 := Advance(w, s, t1), Whole(t1 - s, w), Whole(t2 - s, w);
    AdvanceWhole(w, s, t1);
    AdvanceWhole(w, s, t2);
    AdvanceWhole(w, s1, t2);
    WholeBounds(t2 - s, w);
    SumTimes((k2 - k1) as real, k1 as real, w);
    SumTimes((k2 - k1) as real + 1.0, k1 as real, w);
    hide Mul;
    assert (k2 - k1) as real + k1 as real == k2 as real;
    assert (k2 - k1) as real + 1.0 + k1 as real == k2 as real + 1.0;
    WholeUnique(t2 - s1, w, k2 - k1);
  }

  lemma AdvanceIdempotent(w: real, s: real, t: real)
    requires 0.0 < w && s <= t
    ensures Advance(w, s, Advance(w, s, t)) == Advance(w, s, t)
  {
    var s1, k := Advance(w, s, t), Whole(t - s, w);
    AdvanceWhole(w, s, t);
    AdvanceWhole(w, s, s1);
    SumTimes(k as real, 1.0, w);
    hide Mul;
    WholeUnique(s1 - s, w, k);
  }

  /** Advancing again to the same time changes nothing, from whatever start. */
  lemma AdvanceTwice(w: real, s: real, t: real)
    requires 0.0 < w
    ensures Advance(w, Advance(w, s, t), t) == Advance(w, s, t)
  {
    if s <= t { AdvancePathIndependent(w, s, t, t); }
  }

  lemma AdvanceSame(w: real, s: real)
    requires 0.0 < w
    ensures Advance(w, s, s) == s
  {
  }

  /** Inside the k-th window after the anchor the start is that window's start. */
  lemma AdvanceInWindow(w: real, s: real, k: nat, t: real)
    requires 0.0 < w
    requires s + Mul(k as real, w) <= t < s + Mul(k as real, w) + w
    ensures s <= t && Advance(w, s, t) == s + Mul(k as real, w)
  {
    SumTimes(k as real, 1.0, w);
    SumTimes(0.0, 0.0, w);
    MulOrder(0.0, k as real, w);
    hide Mul;
    WholeUnique(t - s, w, k);
    AdvanceWhole(w, s, t);
  }

  // ---- Over runs ------------------------------------------------------------------------------

  /** The time of the last command among these calls, or else of the one before them. */
  function CommandTime(before: Option<real>, es: seq<Event>): Option<real> {
    if es == [] then before
    else if es[|es|-1].EffortSet? then Some(es[|es|-1].now)
    else CommandTime(before, es[..|es|-1])
  }

  /** There is no command yet, or it was given more than the stale timeout ago. */
  predicate Outdated(c: Config, command: Option<real>, now: real) {
    command.None? || now - command.value > c.tuning.staleTimeout
  }

  /** The actuator knows when its last command was given. */
  lemma {:induction false} CommandStamped(c: Config, r: Rig, es: seq<Event>)
    requires Valid(c)
    ensures Run(c, r, es).act.lastEffort == CommandTime(r.act.lastEffort, es)
  {
    hide Apply;
    if es != [] {
      CommandStamped(c, r, es[..|es|-1]);
      ApplyStamps(c, Run(c, r, es[..|es|-1]), es[|es|-1]);
    }
  }

  lemma ApplyStamps(c: Config, r: Rig, e: Event)
    requires Valid(c)
    ensures Apply(c, r, e).act.lastEffort == if e.EffortSet? then Some(e.now) else r.act.lastEffort
    ensures Stale(c, r.act, e.now) <==> Outdated(c, r.act.lastEffort, e.now)
  {
    hide SwitchTo;
    hide PlanAt;
    hide Advance;
  }

  /** The last time at which a window was started afresh: `start`, or a command after an outage. */
  function Anchor(c: Config, start: real, before: Option<real>, es: seq<Event>): real {
    if es == [] then start
    else
      var ds, e := es[..|es|-1], es[|es|-1];
      if e.EffortSet? && Outdated(c, CommandTime(before, ds), e.now) then e.now else Anchor(c, start, before, ds)
  }

  /** The last time since the anchor at which a plan was made. */
  function PlanClock(c: Config, start: real, before: Option<real>, es: seq<Event>): real {
    if es == [] then start
    else
      var ds, e := es[..|es|-1], es[|es|-1];
      if e.Ticked? || e.Replanned? || (e.EffortSet? && Outdated(c, CommandTime(before, ds), e.now)) then e.now
      else PlanClock(c, start, before, ds)
  }

  lemma ApplyWindow(c: Config, r: Rig, e: Event)
    requires Valid(c) && r.act.windowStart.Some?
    ensures Apply(c, r, e).act.windowStart ==
            if e.Ticked? || e.Replanned? then Some(Advance(c.tuning.window, r.act.windowStart.value, e.now))
            else if e.EffortSet? && Stale(c, r.act, e.now) then Some(e.now)
            else r.act.windowStart
  {
  }

  /** For every schedule of calls the window start is the one a single advance from the anchor
      would give: a whole number of windows after it, and less than a window before the plan. */
  lemma {:induction false} WindowOfRun(c: Config, r: Rig, es: seq<Event>)
    requires Valid(c) && r.act.windowStart.Some? && r.act.windowStart.value <= r.clock
    requires Monotone(r.clock, es)
    ensures var start, before := r.act.windowStart.value, r.act.lastEffort;
      var a, p := Anchor(c, start, before, es), PlanClock(c, start, before, es);
      && a <= p <= LastTime(r.clock, es)
      && Run(c, r, es).act.windowStart == Some(Advance(c.tuning.window, a, p))
  {
    hide Apply;
    hide Stale;
    var w, start, before := c.tuning.window, r.act.windowStart.value, r.act.lastEffort;
    if es != [] {
      var ds, e := es[..|es|-1], es[|es|-1];
      WindowOfRun(c, r, ds);
      CommandStamped(c, r, ds);
      ApplyStamps(c, Run(c, r, ds), e);
      ApplyWindow(c, Run(c, r, ds), e);
      var a, p := Anchor(c, start, before, ds), PlanClock(c, start, before, ds);
      if e.Ticked? || e.Replanned? {
        AdvancePathIndependent(w, a, p, e.now);
      }
    }
  }

  /** The first command after an outage, and the tick that follows it at once: a fresh window at
      phase zero, and an eligible effort is acted on unless a reversal lockout holds it. */
  lemma RecoveryStartsFresh(c: Config, r: Rig, e: real, now: real)
    requires Valid(c) && -1.0 <= e <= 1.0 && Eligible(c, e) && Stale(c, r.act, now)
    ensures var s := AdvanceWindow(c, SetEffort(c, r.act, e, now), now);
      && s.windowStart == Some(now)
      && PlanAt(c, s, now).requested == (if LockedOut(c, s, Direction(e), now) then IDLE else Direction(e))
  {
  }
}
