/** What a burst reports, and when, in terms of what happened to the device. */
module ObserverReport {
  import opened Prelude
  import opened Observer
  import opened ObserverSafety
  import Handoff = ObserverHandoff

  function ClockAfter(clock: int, acts: seq<Action>): int {
    if acts == [] then clock
    else ClockAfter(clock, acts[..|acts|-1]) + if acts[|acts|-1].Elapse? then acts[|acts|-1].ms else 0
  }

  /** The time at which the last advertisement decoded as a sample. */
  function LastDecode(clock: int, acts: seq<Action>): Option<int> {
    if acts == [] then None
    else
      var n := |acts| - 1;
      if acts[n].Decode? then Some(ClockAfter(clock, acts[..n])) else LastDecode(clock, acts[..n])
  }

  /** The time at which a start handler last recorded the start of its burst; zero before. */
  ghost function LastMark(clock: int, acts: seq<Action>): int
    requires CanRun(Boot(clock), acts)
  {
    if acts == [] then 0
    else
      var n := |acts| - 1;
      if acts[n].Work? && Exec(Boot(clock), acts[..n]).worker == StartMark then ClockAfter(clock, acts[..n])
      else LastMark(clock, acts[..n])
  }

  lemma StepHistory(s: Dev, a: Action)
    requires CanStep(s, a)
    ensures var s' := Next(s, a);
      && s'.clock == s.clock + (if a.Elapse? then a.ms else 0)
      && (if a.Decode? then s'.tilt.Some? && s'.tilt.value.time == s.clock else s'.tilt == s.tilt)
      && s'.burstStart == if a.Work? && s.worker == StartMark then s.clock else s.burstStart
  {
  }

  function SampleTime(tilt: Option<Tilt>): Option<int> { if tilt.Some? then Some(tilt.value.time) else None }

  /** The clock, the time of the stored sample and the recorded start are what the run has made of them. */
  lemma {:induction false} History(clock: int, acts: seq<Action>)
    requires CanRun(Boot(clock), acts)
    ensures var s := Exec(Boot(clock), acts);
      && s.clock == ClockAfter(clock, acts)
      && SampleTime(s.tilt) == LastDecode(clock, acts)
      && s.burstStart == LastMark(clock, acts)
  {
    hide Next;
    hide CanStep;
    if acts != [] {
      var n := |acts| - 1;
      History(clock, acts[..n]);
      StepHistory(Exec(Boot(clock), acts[..n]), acts[n]);
    }
  }

  lemma {:induction false} ExecAppend(s: Dev, acts: seq<Action>, more: seq<Action>)
    requires CanRun(s, acts) && CanRun(Exec(s, acts), more)
    ensures CanRun(s, acts + more) && Exec(s, acts + more) == Exec(Exec(s, acts), more)
  {
    hide Next;
    hide CanStep;
    if more == [] {
      assert acts + more == acts;
    } else {
      ExecAppend(s, acts, more[..|more|-1]);
      assert (acts + more)[..|acts + more|-1] == acts + more[..|more|-1];
    }
  }

  // ---- One teardown ------------------------------------------------------------------------------

  /** `w` work queue steps into the teardown that starts at `s`, whatever the other threads did. */
  ghost predicate Tearing(s: Dev, s': Dev, w: nat) {
    && s'.bursts == s.bursts && s'.burstStart == s.burstStart
    && s'.log == (if w == 3 then s.log + [ScanOff(s.bursts)] else s.log)
    && match w
       case 0 => s'.worker.StopCheck? && s'.scanActive
       case 1 => s'.worker.StopCancel?
       case 2 => s'.worker == StopRadio
       case 3 => s'.worker == StopReport
       case _ => false
  }

  lemma OthersLetTear(s: Dev, s': Dev, w: nat, a: Action)
    requires Tearing(s, s', w) && CanStep(s', a) && !a.Work?
    ensures Tearing(s, Next(s', a), w)
  {
  }

  lemma WorkTears(s: Dev, s': Dev, w: nat, scanFails: bool)
    requires Tearing(s, s', w) && w < 3
    ensures Tearing(s, Next(s', Work(scanFails)), w + 1)
  {
  }

  lemma {:induction false} TornSoFar(s: Dev, acts: seq<Action>)
    requires Tearing(s, s, 0) && CanRun(s, acts) && Handoff.WorkSteps(acts) <= 3
    ensures Tearing(s, Exec(s, acts), Handoff.WorkSteps(acts))
  {
    hide Tearing;
    hide Next;
    hide CanStep;
    if acts != [] {
      var n := |acts| - 1;
      TornSoFar(s, acts[..n]);
      if acts[n].Work? {
        WorkTears(s, Exec(s, acts[..n]), Handoff.WorkSteps(acts[..n]), acts[n].scanFails);
      } else {
        OthersLetTear(s, Exec(s, acts[..n]), Handoff.WorkSteps(acts[..n]), acts[n]);
      }
    }
  }

  /** Whenever a teardown finds a burst active: with its fourth step, whatever happens in between, the
      burst's stop is in the log, followed by its callback exactly if the last advertisement of the run
      that decoded did so no earlier than the recorded start of the burst. */
  lemma TeardownReports(clock: int, before: seq<Action>, acts: seq<Action>)
    requires CanRun(Boot(clock), before)
    requires var s := Exec(Boot(clock), before);
      s.worker.StopCheck? && s.scanActive && CanRun(s, acts)
    requires acts != [] && acts[|acts|-1].Work? && Handoff.WorkSteps(acts) == 4
    ensures var s := Exec(Boot(clock), before); var s' := Exec(s, acts);
      var decoded, start := LastDecode(clock, before + acts), LastMark(clock, before);
      && s'.worker == Resting && s'.bursts == s.bursts
      && s'.log == s.log + [ScanOff(s.bursts)] +
           if decoded.Some? && start <= decoded.value then [Callback(s.bursts, decoded.value, start)] else []
  {
    var s, n := Exec(Boot(clock), before), |acts| - 1;
    var s1 := Exec(s, acts[..n]);
    TornSoFar(s, acts[..n]);
    ExecAppend(Boot(clock), before, acts[..n]);
    History(clock, before);
    History(clock, before + acts[..n]);
    assert (before + acts)[..|before + acts|-1] == before + acts[..n];
    assert LastDecode(clock, before + acts) == LastDecode(clock, before + acts[..n]);
    assert Exec(s, acts) == Next(s1, acts[n]);
    hide CanRun;
    hide LastDecode;
    hide LastMark;
    hide Exec;
  }

  // ---- The timeout --------------------------------------------------------------------------------

  /** A burst's timeout is never further away than five seconds, nor earlier than five seconds after the
      recorded start of its burst. */
  lemma {:induction false} TimeoutWithinFiveSeconds(clock: int, acts: seq<Action>)
    requires CanRun(Boot(clock), acts)
    ensures var s := Exec(Boot(clock), acts);
      s.timer.Some? ==>
        LastMark(clock, acts) + 5000 <= s.timer.value.deadline <= ClockAfter(clock, acts) + 5000
  {
    TimeoutOwnership(clock, acts);
    History(clock, acts);
    hide LastMark;
    hide ClockAfter;
    TimerAhead(clock, acts);
    hide CanRun;
    hide Exec;
  }

  lemma {:induction false} TimerAhead(clock: int, acts: seq<Action>)
    requires CanRun(Boot(clock), acts)
    ensures var s := Exec(Boot(clock), acts); s.timer.Some? ==> s.timer.value.deadline <= s.clock + 5000
  {
    hide Next;
    hide CanStep;
    if acts != [] {
      var n := |acts| - 1;
      TimerAhead(clock, acts[..n]);
      StepTimer(Exec(Boot(clock), acts[..n]), acts[n]);
    }
  }

  lemma StepTimer(s: Dev, a: Action)
    requires CanStep(s, a) && (s.timer.Some? ==> s.timer.value.deadline <= s.clock + 5000)
    ensures Next(s, a).timer.Some? ==> Next(s, a).timer.value.deadline <= Next(s, a).clock + 5000
  {
  }

  // ---- Triggers ------------------------------------------------------------------------------------

  /** No start is queued or about to be submitted. */
  predicate Untriggered(s: Dev) { s.triggering == 0 && Start !in s.queue }

  lemma ClosedStep(s: Dev, a: Action)
    requires CanStep(s, a) && !s.enabled && Untriggered(s) && !Handoff.Opens(a)
    ensures !Next(s, a).enabled && Untriggered(Next(s, a))
  {
    WithoutTimeoutsFacts(s.queue);
    SubmitFacts(s.queue, Stop);
    if a.Expire? { SubmitFacts(s.queue, Timeout(s.timer.value.burst)); }
    hide Submit;
    hide WithoutTimeouts;
    hide Schedule;
  }

  /** Triggers do nothing while the gate is closed: in every run that does not open it, no start is ever
      queued, however often the report timer triggers. */
  lemma {:induction false} ClosedGateStopsTriggers(s: Dev, acts: seq<Action>)
    requires CanRun(s, acts) && Handoff.NeverOpens(acts) && !s.enabled && Untriggered(s)
    ensures !Exec(s, acts).enabled && Untriggered(Exec(s, acts))
  {
    hide Next;
    hide CanStep;
    hide Untriggered;
    if acts != [] {
      var n := |acts| - 1;
      assert Handoff.NeverOpens(acts[..n]);
      ClosedGateStopsTriggers(s, acts[..n]);
      ClosedStep(Exec(s, acts[..n]), acts[n]);
    }
  }
}
