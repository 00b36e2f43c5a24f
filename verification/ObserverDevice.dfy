/** The observer's functions as written, each proved to be its small steps run without interruption. */
module ObserverDevice {
  import opened Prelude
  import opened Observer
  import Safety = ObserverSafety
  import Handoff = ObserverHandoff
  import Burst = ObserverBurst

  /** The rest of the handler that the work queue thread is in. */
  function Finish(s: Dev, scanFails: bool): Dev
    decreases StepsLeft(s.worker)
  {
    if s.worker == Resting then s else Finish(WorkStep(s, scanFails), scanFails)
  }

  function StepsLeft(w: Worker): nat {
    match w
    case Resting => 0
    case StartCheck => 4
    case StartScan => 3
    case StartMark => 2
    case StartArm => 1
    case StopCheck(_) => 4
    case StopCancel(_) => 3
    case StopRadio => 2
    case StopReport => 1
  }

  /** Calls that take two steps, without interruption. */
  function Parsed(s: Dev, sample: (int, int)): Dev { Next(Next(s, Decode(sample.0, sample.1)), SubmitDecoded) }

  function Disabled(s: Dev): Dev { Next(Next(s, SetEnabled(false)), SubmitStop) }

  function Triggered(s: Dev): Dev
    requires s.enabled
  {
    Next(Next(s, CheckTrigger), SubmitStart)
  }

  /** The Bluetooth controller, the kernel's work queue and clock, and the callers in flight. */
  class Kernel {
    var radio: bool
    var queue: seq<Item>
    var timer: Option<Timer>
    var clock: int
    var bursts: nat
    ghost var log: seq<Event>
    ghost var disabling: nat
    ghost var triggering: nat
    ghost var storing: nat

    method SubmitWork(item: Item)
      modifies this`queue
      ensures queue == Submit(old(queue), item)
    {
      if !Queued(queue, item) {
        queue := queue + [item];
      }
    }

    method ScheduleTimeout()
      modifies this`timer
      ensures timer == if old(timer).Some? || Queued(queue, Timeout(bursts)) then old(timer)
                       else Some(Timer(clock + BURST_TIMEOUT_MS, bursts))
    {
      if timer.None? && !Queued(queue, Timeout(bursts)) {
        timer := Some(Timer(clock + BURST_TIMEOUT_MS, bursts));
      }
    }

    method CancelTimeout()
      modifies this`timer, this`queue
      ensures timer == None && queue == WithoutTimeouts(old(queue))
    {
      timer := None;
      queue := WithoutTimeouts(queue);
    }

    method ScanStart(fails: bool) returns (err: bool)
      modifies this`radio, this`bursts, this`log
      ensures err == fails
      ensures fails ==> radio == old(radio) && bursts == old(bursts) && log == old(log)
      ensures !fails ==> radio && bursts == old(bursts) + 1 && log == old(log) + [ScanOn(bursts)]
    {
      err := fails;
      if !fails {
        radio := true;
        bursts := bursts + 1;
        log := log + [ScanOn(bursts)];
      }
    }

    method ScanStop()
      modifies this`radio, this`log
      ensures !radio && log == old(log) + [ScanOff(bursts)]
    {
      radio := false;
      log := log + [ScanOff(bursts)];
    }
  }

  class TiltObserver {
    const kernel: Kernel
    var enabled: bool
    var scanActive: bool
    var burstStart: int
    var tilt: Option<Tilt>

    /** The device as seen with the work queue thread at `w`. */
    ghost function State(w: Worker): Dev
      reads this, kernel
    {
      Dev(enabled, scanActive, burstStart, tilt, kernel.radio, kernel.queue, kernel.timer, w, kernel.clock,
          kernel.disabling, kernel.triggering, kernel.storing, kernel.bursts, kernel.log)
    }

    constructor (kernel: Kernel)
      requires !kernel.radio && kernel.queue == [] && kernel.timer == None && kernel.bursts == 0
      requires kernel.log == [] && kernel.disabling == kernel.triggering == kernel.storing == 0
      ensures this.kernel == kernel && State(Resting) == Boot(kernel.clock)
    {
      this.kernel := kernel;
      enabled := false;
      scanActive := false;
      burstStart := 0;
      tilt := None;
    }

    /** Tear down the burst, if there is one, and call back if it captured a sample. */
    method BurstStop(ghost cause: Item)
      modifies this, kernel
      ensures State(Resting) == Finish(old(State(StopCheck(cause))), false)
    {
      if !scanActive {
        return;
      }
      scanActive := false;
      kernel.CancelTimeout();
      kernel.ScanStop();
      var captured := tilt.Some? && tilt.value.time >= burstStart;
      if captured {
        kernel.log := kernel.log + [Callback(kernel.bursts, tilt.value.time, burstStart)];
      }
      FinishStop(old(State(StopCheck(cause))), cause);
      hide Finish;
      hide WithoutTimeouts;
    }

    method StartWorkHandler(scanFails: bool)
      modifies this, kernel
      ensures State(Resting) == Finish(old(State(StartCheck)), scanFails)
    {
      FinishStart(old(State(StartCheck)), scanFails);
      hide Finish;
      if !enabled {
        return;
      }
      if scanActive {
        return;
      }
      var err := kernel.ScanStart(scanFails);
      if err {
        return;
      }
      scanActive := true;
      burstStart := kernel.clock;
      kernel.ScheduleTimeout();
    }

    method StopWorkHandler()
      modifies this, kernel
      ensures State(Resting) == Finish(old(State(StopCheck(Stop))), false)
    {
      BurstStop(Stop);
    }

    method TimeoutWorkHandler(ghost burst: nat)
      modifies this, kernel
      ensures State(Resting) == Finish(old(State(StopCheck(Timeout(burst)))), false)
    {
      BurstStop(Timeout(burst));
    }

    /** One advertisement element; `decoded` is what decoding it as a Tilt sample gives. */
    method AdParse(decoded: Option<(int, int)>) returns (more: bool)
      modifies this, kernel
      ensures more == decoded.None?
      ensures forall w :: State(w) == if decoded.None? then old(State(w)) else Parsed(old(State(w)), decoded.value)
    {
      if decoded.Some? {
        tilt := Some(Tilt(decoded.value.0, decoded.value.1, kernel.clock));
        kernel.SubmitWork(Stop);
        hide Submit;
        return false;
      }
      more := true;
    }

    method Enable(on: bool)
      modifies this, kernel
      ensures forall w :: State(w) == if on then Next(old(State(w)), SetEnabled(true)) else Disabled(old(State(w)))
    {
      enabled := on;
      if !on {
        kernel.SubmitWork(Stop);
        hide Submit;
      }
    }

    method Trigger()
      modifies kernel
      ensures forall w :: State(w) == if enabled then Triggered(old(State(w))) else Next(old(State(w)), CheckTrigger)
    {
      if !enabled {
        return;
      }
      kernel.SubmitWork(Start);
      hide Submit;
    }

    /** The latest sample, unless it is older than ten minutes. */
    method GetTilt() returns (r: Option<(int, int)>)
      ensures r.Some? <==> tilt.Some? && kernel.clock - tilt.value.time <= 10 * 60 * 1000
      ensures r.Some? ==> r.value == (tilt.value.temp, tilt.value.gravity)
    {
      if tilt.Some? && kernel.clock - tilt.value.time <= SAMPLE_MAX_AGE_MS {
        r := Some((tilt.value.temp, tilt.value.gravity));
      } else {
        r := None;
      }
    }
  }

  /** A stop handler from its start to its end. */
  lemma FinishStop(s: Dev, cause: Item)
    requires s.worker == StopCheck(cause)
    ensures Finish(s, false) ==
      if !s.scanActive then s.(worker := Resting)
      else
        var log := s.log + [ScanOff(s.bursts)];
        s.(scanActive := false, timer := None, queue := WithoutTimeouts(s.queue), radio := false, worker := Resting,
           log := if Captured(s) then log + [Callback(s.bursts, s.tilt.value.time, s.burstStart)] else log)
  {
    hide WithoutTimeouts;
    if s.scanActive {
      var s1 := WorkStep(s, false);
      var s2 := WorkStep(s1, false);
      var s3 := WorkStep(s2, false);
      var s4 := WorkStep(s3, false);
      assert Finish(s4, false) == s4;
      assert Finish(s3, false) == s4;
      assert Finish(s2, false) == s4;
    }
  }

  /** A start handler from its start to its end. */
  lemma FinishStart(s: Dev, scanFails: bool)
    requires s.worker == StartCheck
    ensures Finish(s, scanFails) ==
      if !s.enabled || s.scanActive || scanFails then s.(worker := Resting)
      else
        var t := s.(radio := true, bursts := s.bursts + 1, log := s.log + [ScanOn(s.bursts + 1)],
                    scanActive := true, burstStart := s.clock);
        t.(timer := Schedule(t), worker := Resting)
  {
    var s1 := WorkStep(s, scanFails);
    if !s.enabled {
      assert Finish(s1, scanFails) == s1;
    } else {
      var s2 := WorkStep(s1, scanFails);
      if !s.scanActive && !scanFails {
        var s3 := WorkStep(s2, scanFails);
        var s4 := WorkStep(s3, scanFails);
        assert Finish(s4, scanFails) == s4;
        assert Finish(s3, scanFails) == s4;
        assert Finish(s2, scanFails) == s4;
      } else {
        assert Finish(s2, scanFails) == s2;
      }
    }
  }

  /** The last advertisement of a run that decoded as a sample, with the time at which it did. */
  ghost function LastDecoded(s: Dev, acts: seq<Action>): Option<Tilt>
    requires CanRun(s, acts)
  {
    if acts == [] then s.tilt
    else
      var a := acts[|acts|-1];
      if a.Decode? then Some(Tilt(a.temp, a.gravity, Exec(s, acts[..|acts|-1]).clock))
      else LastDecoded(s, acts[..|acts|-1])
  }

  /** Only decoding changes the sample, and only time changes the clock. */
  lemma StepSample(s: Dev, a: Action)
    requires CanStep(s, a)
    ensures Next(s, a).tilt == if a.Decode? then Some(Tilt(a.temp, a.gravity, s.clock)) else s.tilt
    ensures s.clock <= Next(s, a).clock
  {
  }

  /** The sample that reports are made from is the latest one, and never from the future. */
  lemma {:induction false} SampleIsLatest(clock: int, acts: seq<Action>)
    requires CanRun(Boot(clock), acts)
    ensures var s := Exec(Boot(clock), acts);
      s.tilt == LastDecoded(Boot(clock), acts) && (s.tilt.Some? ==> s.tilt.value.time <= s.clock)
  {
    hide Next;
    hide CanStep;
    if acts != [] {
      SampleIsLatest(clock, acts[..|acts|-1]);
      StepSample(Exec(Boot(clock), acts[..|acts|-1]), acts[|acts|-1]);
    }
  }

  // ---- What the calls achieve -------------------------------------------------------------------------

  /** A disable call that has returned, in whatever state it was made: 18 work queue steps later the radio
      is silent, unless the gate is opened again. */
  lemma DisableSilences(clock: int, before: seq<Action>, acts: seq<Action>)
    requires CanRun(Boot(clock), before)
    requires CanRun(Disabled(Exec(Boot(clock), before)), acts)
    requires Handoff.NeverOpens(acts) && 18 <= Handoff.WorkSteps(acts)
    ensures Handoff.Quiet(Exec(Disabled(Exec(Boot(clock), before)), acts))
  {
    Safety.BootInv(clock);
    Safety.Reachable(Boot(clock), before);
    var s := Exec(Boot(clock), before);
    DisabledKeeps(s);
    hide Disabled;
    hide Safety.Inv;
    hide Handoff.Rank;
    Handoff.RankBounded(Disabled(s));
    Handoff.SilenceComes(Disabled(s), acts);
    Handoff.RankZeroOrQuiet(Exec(Disabled(s), acts));
  }

  lemma DisabledKeeps(s: Dev)
    requires Safety.Inv(s)
    ensures Safety.Inv(Disabled(s)) && Handoff.Closing(Disabled(s))
  {
    var s1 := Next(s, SetEnabled(false));
    Safety.StepKeeps(s, SetEnabled(false));
    Safety.StepKeeps(s1, SubmitStop);
    Safety.SubmitFacts(s.queue, Stop);
    hide Safety.Inv;
    hide Submit;
  }

  /** A sample ends the burst that captured it: it is stored at once, with its time, and 13 work queue
      steps later the burst is over, whatever the gate does. */
  lemma SampleEndsBurst(clock: int, before: seq<Action>, sample: (int, int), acts: seq<Action>)
    requires CanRun(Boot(clock), before)
    requires var s := Parsed(Exec(Boot(clock), before), sample);
      CanRun(s, acts) && 13 <= Handoff.WorkSteps(acts)
    ensures var s := Exec(Boot(clock), before);
      && Parsed(s, sample).tilt == Some(Tilt(sample.0, sample.1, s.clock))
      && Burst.Over(Exec(Parsed(s, sample), acts), s.bursts)
  {
    Safety.BootInv(clock);
    Safety.Reachable(Boot(clock), before);
    var s := Exec(Boot(clock), before);
    var s' := Parsed(s, sample);
    ParsedKeeps(s, sample);
    hide Parsed;
    hide Safety.Inv;
    hide Burst.Rank;
    hide Burst.Ending;
    Burst.RankBounded(s', s.bursts);
    Burst.EndComes(s', s.bursts, acts);
    if !Burst.Over(Exec(s', acts), s.bursts) {
      Burst.Unfinished(Exec(s', acts), s.bursts);
    }
  }

  lemma ParsedKeeps(s: Dev, sample: (int, int))
    requires Safety.Inv(s)
    ensures Safety.Inv(Parsed(s, sample)) && Burst.Ending(Parsed(s, sample))
    ensures Parsed(s, sample).bursts == s.bursts && Parsed(s, sample).tilt == Some(Tilt(sample.0, sample.1, s.clock))
  {
    var a := Decode(sample.0, sample.1);
    Safety.StepKeeps(s, a);
    Safety.StepKeeps(Next(s, a), SubmitDecoded);
    Safety.SubmitFacts(s.queue, Stop);
    hide Safety.Inv;
    hide Submit;
    var q := Parsed(s, sample).queue;
    var i :| 0 <= i < |q| && q[i] == Stop;
  }

  /** A trigger through an open gate, on an idle observer: the work queue's next handler starts a new burst
      at the time of the clock, with a timeout five seconds later. */
  lemma TriggerStartsBurst(s: Dev)
    requires s.enabled && !s.scanActive && s.worker == Resting && s.queue == [] && s.timer == None
    ensures CanStep(Triggered(s), Work(false))
    ensures Finish(Next(Triggered(s), Work(false)), false) ==
      s.(radio := true, scanActive := true, bursts := s.bursts + 1, burstStart := s.clock,
         timer := Some(Timer(s.clock + 5000, s.bursts + 1)), log := s.log + [ScanOn(s.bursts + 1)])
  {
    assert Triggered(s) == s.(queue := [Start]);
    var s1 := Next(Triggered(s), Work(false));
    assert s1 == s.(worker := StartCheck);
    FinishStart(s1, false);
    hide Finish;
  }
}
