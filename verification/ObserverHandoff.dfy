/** Handing the radio to advertising: how soon a closed gate silences the observer, and for how long. */
module ObserverHandoff {
  import opened Prelude
  import opened Observer
  import opened ObserverSafety

  predicate Quiet(s: Dev) { !s.enabled && !WillScan(s) }

  predicate Opens(a: Action) { a == SetEnabled(true) }

  /** Quiet lasts until the gate is opened again, through any triggers, adverts and timeouts. */
  lemma QuietStays(s: Dev, a: Action)
    requires Quiet(s) && CanStep(s, a) && !Opens(a) && RadioInv(s)
    ensures Quiet(Next(s, a))
  {
  }

  /** Work queue steps before a queued stop starts, counting one dequeue and four handler steps
      for each item ahead of it, plus the steps that the stop needs to turn the radio off. */
  function QueueRank(queue: seq<Item>): nat {
    if queue == [] then 0
    else if queue[0] == Stop then 4
    else 5 + QueueRank(queue[1..])
  }

  function WorkerRank(w: Worker): nat {
    match w
    case Resting => 0
    case StartCheck => 4
    case StartScan => 3
    case StartMark => 2
    case StartArm => 1
    case StopCheck(_) => 3
    case StopCancel(_) => 2
    case StopRadio => 1
    case StopReport => 1
  }

  /** An upper bound on the work queue steps until the observer is quiet. */
  function Rank(s: Dev): nat {
    if Quiet(s) then 0
    else WorkerRank(s.worker) + if StopRunning(s) then 0 else QueueRank(s.queue)
  }

  /** The gate is closed and silence is on its way. */
  predicate Closing(s: Dev) { !s.enabled && (Quiet(s) || StopPending(s)) }

  lemma {:induction false} RankAppend(queue: seq<Item>, more: seq<Item>)
    requires Stop in queue
    ensures QueueRank(queue + more) == QueueRank(queue) && Stop in queue + more
  {
    if queue[0] != Stop {
      assert queue == [queue[0]] + queue[1..];
      assert (queue + more)[1..] == queue[1..] + more;
      RankAppend(queue[1..], more);
    }
  }

  lemma SubmitRank(queue: seq<Item>, item: Item)
    requires Stop in queue
    ensures QueueRank(Submit(queue, item)) == QueueRank(queue) && Stop in Submit(queue, item)
  {
    RankAppend(queue, [item]);
  }

  /** Steps of other threads do not delay the silence. */
  lemma OthersDoNotDelay(s: Dev, a: Action)
    requires Inv(s) && Closing(s) && CanStep(s, a) && !Opens(a) && !a.Work?
    ensures Closing(Next(s, a)) && Rank(Next(s, a)) <= Rank(s)
  {
    if Quiet(s) {
      QuietStays(s, a);
    } else if Stop in s.queue {
      SubmitRank(s.queue, Stop);
      SubmitRank(s.queue, Start);
      if a.Expire? {
        SubmitRank(s.queue, Timeout(s.timer.value.burst));
      }
    }
    hide QueueRank;
    hide Submit;
    hide QueueInv;
    hide TimerInv;
    hide LogInv;
  }

  lemma HeadRank(queue: seq<Item>)
    requires Stop in queue
    ensures queue[0] == Stop ==> QueueRank(queue) == 4
    ensures queue[0] != Stop ==> Stop in queue[1..] && QueueRank(queue) == 5 + QueueRank(queue[1..])
  {
  }

  /** Every step of the work queue brings the silence closer. */
  lemma WorkBringsSilence(s: Dev, scanFails: bool)
    requires Inv(s) && Closing(s) && CanStep(s, Work(scanFails))
    ensures var s' := Next(s, Work(scanFails));
      Closing(s') && (Rank(s') == 0 || Rank(s') < Rank(s))
  {
  }

  function WorkSteps(acts: seq<Action>): nat {
    if acts == [] then 0 else WorkSteps(acts[..|acts|-1]) + if acts[|acts|-1].Work? then 1 else 0
  }

  ghost predicate NeverOpens(acts: seq<Action>) { forall i :: 0 <= i < |acts| ==> !Opens(acts[i]) }

  lemma {:induction false} SilenceComes(s: Dev, acts: seq<Action>)
    requires Inv(s) && Closing(s) && CanRun(s, acts) && NeverOpens(acts)
    ensures Inv(Exec(s, acts)) && Closing(Exec(s, acts))
    ensures Rank(Exec(s, acts)) == 0 || Rank(Exec(s, acts)) + WorkSteps(acts) <= Rank(s)
  {
    hide Inv;
    hide Next;
    hide CanStep;
    hide Rank;
    hide Closing;
    if acts != [] {
      var n := |acts| - 1;
      assert NeverOpens(acts[..n]);
      SilenceComes(s, acts[..n]);
      var s1 := Exec(s, acts[..n]);
      StepKeeps(s1, acts[n]);
      if acts[n].Work? {
        WorkBringsSilence(s1, acts[n].scanFails);
      } else {
        OthersDoNotDelay(s1, acts[n]);
      }
    }
  }

  /** At most two items can be ahead of a queued stop. */
  lemma RankBounded(s: Dev)
    requires Inv(s) && Closing(s)
    ensures Rank(s) <= 18
  {
    hide TimerInv;
    hide LogInv;
    if !Quiet(s) && !StopRunning(s) {
      AheadOfStop(s.queue);
      hide QueueRank;
    }
  }

  lemma AheadOfStop(q: seq<Item>)
    requires Stop in q && AllDistinct(q)
    ensures QueueRank(q) <= 14
  {
    HeadRank(q);
    if q[0] != Stop {
      HeadRank(q[1..]);
      if q[1] != Stop {
        assert q[1..][1..] == q[2..];
        HeadRank(q[2..]);
        assert !SameWork(q[0], q[1]);
        assert !SameWork(q[0], q[2]) && !SameWork(q[1], q[2]);
      }
    }
  }

  /** From any reachable state with a closed gate and no disable call in flight: once the work queue
      has made 18 steps, whatever the other threads did meanwhile short of opening the gate, the radio
      is off and no handler is about to turn it on, and so it stays until the gate is opened. */
  lemma SilentWithin18(clock: int, before: seq<Action>, acts: seq<Action>)
    requires CanRun(Boot(clock), before)
    requires !Exec(Boot(clock), before).enabled && Exec(Boot(clock), before).disabling == 0
    requires CanRun(Exec(Boot(clock), before), acts) && NeverOpens(acts) && 18 <= WorkSteps(acts)
    ensures Quiet(Exec(Exec(Boot(clock), before), acts))
  {
    BootInv(clock);
    Reachable(Boot(clock), before);
    var s := Exec(Boot(clock), before);
    RankBounded(s);
    SilenceComes(s, acts);
    RankZeroOrQuiet(Exec(s, acts));
    hide Rank;
    hide Inv;
  }

  lemma RankZeroOrQuiet(s: Dev)
    requires Inv(s) && Closing(s)
    ensures Rank(s) == 0 ==> Quiet(s)
  {
  }

  // ---- The gate policy of the application -------------------------------------------------------------

  /** What the application's event handlers react to; a gate event carries what they read of it. */
  datatype AppEvent =
    | CommissioningComplete
    | AdvertisingStarted
    | AdvertisingStopped(commissioned: bool)
    | InitialGate(commissioned: bool)
    | Unrelated

  /** The gate call that an event makes, if it makes one. */
  function GateCall(e: AppEvent): Option<bool> {
    match e
    case CommissioningComplete => Some(true)
    case AdvertisingStarted => Some(false)
    case AdvertisingStopped(commissioned) => Some(commissioned)
    case InitialGate(commissioned) => Some(commissioned)
    case Unrelated => None
  }

  /** A step of the application thread's events or of anything else in the device. */
  datatype AppStep = Handle(e: AppEvent) | Device(a: Action)

  /** The device actions behind the steps; only events call the gate. */
  function ActionsOf(steps: seq<AppStep>): seq<Action> {
    if steps == [] then []
    else
      ActionsOf(steps[..|steps|-1]) + StepActions(steps[|steps|-1])
  }

  function StepActions(step: AppStep): seq<Action> {
    match step
    case Device(a) => [a]
    case Handle(e) => if GateCall(e).Some? then [SetEnabled(GateCall(e).value)] else []
  }

  /** No gate event other than a further start of advertising; the device does not call the gate itself. */
  predicate StillAdvertising(step: AppStep) {
    match step
    case Device(a) => !a.SetEnabled?
    case Handle(e) => e == AdvertisingStarted || e == Unrelated
  }

  lemma {:induction false} AdvertisingNeverOpens(steps: seq<AppStep>)
    requires forall i :: 0 <= i < |steps| ==> StillAdvertising(steps[i])
    ensures NeverOpens(ActionsOf(steps))
  {
    if steps != [] {
      AdvertisingNeverOpens(steps[..|steps|-1]);
    }
  }

  lemma StaysClosed(s: Dev, acts: seq<Action>, step: AppStep)
    requires StillAdvertising(step) && CanRun(s, acts + StepActions(step))
    ensures CanRun(s, acts)
    ensures !Exec(s, acts).enabled || step == Handle(AdvertisingStarted) ==> !Exec(s, acts + StepActions(step)).enabled
  {
    var more := StepActions(step);
    if more == [] {
      assert acts + more == acts;
    } else {
      assert (acts + more)[..|acts + more|-1] == acts;
      if !Exec(s, acts).enabled {
        OnlyOpensOpen(Exec(s, acts), more[0]);
      }
      hide WorkStep;
    }
  }

  /** From the start of advertising on the gate is closed. */
  lemma {:induction false} ClosedWhileAdvertising(clock: int, steps: seq<AppStep>, mid: seq<AppStep>)
    requires forall i :: 0 <= i < |mid| ==> StillAdvertising(mid[i])
    requires CanRun(Boot(clock), ActionsOf(steps + [Handle(AdvertisingStarted)] + mid))
    ensures !Exec(Boot(clock), ActionsOf(steps + [Handle(AdvertisingStarted)] + mid)).enabled
  {
    hide CanRun;
    hide Exec;
    hide Next;
    hide CanStep;
    hide StepActions;
    var all := steps + [Handle(AdvertisingStarted)] + mid;
    var n := |all| - 1;
    StaysClosed(Boot(clock), ActionsOf(all[..n]), all[n]);
    if mid == [] {
      assert all[n] == Handle(AdvertisingStarted);
    } else {
      assert all[..n] == steps + [Handle(AdvertisingStarted)] + mid[..|mid|-1];
      assert all[n] == mid[|mid|-1];
      ClosedWhileAdvertising(clock, steps, mid[..|mid|-1]);
    }
  }

  lemma OnlyOpensOpen(s: Dev, a: Action)
    requires CanStep(s, a) && !Opens(a) && !s.enabled
    ensures !Next(s, a).enabled
  {
  }

  /** Advertising handoff: whatever happened before, the event of a started advertising is handled and
      no commissioning-complete, advertising-stopped or initial-gate event follows. Then 18 work queue
      steps after its disable call has returned the radio is silent, and silent it stays through any
      number of periodic triggers. */
  lemma AdvertisingHandoff(clock: int, steps: seq<AppStep>, mid: seq<AppStep>, tail: seq<AppStep>)
    requires forall i :: 0 <= i < |mid| ==> StillAdvertising(mid[i])
    requires forall i :: 0 <= i < |tail| ==> StillAdvertising(tail[i])
    requires CanRun(Boot(clock), ActionsOf(steps + [Handle(AdvertisingStarted)] + mid))
    requires var s := Exec(Boot(clock), ActionsOf(steps + [Handle(AdvertisingStarted)] + mid));
      s.disabling == 0 && CanRun(s, ActionsOf(tail)) && 18 <= WorkSteps(ActionsOf(tail))
    ensures var s := Exec(Boot(clock), ActionsOf(steps + [Handle(AdvertisingStarted)] + mid));
      Quiet(Exec(s, ActionsOf(tail))) && !Exec(s, ActionsOf(tail)).radio
  {
    ClosedWhileAdvertising(clock, steps, mid);
    AdvertisingNeverOpens(tail);
    hide ActionsOf;
    SilentWithin18(clock, ActionsOf(steps + [Handle(AdvertisingStarted)] + mid), ActionsOf(tail));
  }

  // ---- The policy as documented --------------------------------------------------------------------

  /** The last gate call made by these events; the gate starts closed. */
  function Gate(es: seq<AppEvent>): bool {
    if es == [] then false
    else if GateCall(es[|es|-1]).Some? then GateCall(es[|es|-1]).value
    else Gate(es[..|es|-1])
  }

  function Advertising(es: seq<AppEvent>): bool {
    if es == [] then false
    else if es[|es|-1] == AdvertisingStarted then true
    else if es[|es|-1].AdvertisingStopped? then false
    else Advertising(es[..|es|-1])
  }

  /** An event that opens the gate without looking at advertising. */
  predicate OpensBlindly(e: AppEvent) { e == CommissioningComplete || e == InitialGate(true) }

  /** Since the last start of advertising, the last gate event opened the gate blindly. */
  predicate Reopened(es: seq<AppEvent>) {
    es != [] &&
      if GateCall(es[|es|-1]).Some? then OpensBlindly(es[|es|-1]) else Reopened(es[..|es|-1])
  }

  function EventsOf(steps: seq<AppStep>): seq<AppEvent> {
    if steps == [] then []
    else EventsOf(steps[..|steps|-1]) + if steps[|steps|-1].Handle? then [steps[|steps|-1].e] else []
  }

  /** The application calls the gate from its event handlers only. */
  ghost predicate OnlyEventsGate(steps: seq<AppStep>) {
    forall i :: 0 <= i < |steps| ==> (steps[i].Device? ==> !steps[i].a.SetEnabled?)
  }

  /** What one step makes of the device's gate. */
  lemma StepGate(s: Dev, acts: seq<Action>, step: AppStep)
    requires step.Device? ==> !step.a.SetEnabled?
    requires CanRun(s, acts + StepActions(step))
    ensures CanRun(s, acts)
    ensures Exec(s, acts + StepActions(step)).enabled ==
            if step.Handle? && GateCall(step.e).Some? then GateCall(step.e).value else Exec(s, acts).enabled
  {
    hide GateCall;
    hide WorkStep;
    var more := StepActions(step);
    if more == [] {
      assert acts + more == acts;
    } else {
      assert (acts + more)[..|acts + more|-1] == acts;
      if more[0].Work? { WorkLeavesGate(Exec(s, acts), more[0].scanFails); }
    }
  }

  lemma WorkLeavesGate(s: Dev, scanFails: bool)
    requires CanStep(s, Work(scanFails))
    ensures WorkStep(s, scanFails).enabled == s.enabled
  {
  }

  /** In every run the gate of the device is what the events handled so far make of it. */
  lemma {:induction false} GateOfRun(clock: int, steps: seq<AppStep>)
    requires OnlyEventsGate(steps) && CanRun(Boot(clock), ActionsOf(steps))
    ensures Exec(Boot(clock), ActionsOf(steps)).enabled == Gate(EventsOf(steps))
  {
    hide CanRun;
    hide Exec;
    hide StepActions;
    hide GateCall;
    if steps == [] {
      RunNone(Boot(clock));
    } else {
      var n := |steps| - 1;
      StepGate(Boot(clock), ActionsOf(steps[..n]), steps[n]);
      GateOfRun(clock, steps[..n]);
      if steps[n].Handle? {
        var es := EventsOf(steps);
        assert es[|es|-1] == steps[n].e && es[..|es|-1] == EventsOf(steps[..n]);
      } else {
        assert EventsOf(steps) == EventsOf(steps[..n]);
      }
    }
  }

  /** An event that opens the gate, and one that closes it. */
  predicate OpensGate(e: AppEvent) { e in {CommissioningComplete, AdvertisingStopped(true), InitialGate(true)} }

  predicate ClosesGate(e: AppEvent) { e in {AdvertisingStarted, AdvertisingStopped(false), InitialGate(false)} }

  /** Event `i` opened the gate, and none has closed it since. */
  predicate OpenSince(es: seq<AppEvent>, i: int) {
    0 <= i < |es| && OpensGate(es[i]) && forall j :: i < j < |es| ==> !ClosesGate(es[j])
  }

  /** In every run: the gate is open exactly if some event has opened it that none has closed since. */
  lemma GateOpenIff(clock: int, steps: seq<AppStep>)
    requires OnlyEventsGate(steps) && CanRun(Boot(clock), ActionsOf(steps))
    ensures Exec(Boot(clock), ActionsOf(steps)).enabled <==> exists i :: OpenSince(EventsOf(steps), i)
  {
    GateOfRun(clock, steps);
    LastGateEvent(EventsOf(steps));
  }

  lemma {:induction false} LastGateEvent(es: seq<AppEvent>)
    ensures Gate(es) <==> exists i :: OpenSince(es, i)
  {
    if es != [] {
      var n := |es| - 1;
      var ds := es[..n];
      LastGateEvent(ds);
      assert OpensGate(es[n]) ==> OpenSince(es, n);
      assert forall i :: OpenSince(ds, i) && !ClosesGate(es[n]) ==> OpenSince(es, i);
      assert forall i :: OpenSince(es, i) && i != n ==> OpenSince(ds, i);
    }
  }

  lemma RunNone(s: Dev)
    ensures CanRun(s, []) && Exec(s, []) == s
  {
  }

  lemma {:induction false} OpenIffReopened(es: seq<AppEvent>)
    requires Advertising(es)
    ensures Gate(es) <==> Reopened(es)
  {
    if !GateCall(es[|es|-1]).Some? {
      OpenIffReopened(es[..|es|-1]);
    }
  }

  /** "Advertising active, scanning disabled" is the documented policy. In every run of the device in
      which advertising is active, the gate is closed exactly as long as no commissioning-complete or
      initial-gate event has reopened it since; and while that is so, 18 work queue steps after the
      last disable call has returned the radio is silent. */
  lemma PolicyKeptIff(clock: int, steps: seq<AppStep>)
    requires OnlyEventsGate(steps) && CanRun(Boot(clock), ActionsOf(steps))
    requires Advertising(EventsOf(steps))
    ensures var s := Exec(Boot(clock), ActionsOf(steps));
      && (!s.enabled <==> !Reopened(EventsOf(steps)))
      && (!Reopened(EventsOf(steps)) && s.disabling == 0 ==>
            forall acts :: CanRun(s, acts) && NeverOpens(acts) && 18 <= WorkSteps(acts) ==> Quiet(Exec(s, acts)))
  {
    GateOfRun(clock, steps);
    OpenIffReopened(EventsOf(steps));
    var s := Exec(Boot(clock), ActionsOf(steps));
    hide Quiet;
    if !s.enabled && s.disabling == 0 {
      forall acts | CanRun(s, acts) && NeverOpens(acts) && 18 <= WorkSteps(acts) ensures Quiet(Exec(s, acts)) {
        SilentWithin18(clock, ActionsOf(steps), acts);
      }
    }
  }

  /** Advertising starts and its disable call returns; commissioning completes; a trigger comes, and the
      work queue serves the stop and then the start. */
  const BLIND_RUN := [
    Handle(AdvertisingStarted), Device(SubmitStop), Handle(CommissioningComplete),
    Device(CheckTrigger), Device(SubmitStart),
    Device(Work(false)), Device(Work(false)), Device(Work(false)), Device(Work(false)), Device(Work(false))]

  /** The first `k` steps of it lead to `s`; `es` are their events. */
  ghost predicate Blind(clock: int, k: nat, es: seq<AppEvent>, s: Dev) {
    && k <= |BLIND_RUN| && EventsOf(BLIND_RUN[..k]) == es
    && CanRun(Boot(clock), ActionsOf(BLIND_RUN[..k])) && Exec(Boot(clock), ActionsOf(BLIND_RUN[..k])) == s
  }

  lemma BlindStep(clock: int, k: nat, es: seq<AppEvent>, s: Dev, a: Action, es': seq<AppEvent>, s': Dev)
    requires Blind(clock, k, es, s) && k < |BLIND_RUN| && StepActions(BLIND_RUN[k]) == [a]
    requires es' == es + if BLIND_RUN[k].Handle? then [BLIND_RUN[k].e] else []
    requires CanStep(s, a) && s' == Next(s, a)
    ensures Blind(clock, k + 1, es', s')
  {
    hide Next;
    hide CanStep;
    hide StepActions;
    var steps := BLIND_RUN[..k+1];
    assert steps[..|steps|-1] == BLIND_RUN[..k] && steps[|steps|-1] == BLIND_RUN[k];
    var acts := ActionsOf(BLIND_RUN[..k]);
    assert ActionsOf(steps) == acts + [a] && (acts + [a])[..|acts + [a]|-1] == acts;
  }

  lemma BlindBoot(clock: int)
    ensures Blind(clock, 0, [], Boot(clock))
  {
    RunNone(Boot(clock));
    assert BLIND_RUN[..0] == [];
  }

  /** The gate is closed, a stop is queued, and the gate is opened again. */
  lemma BlindGate(clock: int)
    ensures Blind(clock, 3, [AdvertisingStarted, CommissioningComplete],
                  Boot(clock).(enabled := true, queue := [Stop]))
  {
    hide Blind;
    hide WorkStep;
    BlindBoot(clock);
    var s0, es := Boot(clock), [AdvertisingStarted];
    BlindStep(clock, 0, [], s0, SetEnabled(false), es, s0.(disabling := 1));
    BlindStep(clock, 1, es, s0.(disabling := 1), SubmitStop, es, s0.(queue := [Stop]));
    BlindStep(clock, 2, es, s0.(queue := [Stop]), SetEnabled(true), es + [CommissioningComplete],
              s0.(enabled := true, queue := [Stop]));
    assert es + [CommissioningComplete] == [AdvertisingStarted, CommissioningComplete];
  }

  lemma BlindTrigger(clock: int, es: seq<AppEvent>)
    requires Blind(clock, 3, es, Boot(clock).(enabled := true, queue := [Stop]))
    ensures Blind(clock, 5, es, Boot(clock).(enabled := true, queue := [Stop, Start]))
  {
    hide Blind;
    hide WorkStep;
    var s3 := Boot(clock).(enabled := true, queue := [Stop]);
    assert es == es + [];
    BlindStep(clock, 3, es, s3, CheckTrigger, es, s3.(triggering := 1));
    BlindStep(clock, 4, es, s3.(triggering := 1), SubmitStart, es, s3.(queue := [Stop, Start]));
  }

  /** The stop finds nothing to stop; the start finds the gate open. */
  lemma BlindWork(clock: int, es: seq<AppEvent>)
    requires Blind(clock, 5, es, Boot(clock).(enabled := true, queue := [Stop, Start]))
    ensures Blind(clock, 9, es, Boot(clock).(enabled := true, worker := StartScan))
  {
    hide Blind;
    var s5 := Boot(clock).(enabled := true, queue := [Stop, Start]);
    var s7 := s5.(queue := [Start]);
    var s8 := s5.(queue := [], worker := StartCheck);
    assert es == es + [] && [Stop, Start][1..] == [Start] && [Start][1..] == [];
    BlindStep(clock, 5, es, s5, Work(false), es, s7.(worker := StopCheck(Stop)));
    BlindStep(clock, 6, es, s7.(worker := StopCheck(Stop)), Work(false), es, s7);
    BlindStep(clock, 7, es, s7, Work(false), es, s8);
    BlindStep(clock, 8, es, s8, Work(false), es, s8.(worker := StartScan));
  }

  /** A run from boot that ends with the radio scanning while advertising is active. */
  lemma PolicyBroken(clock: int)
    ensures OnlyEventsGate(BLIND_RUN) && Advertising(EventsOf(BLIND_RUN))
    ensures CanRun(Boot(clock), ActionsOf(BLIND_RUN)) && Exec(Boot(clock), ActionsOf(BLIND_RUN)).radio
  {
    hide CanRun;
    hide Exec;
    hide Blind;
    hide EventsOf;
    hide ActionsOf;
    var es, s9 := [AdvertisingStarted, CommissioningComplete], Boot(clock).(enabled := true, worker := StartScan);
    BlindGate(clock);
    BlindTrigger(clock, es);
    BlindWork(clock, es);
    assert es == es + [];
    BlindStep(clock, 9, es, s9, Work(false), es, WorkStep(s9, false));
    BlindEnd(clock, es, WorkStep(s9, false));
  }

  lemma BlindEnd(clock: int, es: seq<AppEvent>, s: Dev)
    requires Blind(clock, |BLIND_RUN|, es, s) && es == [AdvertisingStarted, CommissioningComplete]
    ensures CanRun(Boot(clock), ActionsOf(BLIND_RUN)) && Exec(Boot(clock), ActionsOf(BLIND_RUN)) == s
    ensures Advertising(EventsOf(BLIND_RUN))
  {
    assert BLIND_RUN[..|BLIND_RUN|] == BLIND_RUN;
    assert es[..1] == [AdvertisingStarted];
  }
}
