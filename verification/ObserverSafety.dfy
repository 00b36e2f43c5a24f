/** What holds of the observer in every reachable state. */
module ObserverSafety {
  import opened Observer

  // ---- The radio and the gate ----------------------------------------------------------------------

  /** Outside the middle of a handler the flag is the radio's state. */
  predicate RadioInv(s: Dev) {
    match s.worker
    case StartMark => s.radio && !s.scanActive
    case StartArm => s.radio && s.scanActive
    case StopCancel(_) => s.radio && !s.scanActive
    case StopRadio => s.radio && !s.scanActive
    case StopReport => !s.radio && !s.scanActive
    case _ => s.radio == s.scanActive
  }

  /** The radio scans, or a start handler is past its check of the gate. */
  predicate WillScan(s: Dev) {
    s.radio || s.scanActive || s.worker in {StartScan, StartMark, StartArm}
  }

  /** A handler that will turn the radio off is under way. */
  predicate StopRunning(s: Dev) { s.worker.StopCheck? || s.worker.StopCancel? || s.worker.StopRadio? }

  predicate StopPending(s: Dev) { Stop in s.queue || StopRunning(s) }

  predicate GateInv(s: Dev) { !s.enabled && WillScan(s) ==> StopPending(s) || 0 < s.disabling }

  // ---- The timeout --------------------------------------------------------------------------------

  /** The timeout of the current burst is scheduled or queued, not both, and no other one is. */
  ghost predicate Armed(s: Dev) {
    (s.timer.Some? && !TimeoutQueued(s.queue)) || (s.timer.None? && TimeoutQueued(s.queue))
  }

  predicate TimeoutQueued(queue: seq<Item>) { exists i :: 0 <= i < |queue| && queue[i].Timeout? }

  ghost predicate Disarmed(s: Dev) { s.timer.None? && !TimeoutQueued(s.queue) }

  /** No two items of the queue are the same work. */
  ghost predicate AllDistinct(queue: seq<Item>) {
    forall i, j :: 0 <= i < j < |queue| ==> !SameWork(queue[i], queue[j])
  }

  /** No two queued items are the same work, and timeouts belong to the current burst, in time. */
  ghost predicate QueueInv(s: Dev) {
    && AllDistinct(s.queue)
    && (forall i :: 0 <= i < |s.queue| && s.queue[i].Timeout? ==> Due(s, s.queue[i]))
    && (s.timer.Some? ==> s.timer.value.burst == s.bursts && s.burstStart + BURST_TIMEOUT_MS <= s.timer.value.deadline)
  }

  /** A timeout of the current burst, whose five seconds are over. */
  predicate Due(s: Dev, item: Item) {
    item == Timeout(s.bursts) && s.burstStart + BURST_TIMEOUT_MS <= s.clock
  }

  ghost predicate TimerInv(s: Dev) {
    match s.worker
    case StartMark => Disarmed(s)
    case StartArm => Disarmed(s) && s.burstStart <= s.clock
    case StopCheck(cause) =>
      if cause.Timeout? then s.scanActive && Disarmed(s) && Due(s, cause)
      else if s.scanActive then Armed(s) else Disarmed(s)
    case StopCancel(cause) => if cause.Timeout? then Disarmed(s) && Due(s, cause) else Armed(s)
    case StopRadio => Disarmed(s)
    case StopReport => Disarmed(s)
    case _ => if s.scanActive then Armed(s) else Disarmed(s)
  }

  // ---- The log ------------------------------------------------------------------------------------

  /** Reading a log: idle after `n` bursts, scanning in burst `n`, or just stopped and free to call back once. */
  datatype Reading = Idle(n: nat) | Scanning(n: nat) | Stopped(n: nat) | Wrong

  function Read(log: seq<Event>): Reading {
    if log == [] then Idle(0)
    else
      var r := Read(log[..|log|-1]);
      match log[|log|-1]
      case ScanOn(b) => if (r.Idle? || r.Stopped?) && b == r.n + 1 then Scanning(b) else Wrong
      case ScanOff(b) => if r == Scanning(b) then Stopped(b) else Wrong
      case Callback(b, sample, start) => if r == Stopped(b) && start <= sample then Idle(b) else Wrong
  }

  predicate LogInv(s: Dev) {
    if s.radio then Read(s.log) == Scanning(s.bursts)
    else if s.worker == StopReport then Read(s.log) == Stopped(s.bursts)
    else Read(s.log) in {Idle(s.bursts), Stopped(s.bursts)}
  }

  ghost predicate Inv(s: Dev) {
    RadioInv(s) && GateInv(s) && QueueInv(s) && TimerInv(s) && LogInv(s)
  }

  // ---- Each step keeps the invariant ----------------------------------------------------------------

  lemma {:induction false} WithoutTimeoutsFacts(queue: seq<Item>)
    ensures var q := WithoutTimeouts(queue);
      && !TimeoutQueued(q) && |q| <= |queue|
      && (forall i :: 0 <= i < |q| ==> q[i] in queue)
      && (forall x :: x in queue && !x.Timeout? ==> x in q)
  {
    if queue != [] {
      WithoutTimeoutsFacts(queue[1..]);
      assert queue == [queue[0]] + queue[1..];
    }
  }

  lemma {:induction false} WithoutTimeoutsDistinct(queue: seq<Item>)
    requires AllDistinct(queue)
    ensures AllDistinct(WithoutTimeouts(queue))
  {
    if queue != [] {
      WithoutTimeoutsDistinct(queue[1..]);
      var q := WithoutTimeouts(queue[1..]);
      WithoutTimeoutsFacts(queue[1..]);
      hide SameWork;
      assert forall x :: x in queue[1..] ==> !SameWork(queue[0], x);
      assert forall i :: 0 <= i < |q| ==> !SameWork(queue[0], q[i]);
    }
  }

  lemma SubmitFacts(queue: seq<Item>, item: Item)
    ensures item in Submit(queue, item) || (item.Timeout? && TimeoutQueued(queue))
    ensures queue <= Submit(queue, item)
    ensures TimeoutQueued(Submit(queue, item)) <==> TimeoutQueued(queue) || item.Timeout?
    ensures forall x :: x in Submit(queue, item) ==> x in queue || x == item
    ensures AllDistinct(queue) ==> AllDistinct(Submit(queue, item))
  {
  }

  /** Submitting an item other than a timeout; a disable call may have returned by it. */
  lemma SubmitKeeps(s: Dev, item: Item, s': Dev)
    requires Inv(s) && !item.Timeout?
    requires s' == s.(queue := Submit(s.queue, item), disabling := s'.disabling,
                      triggering := s'.triggering, storing := s'.storing)
    requires s'.disabling == s.disabling || item == Stop
    ensures Inv(s')
  {
    SubmitFacts(s.queue, item);
    hide Submit;
    hide Read;
    forall i | 0 <= i < |s'.queue| && s'.queue[i].Timeout? ensures Due(s', s'.queue[i]) {
      assert s'.queue[i] in s.queue;
    }
  }

  lemma ExpireKeeps(s: Dev)
    requires Inv(s) && CanStep(s, Expire)
    ensures Inv(Next(s, Expire))
  {
    var s' := Next(s, Expire);
    var item := Timeout(s.timer.value.burst);
    SubmitFacts(s.queue, item);
    hide Submit;
    hide Read;
    forall i | 0 <= i < |s'.queue| && s'.queue[i].Timeout? ensures Due(s', s'.queue[i]) {
      assert s'.queue[i] in s.queue || s'.queue[i] == item;
    }
  }

  lemma ElapseKeeps(s: Dev, ms: nat)
    requires Inv(s)
    ensures Inv(Next(s, Elapse(ms)))
  {
  }

  lemma OtherKeeps(s: Dev, a: Action)
    requires Inv(s) && CanStep(s, a) && (a.SetEnabled? || a.CheckTrigger? || a.Decode?)
    ensures Inv(Next(s, a))
  {
  }

  lemma DequeueKeeps(s: Dev)
    requires Inv(s) && s.worker == Resting && s.queue != []
    ensures Inv(WorkStep(s, false))
  {
  }

  lemma ReadOn(log: seq<Event>, e: Event)
    ensures Read(log + [e]) ==
      match e
      case ScanOn(b) => if (Read(log).Idle? || Read(log).Stopped?) && b == Read(log).n + 1 then Scanning(b) else Wrong
      case ScanOff(b) => if Read(log) == Scanning(b) then Stopped(b) else Wrong
      case Callback(b, sample, start) => if Read(log) == Stopped(b) && start <= sample then Idle(b) else Wrong
  {
  }

  lemma StartKeeps(s: Dev, scanFails: bool)
    requires Inv(s) && s.worker in {StartCheck, StartScan, StartMark, StartArm}
    ensures Inv(WorkStep(s, scanFails))
  {
  }

  lemma StopKeeps(s: Dev)
    requires Inv(s) && (s.worker.StopCheck? || s.worker.StopCancel? || s.worker.StopRadio? || s.worker.StopReport?)
    ensures Inv(WorkStep(s, false))
  {
    ReadOn(s.log, ScanOff(s.bursts));
    if Captured(s) {
      ReadOn(s.log, Callback(s.bursts, s.tilt.value.time, s.burstStart));
    }
    hide Read;
    if s.worker.StopCancel? {
      WithoutTimeoutsFacts(s.queue);
      WithoutTimeoutsDistinct(s.queue);
      hide AllDistinct;
      hide WithoutTimeouts;
    }
  }

  lemma StepKeeps(s: Dev, a: Action)
    requires Inv(s) && CanStep(s, a)
    ensures Inv(Next(s, a))
  {
    hide Inv;
    hide WorkStep;
    match a
    case SubmitStop => SubmitKeeps(s, Stop, Next(s, a));
    case SubmitStart => SubmitKeeps(s, Start, Next(s, a));
    case SubmitDecoded => SubmitKeeps(s, Stop, Next(s, a));
    case Expire => ExpireKeeps(s);
    case Elapse(ms) => ElapseKeeps(s, ms);
    case Work(scanFails) =>
      if s.worker == Resting {
        DequeueKeeps(s);
        OnlyScanFails(s, scanFails);
      } else if s.worker in {StartCheck, StartScan, StartMark, StartArm} {
        StartKeeps(s, scanFails);
      } else {
        StopKeeps(s);
        OnlyScanFails(s, scanFails);
      }
    case _ => OtherKeeps(s, a);
  }

  lemma OnlyScanFails(s: Dev, scanFails: bool)
    requires CanStep(s, Work(scanFails)) && s.worker != StartScan
    ensures WorkStep(s, scanFails) == WorkStep(s, false)
  {
  }

  lemma BootInv(clock: int)
    ensures Inv(Boot(clock))
  {
  }

  lemma {:induction false} Reachable(s: Dev, acts: seq<Action>)
    requires Inv(s) && CanRun(s, acts)
    ensures Inv(Exec(s, acts))
  {
    hide Inv;
    hide Next;
    hide CanStep;
    if acts != [] {
      Reachable(s, acts[..|acts|-1]);
      StepKeeps(Exec(s, acts[..|acts|-1]), acts[|acts|-1]);
    }
  }

  // ---- What is promised --------------------------------------------------------------------------

  /** Under every interleaving: while the gate is closed and a scan is on or about to be started, a
      stop is queued, running, or about to be submitted by a disable call in flight. So once every
      disable call has returned and the queue is drained, the radio is off. */
  lemma GateUnderInterleaving(clock: int, acts: seq<Action>)
    requires CanRun(Boot(clock), acts)
    ensures var s := Exec(Boot(clock), acts);
      && (!s.enabled && WillScan(s) ==> StopPending(s) || 0 < s.disabling)
      && (!s.enabled && s.disabling == 0 && s.queue == [] && s.worker == Resting ==> !s.radio && !s.scanActive)
  {
    BootInv(clock);
    Reachable(Boot(clock), acts);
    hide TimerInv;
    hide QueueInv;
    hide Read;
  }

  /** Between handlers a burst is active exactly when its own timeout, of five seconds or more after
      the recorded start, is scheduled or queued. When a timeout handler starts, the burst it stops is
      the one that scheduled it and its time is over: no timeout shortens a later burst. */
  lemma TimeoutOwnership(clock: int, acts: seq<Action>)
    requires CanRun(Boot(clock), acts)
    ensures var s := Exec(Boot(clock), acts);
      && (s.worker == Resting ==> (s.scanActive <==> s.timer.Some? || TimeoutQueued(s.queue)))
      && (s.timer.Some? ==> s.timer.value.burst == s.bursts
                            && s.burstStart + BURST_TIMEOUT_MS <= s.timer.value.deadline)
      && (forall i :: 0 <= i < |s.queue| && s.queue[i].Timeout? ==> Due(s, s.queue[i]))
      && (s.worker.StopCheck? && s.worker.cause.Timeout? ==> s.scanActive && Due(s, s.worker.cause))
  {
    BootInv(clock);
    Reachable(Boot(clock), acts);
    hide Read;
  }

  /** Scan starts and stops alternate, bursts are numbered in order, each calls back at most once,
      after its stop, and only for a sample decoded no earlier than its recorded start. */
  lemma LogAlternates(clock: int, acts: seq<Action>)
    requires CanRun(Boot(clock), acts)
    ensures Read(Exec(Boot(clock), acts).log) != Wrong
  {
    BootInv(clock);
    Reachable(Boot(clock), acts);
    hide Read;
  }

  function CountOn(log: seq<Event>): nat {
    if log == [] then 0 else CountOn(log[..|log|-1]) + if log[|log|-1].ScanOn? then 1 else 0
  }

  function CountOff(log: seq<Event>): nat {
    if log == [] then 0 else CountOff(log[..|log|-1]) + if log[|log|-1].ScanOff? then 1 else 0
  }

  function CountCallbacks(log: seq<Event>): nat {
    if log == [] then 0 else CountCallbacks(log[..|log|-1]) + if log[|log|-1].Callback? then 1 else 0
  }

  /** The same in numbers: in a log that reads right, and in each of its prefixes, starts lead stops
      by one exactly while scanning, and callbacks never outnumber stops. */
  lemma {:induction false} AlternationCounts(log: seq<Event>, k: nat)
    requires Read(log) != Wrong && k <= |log|
    ensures Read(log[..k]) != Wrong
    ensures CountOn(log[..k]) == CountOff(log[..k]) + if Read(log[..k]).Scanning? then 1 else 0
    ensures CountCallbacks(log[..k]) + (if Read(log[..k]).Stopped? then 1 else 0) <= CountOff(log[..k])
    ensures CountOn(log[..k]) == Read(log[..k]).n
  {
    if log != [] {
      var ds := log[..|log|-1];
      AlternationCounts(ds, if k < |log| then k else |log| - 1);
      if k < |log| {
        assert ds[..k] == log[..k];
      } else {
        assert ds[..|ds|] == ds && log[..k] == log;
      }
    } else {
      assert log[..k] == [];
    }
  }
}
