/** The Tilt burst observer: API callers, the Bluetooth receive thread and the system work queue,
    interleaved in small atomic steps. */
module Observer {
  import opened Prelude

  const BURST_TIMEOUT_MS := 5000
  const SAMPLE_MAX_AGE_MS := 600000

  /** A work item; a timeout remembers the burst that scheduled it. */
  datatype Item = Start | Stop | Timeout(burst: nat)

  predicate SameWork(a: Item, b: Item) { (a.Timeout? && b.Timeout?) || a == b }

  /** Where the work queue thread is: between handlers, or before the named step of one. */
  datatype Worker =
    | Resting
    | StartCheck
    | StartScan
    | StartMark
    | StartArm
    | StopCheck(cause: Item)
    | StopCancel(cause: Item)
    | StopRadio
    | StopReport

  datatype Tilt = Tilt(temp: int, gravity: int, time: int)

  datatype Timer = Timer(deadline: int, burst: nat)

  /** What an outside listener sees of the bursts. */
  datatype Event =
    | ScanOn(burst: nat)
    | ScanOff(burst: nat)
    | Callback(burst: nat, sampleTime: int, burstStart: int)

  /** `disabling`, `triggering` and `storing` count the callers between the two steps of a disable,
      a trigger and the parse of an advertisement. `bursts` and `log` are history. */
  datatype Dev = Dev(
    enabled: bool,
    scanActive: bool,
    burstStart: int,
    tilt: Option<Tilt>,
    radio: bool,
    queue: seq<Item>,
    timer: Option<Timer>,
    worker: Worker,
    clock: int,
    disabling: nat,
    triggering: nat,
    storing: nat,
    bursts: nat,
    log: seq<Event>)

  function Boot(clock: int): Dev {
    Dev(false, false, 0, None, false, [], None, Resting, clock, 0, 0, 0, 0, [])
  }

  datatype Action =
    | SetEnabled(on: bool)
    | SubmitStop
    | CheckTrigger
    | SubmitStart
    | Decode(temp: int, gravity: int)
    | SubmitDecoded
    | Expire
    | Elapse(ms: nat)
    | Work(scanFails: bool)

  // ---- The work queue's rules --------------------------------------------------------------------

  predicate Queued(queue: seq<Item>, item: Item) {
    exists i :: 0 <= i < |queue| && SameWork(queue[i], item)
  }

  /** Submitting a queued item does nothing; a running one is queued again. */
  function Submit(queue: seq<Item>, item: Item): seq<Item> {
    if Queued(queue, item) then queue else queue + [item]
  }

  function WithoutTimeouts(queue: seq<Item>): seq<Item> {
    if queue == [] then []
    else if queue[0].Timeout? then WithoutTimeouts(queue[1..])
    else [queue[0]] + WithoutTimeouts(queue[1..])
  }

  /** Scheduling does nothing if the timeout is already scheduled or queued. */
  function Schedule(s: Dev): Option<Timer> {
    if s.timer.Some? || Queued(s.queue, Timeout(s.bursts)) then s.timer
    else Some(Timer(s.clock + BURST_TIMEOUT_MS, s.bursts))
  }

  // ---- Steps ------------------------------------------------------------------------------------

  predicate CanStep(s: Dev, a: Action) {
    match a
    case SubmitStop => 0 < s.disabling
    case SubmitStart => 0 < s.triggering
    case SubmitDecoded => 0 < s.storing
    case Expire => s.timer.Some? && s.timer.value.deadline <= s.clock
    case Work(_) => s.worker == Resting ==> s.queue != []
    case _ => true
  }

  function Captured(s: Dev): bool { s.tilt.Some? && s.tilt.value.time >= s.burstStart }

  /** One step of the work queue thread. */
  function WorkStep(s: Dev, scanFails: bool): Dev
    requires CanStep(s, Work(scanFails))
  {
    match s.worker
    case Resting =>
      s.(queue := s.queue[1..], worker := if s.queue[0] == Start then StartCheck else StopCheck(s.queue[0]))
    case StartCheck =>
      s.(worker := if s.enabled then StartScan else Resting)
    case StartScan =>
      if s.scanActive || scanFails then s.(worker := Resting)
      else s.(radio := true, bursts := s.bursts + 1, log := s.log + [ScanOn(s.bursts + 1)], worker := StartMark)
    case StartMark =>
      s.(scanActive := true, burstStart := s.clock, worker := StartArm)
    case StartArm =>
      s.(timer := Schedule(s), worker := Resting)
    case StopCheck(cause) =>
      if s.scanActive then s.(scanActive := false, worker := StopCancel(cause)) else s.(worker := Resting)
    case StopCancel(_) =>
      s.(timer := None, queue := WithoutTimeouts(s.queue), worker := StopRadio)
    case StopRadio =>
      s.(radio := false, log := s.log + [ScanOff(s.bursts)], worker := StopReport)
    case StopReport =>
      s.(log := if Captured(s) then s.log + [Callback(s.bursts, s.tilt.value.time, s.burstStart)] else s.log,
         worker := Resting)
  }

  function Next(s: Dev, a: Action): Dev
    requires CanStep(s, a)
  {
    match a
    case SetEnabled(on) => s.(enabled := on, disabling := if on then s.disabling else s.disabling + 1)
    case SubmitStop => s.(queue := Submit(s.queue, Stop), disabling := s.disabling - 1)
    case CheckTrigger => if s.enabled then s.(triggering := s.triggering + 1) else s
    case SubmitStart => s.(queue := Submit(s.queue, Start), triggering := s.triggering - 1)
    case Decode(temp, gravity) => s.(tilt := Some(Tilt(temp, gravity, s.clock)), storing := s.storing + 1)
    case SubmitDecoded => s.(queue := Submit(s.queue, Stop), storing := s.storing - 1)
    case Expire => s.(timer := None, queue := Submit(s.queue, Timeout(s.timer.value.burst)))
    case Elapse(ms) => s.(clock := s.clock + ms)
    case Work(scanFails) => WorkStep(s, scanFails)
  }

  ghost predicate CanRun(s: Dev, acts: seq<Action>)
    decreases |acts|, 0
  {
    acts != [] ==> CanRun(s, acts[..|acts|-1]) && CanStep(Exec(s, acts[..|acts|-1]), acts[|acts|-1])
  }

  ghost function Exec(s: Dev, acts: seq<Action>): Dev
    requires CanRun(s, acts)
    decreases |acts|, 1
  {
    if acts == [] then s else Next(Exec(s, acts[..|acts|-1]), acts[|acts|-1])
  }
}
