/** Every burst ends, at the latest by its own timeout, whatever the gate does meanwhile. */
module ObserverBurst {
  import opened Observer
  import opened ObserverSafety
  import Handoff = ObserverHandoff

  /** Every work item other than a start tears a burst down. */
  predicate Ending(s: Dev) { (exists i :: 0 <= i < |s.queue| && s.queue[i] != Start) || StopRunning(s) }

  /** Burst `b` is over, and cannot come back: bursts are numbered. */
  predicate Over(s: Dev, b: nat) { b < s.bursts || !s.radio }

  ghost predicate OverOrEnding(s: Dev, b: nat) { b <= s.bursts && (Over(s, b) || Ending(s)) }

  /** Work queue steps up to the end of the first teardown in the queue, counting one dequeue and four
      handler steps for each start ahead of it. */
  function Wait(queue: seq<Item>): nat {
    if queue == [] then 0
    else if queue[0] != Start then 4
    else 5 + Wait(queue[1..])
  }

  function Rank(s: Dev, b: nat): nat {
    if Over(s, b) then 0
    else Handoff.WorkerRank(s.worker) + if StopRunning(s) then 0 else Wait(s.queue)
  }

  lemma {:induction false} WaitAppend(queue: seq<Item>, more: seq<Item>)
    requires exists i :: 0 <= i < |queue| && queue[i] != Start
    ensures Wait(queue + more) == Wait(queue)
  {
    var i :| 0 <= i < |queue| && queue[i] != Start;
    assert queue == [queue[0]] + queue[1..];
    assert (queue + more)[1..] == queue[1..] + more;
    if queue[0] == Start {
      assert queue[1..][i-1] == queue[i];
      WaitAppend(queue[1..], more);
    }
  }

  lemma SubmitWaits(queue: seq<Item>, item: Item)
    requires exists i :: 0 <= i < |queue| && queue[i] != Start
    ensures Wait(Submit(queue, item)) == Wait(queue)
    ensures exists i :: 0 <= i < |Submit(queue, item)| && Submit(queue, item)[i] != Start
  {
    var i :| 0 <= i < |queue| && queue[i] != Start;
    WaitAppend(queue, [item]);
    assert Submit(queue, item)[i] != Start;
  }

  /** Steps of other threads do not put the end off. */
  lemma OthersDoNotPostpone(s: Dev, b: nat, a: Action)
    requires OverOrEnding(s, b) && CanStep(s, a) && !a.Work?
    ensures OverOrEnding(Next(s, a), b) && Rank(Next(s, a), b) <= Rank(s, b)
  {
    hide Wait;
    hide Submit;
    if exists i :: 0 <= i < |s.queue| && s.queue[i] != Start {
      SubmitWaits(s.queue, Stop);
      SubmitWaits(s.queue, Start);
      if a.Expire? {
        SubmitWaits(s.queue, Timeout(s.timer.value.burst));
      }
    }
  }

  /** Every step of the work queue brings the end closer. */
  lemma WorkBringsEnd(s: Dev, b: nat, scanFails: bool)
    requires Inv(s) && OverOrEnding(s, b) && CanStep(s, Work(scanFails))
    ensures var s' := Next(s, Work(scanFails));
      OverOrEnding(s', b) && (Over(s', b) || Rank(s', b) < Rank(s, b))
  {
    hide TimerInv;
    hide QueueInv;
    hide LogInv;
    hide WithoutTimeouts;
    hide Schedule;
    if s.worker == Resting {
      forall i | 1 <= i < |s.queue| ensures s.queue[1..][i-1] == s.queue[i] {}
    }
  }

  /** At most one start can be ahead of a teardown. */
  lemma RankBounded(s: Dev, b: nat)
    requires Inv(s) && OverOrEnding(s, b)
    ensures Rank(s, b) <= 13
  {
    hide TimerInv;
    hide LogInv;
    var q := s.queue;
    if |q| > 1 && q[0] == Start {
      assert !SameWork(q[0], q[1]);
      assert Wait(q[1..]) == 4;
    }
  }

  lemma {:induction false} EndComes(s: Dev, b: nat, acts: seq<Action>)
    requires Inv(s) && OverOrEnding(s, b) && CanRun(s, acts)
    ensures Inv(Exec(s, acts)) && OverOrEnding(Exec(s, acts), b)
    ensures Over(Exec(s, acts), b) || Rank(Exec(s, acts), b) + Handoff.WorkSteps(acts) <= Rank(s, b)
  {
    hide Inv;
    hide Next;
    hide CanStep;
    hide Rank;
    hide OverOrEnding;
    hide Over;
    if acts != [] {
      var n := |acts| - 1;
      EndComes(s, b, acts[..n]);
      var s1 := Exec(s, acts[..n]);
      StepKeeps(s1, acts[n]);
      if acts[n].Work? {
        WorkBringsEnd(s1, b, acts[n].scanFails);
      } else {
        OthersDoNotPostpone(s1, b, acts[n]);
      }
      if Over(s1, b) { OverStays(s1, b, acts[n]); }
    }
  }

  lemma OverStays(s: Dev, b: nat, a: Action)
    requires CanStep(s, a) && OverOrEnding(s, b) && Over(s, b)
    ensures Over(Next(s, a), b)
  {
  }

  lemma Unfinished(s: Dev, b: nat)
    requires Inv(s) && OverOrEnding(s, b) && !Over(s, b)
    ensures 0 < Rank(s, b)
  {
  }

  /** A log that reads right has the stop of every burst that is over. */
  lemma {:induction false} StopLogged(log: seq<Event>, b: nat)
    requires Read(log) != Wrong && 1 <= b <= Read(log).n && Read(log) != Scanning(b)
    ensures ScanOff(b) in log
  {
    if log != [] && log[|log|-1] != ScanOff(b) {
      StopLogged(log[..|log|-1], b);
    }
  }

  /** From any reachable state in which a stop or a timeout is queued or running: once the work queue
      has made 13 steps, whatever the other threads did meanwhile and whether or not the gate was
      opened, the burst of that state is over. */
  lemma BurstEnds(clock: int, before: seq<Action>, acts: seq<Action>)
    requires CanRun(Boot(clock), before) && Ending(Exec(Boot(clock), before))
    requires CanRun(Exec(Boot(clock), before), acts) && 13 <= Handoff.WorkSteps(acts)
    ensures var s, s' := Exec(Boot(clock), before), Exec(Exec(Boot(clock), before), acts);
      Over(s', s.bursts) && (0 < s.bursts ==> ScanOff(s.bursts) in s'.log)
  {
    BootInv(clock);
    Reachable(Boot(clock), before);
    var s := Exec(Boot(clock), before);
    RankBounded(s, s.bursts);
    EndComes(s, s.bursts, acts);
    var s' := Exec(s, acts);
    if !Over(s', s.bursts) {
      Unfinished(s', s.bursts);
    }
    hide Rank;
    hide Ending;
    hide Read;
    assert RadioInv(s') && LogInv(s');
    if 0 < s.bursts {
      StopLogged(s'.log, s.bursts);
    }
  }

  /** In every reachable state with a scan on, past the few steps that arm it, the burst's end is on its
      way, or its own timeout is scheduled; and as soon as that is due, its expiry brings the end. */
  lemma TimeoutBringsEnd(clock: int, acts: seq<Action>)
    requires CanRun(Boot(clock), acts)
    ensures var s := Exec(Boot(clock), acts);
      s.radio && s.worker != StartMark && s.worker != StartArm ==>
        || Ending(s)
        || (&& s.timer.Some? && s.timer.value.burst == s.bursts
            && (s.timer.value.deadline <= s.clock ==>
                  && CanStep(s, Expire) && Next(s, Expire).bursts == s.bursts
                  && Ending(Next(s, Expire))))
  {
    BootInv(clock);
    Reachable(Boot(clock), acts);
    var s := Exec(Boot(clock), acts);
    hide CanRun;
    hide Exec;
    hide LogInv;
    hide GateInv;
    if TimeoutQueued(s.queue) {
      var i :| 0 <= i < |s.queue| && s.queue[i].Timeout?;
      assert s.queue[i] != Start;
    } else if s.timer.Some? {
      var q := Submit(s.queue, Timeout(s.timer.value.burst));
      assert q[|q|-1] != Start;
    }
  }
}
