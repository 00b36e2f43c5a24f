/** Replay without errors: how many steps it takes to have nothing pending. */
module ArchiverDrain {
  import opened Telemetry
  import opened Archiver
  import opened ArchiverSafety

  /** The operation does not fail, and the program does not crash. */
  predicate Succeeds(a: Action) {
    match a
    case Read(outcome) => outcome == Success
    case Insert(_, outcome) => outcome == Success
    case Ack(outcome) => outcome == Success
    case Crash => false
    case _ => true
  }

  ghost predicate Clean(acts: seq<Action>) { forall i :: 0 <= i < |acts| ==> Succeeds(acts[i]) }

  /** Steps of the loop that have come to their end. */
  function Finishes(acts: seq<Action>): nat {
    if acts == [] then 0 else Finishes(acts[..|acts|-1]) + if acts[|acts|-1] == Finish then 1 else 0
  }

  function Smaller(a: nat, b: nat): nat { if a < b then a else b }

  function Pending(t: Topic): nat {
    if |t.acked| <= t.delivered then t.delivered - |t.acked| else 0
  }

  /** How many entries are acknowledged after `j` batches. */
  function Reach(t: Topic, j: nat): nat { |t.acked| + Smaller(100 * j, Pending(t)) }

  /** Batches needed for `p` entries. */
  function Batches(p: nat): nat { (p + 99) / 100 }

  function StepsToDrain(s: Sys): nat {
    var a, b := Batches(Pending(s.sensor)), Batches(Pending(s.control));
    (if a < b then b else a) + 1
  }

  /** A batch takes something unless everything has been taken. */
  lemma ReachOn(t: Topic, j: nat)
    requires |t.acked| <= t.delivered
    ensures Reach(t, j) <= Reach(t, j + 1) <= t.delivered
    ensures Reach(t, j + 1) == Smaller(Reach(t, j) + 100, t.delivered)
    ensures Reach(t, j + 1) == Reach(t, j) <==> Batches(Pending(t)) <= j
    ensures Batches(Pending(t)) <= j ==> Reach(t, j) == t.delivered
    ensures Reach(t, 0) == |t.acked|
  {
  }

  // ---- What an error-free run has done ----------------------------------------------------------------

  /** Nothing has been delivered since `s`; before, inside or after its `j`-th batch. */
  ghost predicate Replaying(s: Sys, s': Sys, j: nat) {
    && s'.phase.cursor == Replay
    && s'.sensor.delivered == s.sensor.delivered && s'.control.delivered == s.control.delivered
    && match s'.phase
       case Head(_) => |s'.sensor.acked| == Reach(s.sensor, j) && |s'.control.acked| == Reach(s.control, j)
       case Inserting(_, todo, n) => InBatch(s, s', j, todo, n)
       case Acking(_, todo, n) => InBatch(s, s', j, todo, n)
  }

  ghost predicate InBatch(s: Sys, s': Sys, j: nat, todo: seq<Item>, n: nat) {
    && Todo(s', todo, Reach(s.sensor, j + 1), Reach(s.control, j + 1))
    && |s'.sensor.acked| + |s'.control.acked| == Reach(s.sensor, j) + Reach(s.control, j) + n
  }

  /** Everything that was pending at `s` has been acknowledged. */
  ghost predicate Following(s: Sys, s': Sys, j: nat) {
    && s'.phase.cursor == Follow
    && s.sensor.delivered <= |s'.sensor.acked| && s.control.delivered <= |s'.control.acked|
    && (s'.phase.Head? && j == StepsToDrain(s) ==>
          s'.sensor.delivered == s.sensor.delivered && s'.control.delivered == s.control.delivered)
  }

  ghost predicate Draining(s: Sys, s': Sys, j: nat) {
    Inv(s') && if j < StepsToDrain(s) then Replaying(s, s', j) else Following(s, s', j)
  }

  // ---- Each step -------------------------------------------------------------------------------------

  lemma AppendDrains(s: Sys, s': Sys, j: nat, stream: Stream, e: Entry)
    requires Draining(s, s', j) && Enabled(s', Append(stream, e))
    ensures Draining(s, Next(s', Append(stream, e)), j)
  {
    hide Inv;
    hide Reach;
    hide AsItems;
    hide StepsToDrain;
    hide Acceptable;
    StepKeeps(s', Append(stream, e));
  }

  /** A read at the loop head delivers nothing while replaying, and acknowledges nothing. */
  lemma ReadDrains(s: Sys, s': Sys, j: nat)
    requires Draining(s, s', j) && s'.phase.Head? && Inv(s)
    ensures Draining(s, Next(s', Read(Success)), j)
  {
    hide Inv;
    hide TopicInv;
    hide Reach;
    hide StepsToDrain;
    hide Todo;
    StepKeeps(s', Read(Success));
    if j < StepsToDrain(s) {
      ReadsBatch(s, s', j);
    } else {
      AfterFollow(s'.sensor);
      AfterFollow(s'.control);
    }
    hide AfterRead;
    hide ReadIndices;
    hide AsItems;
  }

  lemma ReadsBatch(s: Sys, s': Sys, j: nat)
    requires Inv(s) && Inv(s') && Replaying(s, s', j) && s'.phase.Head?
    ensures var s2 := Next(s', Read(Success));
      && s2 == s'.(phase := s2.phase) && s2.phase.Inserting? && s2.phase.n == 0 && s2.phase.cursor == Replay
      && Todo(s2, s2.phase.todo, Reach(s.sensor, j + 1), Reach(s.control, j + 1))
  {
    hide TopicInv;
    InvTopics(s);
    InvTopics(s');
    AckedWithin(Sensor, s.sensor);
    AckedWithin(Control, s.control);
    ReachOn(s.sensor, j);
    ReachOn(s.control, j);
    ReadReplay(Sensor, s'.sensor);
    ReadReplay(Control, s'.control);
    AfterReplay(s');
    hide Inv;
    hide Reach;
    hide ReadIndices;
    hide AfterRead;
    hide AsItems;
    hide Upto;
    hide Batches;
  }

  lemma InvTopics(s: Sys)
    requires Inv(s)
    ensures TopicInv(Sensor, s.sensor) && TopicInv(Control, s.control)
  {
  }

  lemma InsertDrains(s: Sys, s': Sys, j: nat, now: int)
    requires Draining(s, s', j) && Enabled(s', Insert(now, Success))
    ensures Draining(s, Next(s', Insert(now, Success)), j)
  {
    hide Inv;
    hide Reach;
    hide AsItems;
    hide StepsToDrain;
    hide RowOf;
    hide InsertRow;
    StepKeeps(s', Insert(now, Success));
  }

  lemma AckDrains(s: Sys, s': Sys, j: nat)
    requires Draining(s, s', j) && Enabled(s', Ack(Success))
    ensures Draining(s, Next(s', Ack(Success)), j)
  {
    hide Inv;
    hide Reach;
    hide AsItems;
    hide StepsToDrain;
    hide Next;
    hide Upto;
    var todo, s2 := s'.phase.todo, Next(s', Ack(Success));
    StepKeeps(s', Ack(Success));
    AckCounts(s');
    if j < StepsToDrain(s) {
      TodoTail(s', todo, Reach(s.sensor, j + 1), Reach(s.control, j + 1), s2);
    }
  }

  /** An acknowledgement of the first message of the work list is a new one. */
  lemma AckCounts(s: Sys)
    requires Inv(s) && Enabled(s, Ack(Success))
    ensures var it, s' := s.phase.todo[0], Next(s, Ack(Success));
      && s' == s.With(it.stream, s'.At(it.stream)).(phase := s'.phase)
      && s'.phase == Inserting(s.phase.cursor, s.phase.todo[1..], s.phase.n + 1)
      && s'.At(it.stream).acked == s.At(it.stream).acked + [it.index]
      && s'.At(it.stream).delivered == s.At(it.stream).delivered
  {
    var eS, eC :| Todo(s, s.phase.todo, eS, eC);
    TodoHead(s, s.phase.todo, eS, eC);
    var it := s.phase.todo[0];
    AcknowledgeKeeps(it.stream, s.At(it.stream));
    hide TopicInv;
    hide Todo;
  }

  lemma FinishDrains(s: Sys, s': Sys, j: nat)
    requires Draining(s, s', j) && Enabled(s', Finish) && Inv(s)
    ensures Draining(s, Next(s', Finish), j + 1)
  {
    hide Inv;
    hide TopicInv;
    hide Reach;
    hide Batches;
    hide AsItems;
    hide Upto;
    StepKeeps(s', Finish);
    InvTopics(s);
    AckedWithin(Sensor, s.sensor);
    AckedWithin(Control, s.control);
    if j < StepsToDrain(s) {
      ReachOn(s.sensor, j);
      ReachOn(s.control, j);
      TodoDone(s', Reach(s.sensor, j + 1), Reach(s.control, j + 1));
    }
  }

  lemma TodoDone(s: Sys, eS: nat, eC: nat)
    requires Todo(s, [], eS, eC)
    ensures |s.sensor.acked| == eS && |s.control.acked| == eC
  {
    assert |AsItems(Sensor, Upto(|s.sensor.acked|, eS)) + AsItems(Control, Upto(|s.control.acked|, eC))| == 0;
  }

  lemma DrainStep(s: Sys, s': Sys, j: nat, a: Action)
    requires Inv(s) && Draining(s, s', j) && Enabled(s', a) && Succeeds(a)
    ensures Draining(s, Next(s', a), if a == Finish then j + 1 else j)
  {
    hide Draining;
    hide Inv;
    hide Next;
    match a
    case Append(stream, e) => AppendDrains(s, s', j, stream, e);
    case Read(_) => ReadDrains(s, s', j);
    case Insert(now, _) => InsertDrains(s, s', j, now);
    case Ack(_) => AckDrains(s, s', j);
    case Finish => FinishDrains(s, s', j);
  }

  lemma DrainStart(s: Sys)
    requires Inv(s) && s.phase == Head(Replay)
    ensures Draining(s, s, 0)
  {
    InvTopics(s);
    AckedWithin(Sensor, s.sensor);
    AckedWithin(Control, s.control);
    ReachOn(s.sensor, 0);
    ReachOn(s.control, 0);
    hide Inv;
    hide TopicInv;
  }

  lemma {:induction false} RunDrains(s: Sys, acts: seq<Action>)
    requires Inv(s) && s.phase == Head(Replay) && CanRun(s, acts) && Clean(acts)
    ensures Draining(s, Exec(s, acts), Finishes(acts))
  {
    hide Draining;
    hide Inv;
    hide Next;
    hide Enabled;
    hide Succeeds;
    if acts == [] {
      DrainStart(s);
    } else {
      var n := |acts| - 1;
      assert Clean(acts[..n]);
      RunDrains(s, acts[..n]);
      DrainStep(s, Exec(s, acts[..n]), Finishes(acts[..n]), acts[n]);
    }
  }

  // ---- What is promised --------------------------------------------------------------------------

  /** Everything that `t` had been delivered is acknowledged in `t'`, once and in order, and stored. */
  ghost predicate FullyArchived(stream: Stream, t: Topic, t': Topic) {
    && t.delivered <= |t'.acked| <= t'.stored <= |t'.entries|
    && t.acked <= t'.acked == Upto(0, |t'.acked|) && t.entries <= t'.entries
    && Archived(stream, t'.entries[..t'.stored], t'.table)
  }

  /** From the replay cursor, in every run without errors, with entries arriving and the clock running
      as they like: the loop follows new entries from the end of the step after the one step per full or
      partial batch of the longer backlog on, and not before. By then every entry that was pending has
      been acknowledged, once and in order, and stored. Until then each step takes a batch of each. */
  lemma DrainsExactly(s: Sys, acts: seq<Action>)
    requires Inv(s) && s.phase == Head(Replay) && CanRun(s, acts) && Clean(acts)
    ensures var s', j := Exec(s, acts), Finishes(acts);
      && (s'.phase.cursor == Follow <==> StepsToDrain(s) <= j)
      && (s'.phase == Head(Replay) ==>
            |s'.sensor.acked| == Reach(s.sensor, j) && |s'.control.acked| == Reach(s.control, j))
      && (StepsToDrain(s) <= j ==>
            FullyArchived(Sensor, s.sensor, s'.sensor) && FullyArchived(Control, s.control, s'.control))
  {
    RunDrains(s, acts);
    PrefixNeverShrinks(s, acts, Sensor);
    PrefixNeverShrinks(s, acts, Control);
    hide CanRun;
    hide Exec;
    hide Archived;
    hide Reach;
    hide StepsToDrain;
  }

  /** One replay step without errors takes up to 100 entries of each stream, and it ends the replay
      exactly if there was nothing to take. */
  lemma CleanReplay(s: Sys, acts: seq<Action>)
    requires Inv(s) && s.phase == Head(Replay) && CanRun(s, acts) && Clean(acts) && Finishes(acts) == 1
    requires Exec(s, acts).phase.Head?
    ensures var s' := Exec(s, acts);
      && |s'.sensor.acked| == |s.sensor.acked| + Smaller(100, Pending(s.sensor))
      && |s'.control.acked| == |s.control.acked| + Smaller(100, Pending(s.control))
      && (s'.phase.cursor == Follow <==> Pending(s.sensor) == 0 && Pending(s.control) == 0)
  {
    RunDrains(s, acts);
    var s' := Exec(s, acts);
    InvTopics(s');
    AckedWithin(Sensor, s'.sensor);
    AckedWithin(Control, s'.control);
    hide CanRun;
    hide Exec;
    hide Inv;
    hide TopicInv;
  }

  /** What one successful read hands over when the loop follows new entries: of each stream the next 100
      undelivered entries, or all of them if there are fewer. */
  function Following100(t: Topic): seq<nat> {
    if t.delivered < |t.entries| then Upto(t.delivered, Smaller(t.delivered + 100, |t.entries|)) else []
  }

  lemma FollowReads(acts: seq<Action>)
    requires CanRun(INITIAL, acts) && Exec(INITIAL, acts).phase == Head(Follow)
    ensures var s := Exec(INITIAL, acts);
      && Enabled(s, Read(Success))
      && var s' := Next(s, Read(Success));
      && s'.phase == Inserting(Follow, AsItems(Sensor, Following100(s.sensor))
                                       + AsItems(Control, Following100(s.control)), 0)
      && s'.sensor.delivered == s.sensor.delivered + |Following100(s.sensor)|
      && s'.control.delivered == s.control.delivered + |Following100(s.control)|
  {
    InitialInv();
    RunKeeps(INITIAL, acts);
    var s := Exec(INITIAL, acts);
    hide CanRun;
    hide Exec;
    InvTopics(s);
    FollowIndices(Sensor, s.sensor);
    FollowIndices(Control, s.control);
    hide Inv;
    hide TopicInv;
    hide ReadIndices;
    hide Following100;
  }

  lemma FollowIndices(stream: Stream, t: Topic)
    requires TopicInv(stream, t)
    ensures ReadIndices(t, Follow) == Following100(t)
  {
    hide Archived;
    hide GoodEntries;
    TakeUpto(t.delivered, |t.entries|, 100);
  }
}
