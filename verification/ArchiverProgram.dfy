/** The archiver program, proved to make the run that its environment determines. */
module ArchiverProgram {
  import opened Prelude
  import opened Numerals
  import opened Telemetry
  import opened Archiver
  import opened ArchiverSafety
  import opened ArchiverDrain

  /** What one loop iteration meets: the entries that producers add before its read, the outcomes of the
      read and of each message's insert and acknowledgement, and the clock at each insert. */
  datatype Env = Env(
    arrivals: seq<(Stream, Entry)>,
    read: Outcome,
    insert: Item -> Outcome,
    ack: Item -> Outcome,
    clock: Item -> int)

  // ---- The run that an environment determines ---------------------------------------------------------

  /** Producers add entries; the server refuses one whose ID is not larger than the last. */
  ghost function Arrive(s: Sys, es: seq<(Stream, Entry)>): seq<Action>
    decreases |es|
  {
    if es == [] then []
    else
      var a := Append(es[0].0, es[0].1);
      if Enabled(s, a) then [a] + Arrive(Next(s, a), es[1..]) else Arrive(s, es[1..])
  }

  /** The next operation on a batch. A malformed message never reaches the database. */
  function Choice(s: Sys, env: Env): Action
    requires !s.phase.Head? && s.phase.todo != []
    requires s.phase.todo[0].index < |s.At(s.phase.todo[0].stream).entries|
  {
    var it := s.phase.todo[0];
    if s.phase.Acking? then Ack(env.ack(it))
    else
      Insert(env.clock(it),
             if WellFormed(it.stream, s.At(it.stream).entries[it.index]) then env.insert(it) else Success)
  }

  function Left(p: Phase): nat {
    match p
    case Head(_) => 0
    case Inserting(_, todo, _) => 2 * |todo| + 1
    case Acking(_, todo, _) => 2 * |todo|
  }

  /** The rest of a batch: every message inserted and acknowledged, up to the first failure. */
  ghost function Batch(s: Sys, env: Env): seq<Action>
    requires Inv(s)
    decreases Left(s.phase)
  {
    if s.phase.Head? || s.phase.todo == [] then []
    else
      InRange(s);
      var a := Choice(s, env);
      StepKeeps(s, a);
      [a] + Batch(Next(s, a), env)
  }

  ghost function StepActs(s: Sys, env: Env): seq<Action>
    requires Inv(s) && s.phase.Head?
  {
    StepKeeps(s, Read(env.read));
    [Read(env.read)] + Batch(Next(s, Read(env.read)), env)
  }

  /** One iteration of the main loop; the end of a batch without failure moves the cursor. */
  ghost function Iteration(s: Sys, env: Env): seq<Action>
    requires Inv(s) && s.phase.Head?
  {
    ArriveRuns(s, env.arrivals);
    var s1 := Exec(s, Arrive(s, env.arrivals));
    StepRuns(s1, env);
    var s2 := Exec(s1, StepActs(s1, env));
    var acts := Arrive(s, env.arrivals) + StepActs(s1, env);
    if s2.phase.Head? then acts else acts + [Finish]
  }

  ghost function LoopActs(s: Sys, envs: seq<Env>): seq<Action>
    requires Inv(s) && s.phase.Head?
    decreases |envs|
  {
    if envs == [] then []
    else
      IterationRuns(s, envs[0]);
      Iteration(s, envs[0]) + LoopActs(Exec(s, Iteration(s, envs[0])), envs[1..])
  }

  /** A run from `s0` that ends in `s`. */
  ghost predicate Reached(s0: Sys, acts: seq<Action>, s: Sys) {
    CanRun(s0, acts) && Exec(s0, acts) == s && Inv(s)
  }

  lemma Starts(s0: Sys)
    requires Inv(s0)
    ensures Reached(s0, [], s0)
  {
  }

  lemma ReachedOne(s: Sys, a: Action)
    requires Inv(s) && Enabled(s, a)
    ensures Reached(s, [a], Next(s, a))
  {
    hide Inv;
    hide Next;
    hide Enabled;
    StepKeeps(s, a);
    var acts := [a];
    assert acts[..|acts|-1] == [];
    assert Exec(s, acts) == Next(Exec(s, acts[..|acts|-1]), a);
  }

  lemma Join(s0: Sys, acts: seq<Action>, s: Sys, more: seq<Action>, s': Sys)
    requires Reached(s0, acts, s) && Reached(s, more, s')
    ensures Reached(s0, acts + more, s')
  {
    hide Next;
    hide Enabled;
    hide Inv;
    ExecAppend(s0, acts, more);
  }

  /** The next message of a batch is an entry of its stream. */
  lemma InRange(s: Sys)
    requires Inv(s) && !s.phase.Head? && s.phase.todo != []
    ensures s.phase.todo[0].index < |s.At(s.phase.todo[0].stream).entries|
    ensures forall now, outcome :: s.phase.Inserting? ==> Enabled(s, Insert(now, outcome))
  {
    hide TopicInv;
    var todo := s.phase.todo;
    var eS, eC :| Todo(s, todo, eS, eC);
    TodoHead(s, todo, eS, eC);
    AckedWithin(todo[0].stream, s.At(todo[0].stream));
  }

  lemma {:induction false} ArriveRuns(s: Sys, es: seq<(Stream, Entry)>)
    requires Inv(s)
    ensures CanRun(s, Arrive(s, es)) && Reached(s, Arrive(s, es), Exec(s, Arrive(s, es)))
    ensures Exec(s, Arrive(s, es)).phase == s.phase
    decreases |es|
  {
    hide Inv;
    if es == [] {
      Starts(s);
    } else {
      var a := Append(es[0].0, es[0].1);
      if Enabled(s, a) {
        ReachedOne(s, a);
        var s1 := Next(s, a);
        assert s1.phase == s.phase;
        ArriveRuns(s1, es[1..]);
        hide Next;
        hide Enabled;
        hide CanRun;
        hide Exec;
        Join(s, [a], s1, Arrive(s1, es[1..]), Exec(s1, Arrive(s1, es[1..])));
      } else {
        ArriveRuns(s, es[1..]);
      }
    }
  }

  lemma {:induction false} BatchRuns(s: Sys, env: Env)
    requires Inv(s)
    ensures CanRun(s, Batch(s, env)) && Reached(s, Batch(s, env), Exec(s, Batch(s, env)))
    ensures var s' := Exec(s, Batch(s, env)); s'.phase.Head? || (s'.phase.Inserting? && s'.phase.todo == [])
    decreases Left(s.phase)
  {
    if s.phase.Head? || s.phase.todo == [] {
      Starts(s);
    } else {
      InRange(s);
      var a := Choice(s, env);
      ReachedOne(s, a);
      BatchRuns(Next(s, a), env);
      hide Inv;
      hide Next;
      hide Enabled;
      hide CanRun;
      hide Exec;
      Join(s, [a], Next(s, a), Batch(Next(s, a), env), Exec(Next(s, a), Batch(Next(s, a), env)));
    }
  }

  lemma StepRuns(s: Sys, env: Env)
    requires Inv(s) && s.phase.Head?
    ensures CanRun(s, StepActs(s, env)) && Reached(s, StepActs(s, env), Exec(s, StepActs(s, env)))
    ensures var s' := Exec(s, StepActs(s, env)); s'.phase.Head? || (s'.phase.Inserting? && s'.phase.todo == [])
  {
    hide Inv;
    hide CanRun;
    hide Exec;
    var a := Read(env.read);
    ReachedOne(s, a);
    hide Next;
    BatchRuns(Next(s, a), env);
    Join(s, [a], Next(s, a), Batch(Next(s, a), env), Exec(Next(s, a), Batch(Next(s, a), env)));
  }

  lemma IterationRuns(s: Sys, env: Env)
    requires Inv(s) && s.phase.Head?
    ensures CanRun(s, Iteration(s, env)) && Reached(s, Iteration(s, env), Exec(s, Iteration(s, env)))
    ensures Exec(s, Iteration(s, env)).phase.Head?
  {
    hide Inv;
    hide CanRun;
    hide Exec;
    hide Arrive;
    hide StepActs;
    ArriveRuns(s, env.arrivals);
    var s1 := Exec(s, Arrive(s, env.arrivals));
    StepRuns(s1, env);
    var acts, s2 := StepActs(s1, env), Exec(s1, StepActs(s1, env));
    Join(s, Arrive(s, env.arrivals), s1, acts, s2);
    if !s2.phase.Head? {
      ReachedOne(s2, Finish);
      Join(s, Arrive(s, env.arrivals) + acts, s2, [Finish], Next(s2, Finish));
    }
  }

  lemma {:induction false} LoopRuns(s: Sys, envs: seq<Env>)
    requires Inv(s) && s.phase.Head?
    ensures CanRun(s, LoopActs(s, envs)) && Reached(s, LoopActs(s, envs), Exec(s, LoopActs(s, envs)))
    ensures Exec(s, LoopActs(s, envs)).phase.Head?
    decreases |envs|
  {
    hide Inv;
    if envs == [] {
      Starts(s);
    } else {
      IterationRuns(s, envs[0]);
      var s1 := Exec(s, Iteration(s, envs[0]));
      LoopRuns(s1, envs[1..]);
      hide Iteration;
      hide CanRun;
      hide Exec;
      Join(s, Iteration(s, envs[0]), s1, LoopActs(s1, envs[1..]), Exec(s1, LoopActs(s1, envs[1..])));
    }
  }

  // ---- The two servers -----------------------------------------------------------------------------

  /** One stream's part of a read reply: the messages, by their position in the stream. */
  datatype Reply = Reply(stream: Stream, messages: seq<nat>)

  function ItemsOf(res: seq<Reply>): seq<Item> {
    if res == [] then [] else AsItems(res[0].stream, res[0].messages) + ItemsOf(res[1..])
  }

  lemma ReplyItems(a: Reply, b: Reply)
    ensures ItemsOf([a, b]) == AsItems(a.stream, a.messages) + AsItems(b.stream, b.messages)
  {
    hide AsItems;
    assert [a, b][1..] == [b] && [b][1..] == [];
    assert ItemsOf([]) == [];
    assert ItemsOf([b]) == AsItems(b.stream, b.messages) + [];
    assert ItemsOf([a, b]) == AsItems(a.stream, a.messages) + ItemsOf([b]);
  }

  /** The stream server and the database, as the environment. */
  class Servers {
    var sensor: Topic
    var control: Topic

    ghost function State(phase: Phase): Sys
      reads this
    {
      Sys(sensor, control, phase)
    }

    function Of(stream: Stream): Topic
      reads this
    {
      if stream == Sensor then sensor else control
    }

    method Put(stream: Stream, t: Topic)
      modifies this
      ensures forall phase :: State(phase) == old(State(phase)).With(stream, t)
    {
      if stream == Sensor { sensor := t; } else { control := t; }
    }

    /** A group read on both streams with the same cursor. */
    method ReadGroup(cursor: Cursor, outcome: Outcome) returns (err: bool, res: seq<Reply>)
      modifies this
      ensures err == (outcome != Success)
      ensures State(if err then Head(Replay) else Inserting(cursor, ItemsOf(res), 0))
              == Next(old(State(Head(cursor))), Read(outcome))
    {
      hide ReadIndices;
      hide AfterRead;
      err := outcome != Success;
      res := [Reply(Sensor, ReadIndices(sensor, cursor)), Reply(Control, ReadIndices(control, cursor))];
      ReplyItems(res[0], res[1]);
      if outcome.HasEffect() {
        sensor, control := AfterRead(sensor, cursor), AfterRead(control, cursor);
      }
    }

    /** Insert the row made from entry `i`, unless its key is taken. */
    method InsertOnConflictDoNothing(stream: Stream, i: nat, row: Row, outcome: Outcome) returns (err: bool)
      modifies this
      ensures err == (outcome != Success)
      ensures var t := old(Of(stream));
        var t' := t.(table := InsertRow(t.table, row), stored := if i == t.stored then t.stored + 1 else t.stored);
        forall phase ::
          State(phase) == if outcome.HasEffect() then old(State(phase)).With(stream, t') else old(State(phase))
    {
      err := outcome != Success;
      if outcome.HasEffect() {
        var t := Of(stream);
        Put(stream, t.(table := InsertRow(t.table, row), stored := if i == t.stored then t.stored + 1 else t.stored));
      }
    }

    /** Producers add entries, each if its ID is larger than the last. */
    method Arrivals(es: seq<(Stream, Entry)>, ghost phase: Phase)
      requires Inv(State(phase))
      modifies this
      ensures Reached(old(State(phase)), Arrive(old(State(phase)), es), State(phase))
    {
      hide Inv;
      hide Reached;
      hide Acceptable;
      ghost var s0 := State(phase);
      ghost var acts: seq<Action> := [];
      Starts(s0);
      assert es[0..] == es;
      for k := 0 to |es|
        invariant Reached(s0, acts, State(phase))
        invariant Arrive(s0, es) == acts + Arrive(State(phase), es[k..])
      {
        var (stream, e) := es[k];
        assert es[k..][0] == es[k] && es[k..][1..] == es[k+1..];
        if Acceptable(Of(stream), e) {
          ghost var s, a := State(phase), Append(stream, e);
          EndInv(s0, acts, s);
          ReachedOne(s, a);
          Join(s0, acts, s, [a], Next(s, a));
          Put(stream, Of(stream).(entries := Of(stream).entries + [e]));
          acts := acts + [a];
        }
      }
      assert es[|es|..] == [] && Arrive(State(phase), []) == [];
      assert Arrive(s0, es) == acts;
    }

    /** The run's history of archived entries counts a dropped one as well; the program does not see it. */
    method NoteDropped(stream: Stream, i: nat)
      modifies this
      ensures var t := old(Of(stream));
        forall phase :: State(phase) ==
          old(State(phase)).With(stream, t.(stored := if i == t.stored then t.stored + 1 else t.stored))
    {
      var t := Of(stream);
      Put(stream, t.(stored := if i == t.stored then t.stored + 1 else t.stored));
    }

    method AckMessage(stream: Stream, i: nat, outcome: Outcome) returns (err: bool)
      modifies this
      ensures err == (outcome != Success)
      ensures var t := old(Of(stream));
        forall phase :: State(phase) ==
          if outcome.HasEffect() then old(State(phase)).With(stream, Acknowledge(t, i)) else old(State(phase))
    {
      err := outcome != Success;
      if outcome.HasEffect() {
        Put(stream, Acknowledge(Of(stream), i));
      }
    }
  }

  class Archive {
    const servers: Servers

    constructor (servers: Servers)
      ensures this.servers == servers
    {
      this.servers := servers;
    }

    /** Write one entry to the right table; a malformed entry is dropped without an error. */
    method InsertEntry(stream: Stream, i: nat, now: int, outcome: Outcome, ghost phase: Phase) returns (err: bool)
      requires phase.Inserting? && phase.todo != [] && phase.todo[0] == Item(stream, i)
      requires i < |servers.Of(stream).entries|
      modifies servers
      ensures err == (outcome != Success && WellFormed(stream, old(servers.Of(stream)).entries[i]))
      ensures servers.State(if err then Head(Replay) else Acking(phase.cursor, phase.todo, phase.n))
              == Next(old(servers.State(phase)), Insert(now, if err then outcome else Success))
    {
      var e := servers.Of(stream).entries[i];
      var v := e.fields;
      var id := Render(e.id);
      hide ParseInt;
      hide Timestamp;
      hide Render;
      match stream
      case Sensor =>
        if e.value.None? {
          servers.NoteDropped(stream, i);
          return false;
        }
        var node := ParseInt(Field(v, "node")).ValueOrZero();
        var row := SensorRow(Timestamp(id, v, now), node, Field(v, "metric"), e.value.value, id);
        err := servers.InsertOnConflictDoNothing(stream, i, row, outcome);
      case Control =>
        if Field(v, "action") == "" {
          servers.NoteDropped(stream, i);
          return false;
        }
        var diff: Option<int> := None;
        if ParseInt(Field(v, "diff_centi")).Good? {
          diff := Some(ParseInt(Field(v, "diff_centi")).value);
        }
        var row := ControlRow(Timestamp(id, v, now), Field(v, "action"), diff, v, id);
        err := servers.InsertOnConflictDoNothing(stream, i, row, outcome);
    }

    /** One message: insert, then acknowledge. */
    method Handle(stream: Stream, i: nat, env: Env, ghost phase: Phase) returns (err: bool, ghost acts: seq<Action>)
      requires phase.Inserting? && phase.todo != [] && phase.todo[0] == Item(stream, i)
      requires Inv(servers.State(phase))
      modifies servers
      ensures Does(old(servers.State(phase)), env, acts,
                   servers.State(if err then Head(Replay) else Inserting(phase.cursor, phase.todo[1..], phase.n + 1)))
      ensures err <==> !Clean(acts)
      ensures Acks(acts) == if err then 0 else 1
    {
      hide Inv;
      hide Next;
      hide Does;
      hide Acknowledge;
      hide WellFormed;
      ghost var s0 := servers.State(phase);
      var it := Item(stream, i);
      InRange(s0);
      acts := [Choice(s0, env)];
      DoesOne(s0, env);
      err := InsertEntry(stream, i, env.clock(it), env.insert(it), phase);
      if err {
        assert !Succeeds(acts[0]);
        return;
      }
      ghost var s1 := servers.State(Acking(phase.cursor, phase.todo, phase.n));
      assert s1 == Next(s0, Choice(s0, env));
      DoesInv(s0, env, acts, s1);
      InRange(s1);
      AckNext(s1, env.ack(it));
      DoesOne(s1, env);
      JoinDoes(s0, env, acts, s1, [Ack(env.ack(it))], Next(s1, Ack(env.ack(it))));
      acts := acts + [Ack(env.ack(it))];
      err := servers.AckMessage(stream, i, env.ack(it));
      assert acts[..1] == [acts[0]] && acts[1] == Ack(env.ack(it));
    }

    /** The messages of one stream, up to the first error; `later` is what other streams still hold. */
    method Messages(cursor: Cursor, reply: Reply, env: Env, n0: nat, ghost later: seq<Item>)
      returns (n: nat, err: bool, ghost acts: seq<Action>)
      requires Inv(servers.State(Inserting(cursor, AsItems(reply.stream, reply.messages) + later, n0)))
      modifies servers
      ensures Does(old(servers.State(Inserting(cursor, AsItems(reply.stream, reply.messages) + later, n0))), env, acts,
                   servers.State(if err then Head(Replay) else Inserting(cursor, later, n)))
      ensures err <==> !Clean(acts)
      ensures n == n0 + Acks(acts)
    {
      hide Inv;
      hide Next;
      hide Does;
      hide AsItems;
      hide Clean;
      hide Acks;
      var messages := reply.messages;
      ghost var s0 := servers.State(Inserting(cursor, AsItems(reply.stream, messages) + later, n0));
      n, err, acts := n0, false, [];
      DoesNothing(s0, env);
      assert messages[0..] == messages;
      for m := 0 to |messages|
        invariant Does(s0, env, acts, servers.State(Inserting(cursor, AsItems(reply.stream, messages[m..]) + later, n)))
        invariant !err && Clean(acts) && n == n0 + Acks(acts)
      {
        ghost var phase := Inserting(cursor, AsItems(reply.stream, messages[m..]) + later, n);
        ghost var s := servers.State(phase);
        ghost var more: seq<Action>;
        FirstItem(reply.stream, messages[m..], later);
        assert messages[m..][1..] == messages[m+1..];
        DoesInv(s0, env, acts, s);
        err, more := Handle(reply.stream, messages[m], env, phase);
        JoinDoes(s0, env, acts, s, more,
                 servers.State(if err then Head(Replay) else Inserting(cursor, phase.todo[1..], n + 1)));
        acts := acts + more;
        if err {
          return;
        }
        n := n + 1;
      }
      assert messages[|messages|..] == [];
      NoItems(reply.stream, later);
    }

    /** One read batch: `n` messages archived and acknowledged, until the first error. */
    method Step(cursor: Cursor, env: Env) returns (n: nat, err: bool, ghost acts: seq<Action>)
      requires Inv(servers.State(Head(cursor)))
      modifies servers
      ensures acts == StepActs(old(servers.State(Head(cursor))), env)
      ensures Reached(old(servers.State(Head(cursor))), acts,
                      servers.State(if err then Head(Replay) else Inserting(cursor, [], n)))
      ensures err <==> !Clean(acts)
      ensures n == Acks(acts)
    {
      hide Inv;
      hide Next;
      hide Does;
      hide Reached;
      hide AsItems;
      hide ItemsOf;
      hide Clean;
      hide Acks;
      ghost var s0 := servers.State(Head(cursor));
      ReachedOne(s0, Read(env.read));
      ghost var read := [Read(env.read)];
      OneRead(env.read);
      acts, n := [], 0;
      var res: seq<Reply>;
      err, res := servers.ReadGroup(cursor, env.read);
      ghost var s1 := Next(s0, Read(env.read));
      EndInv(s0, read, s1);
      DoesNothing(s1, env);
      if err {
        BatchDone(s1, env);
        acts := read;
        return;
      }
      assert res[0..] == res;
      for r := 0 to |res|
        invariant Does(s1, env, acts, servers.State(Inserting(cursor, ItemsOf(res[r..]), n)))
        invariant !err && Clean(acts) && n == Acks(acts)
      {
        ghost var later := ItemsOf(res[r+1..]);
        ghost var s := servers.State(Inserting(cursor, ItemsOf(res[r..]), n));
        ghost var more: seq<Action>;
        assert res[r..][1..] == res[r+1..];
        FirstReply(res[r..], later);
        DoesInv(s1, env, acts, s);
        n, err, more := Messages(cursor, res[r], env, n, later);
        ghost var s2 := servers.State(if err then Head(Replay) else Inserting(cursor, later, n));
        JoinDoes(s1, env, acts, s, more, s2);
        acts := acts + more;
        if err {
          StepDone(s0, env, acts, s2);
          acts := read + acts;
          return;
        }
      }
      assert res[|res|..] == [];
      NoItems(Sensor, []);
      StepDone(s0, env, acts, servers.State(Inserting(cursor, [], n)));
      acts := read + acts;
    }

    /** The main loop, for a finite number of iterations from some cursor. */
    method Loop(start: Cursor, envs: seq<Env>) returns (cursor: Cursor, ghost acts: seq<Action>)
      requires Inv(servers.State(Head(start)))
      modifies servers
      ensures acts == LoopActs(old(servers.State(Head(start))), envs)
      ensures Reached(old(servers.State(Head(start))), acts, servers.State(Head(cursor)))
    {
      hide Next;
      hide Inv;
      hide Reached;
      hide Arrive;
      hide StepActs;
      hide Iteration;
      hide LoopActs;
      hide Clean;
      hide Acks;
      ghost var s0 := servers.State(Head(start));
      cursor, acts := start, [];
      Starts(s0);
      assert envs[0..] == envs;
      for k := 0 to |envs|
        invariant Reached(s0, acts, servers.State(Head(cursor)))
        invariant Inv(servers.State(Head(cursor)))
        invariant LoopActs(s0, envs) == acts + LoopActs(servers.State(Head(cursor)), envs[k..])
      {
        ghost var s := servers.State(Head(cursor));
        assert envs[k..][0] == envs[k] && envs[k..][1..] == envs[k+1..];
        servers.Arrivals(envs[k].arrivals, Head(cursor));
        ghost var s1 := servers.State(Head(cursor));
        EndInv(s, Arrive(s, envs[k].arrivals), s1);
        var n: nat, err: bool;
        ghost var more: seq<Action>;
        n, err, more := Step(cursor, envs[k]);
        ghost var s2 := servers.State(if err then Head(Replay) else Inserting(cursor, [], n));
        if err {
          cursor := Replay;
        } else if n == 0 && cursor == Replay {
          cursor := Follow;
        }
        ghost var s3 := servers.State(Head(cursor));
        IterationDone(s, envs[k], s1, s2, s3);
        LoopOn(s, envs[k..], s3);
        Join(s0, acts, s, Iteration(s, envs[k]), s3);
        EndInv(s, Iteration(s, envs[k]), s3);
        acts := acts + Iteration(s, envs[k]);
      }
      assert envs[|envs|..] == [];
      LoopOff(servers.State(Head(cursor)));
    }
  }

  lemma EndInv(s0: Sys, acts: seq<Action>, s: Sys)
    requires Reached(s0, acts, s)
    ensures Inv(s)
  {
  }

  // ---- Parts of a batch --------------------------------------------------------------------------

  /** These operations are the beginning of the rest of the batch at `s0`, and lead to `s`. */
  ghost predicate Does(s0: Sys, env: Env, acts: seq<Action>, s: Sys) {
    Inv(s0) && Reached(s0, acts, s) && Batch(s0, env) == acts + Batch(s, env)
  }

  /** Messages inserted and acknowledged. */
  function Acks(acts: seq<Action>): nat {
    if acts == [] then 0 else Acks(acts[..|acts|-1]) + if acts[|acts|-1] == Ack(Success) then 1 else 0
  }

  lemma DoesInv(s0: Sys, env: Env, acts: seq<Action>, s: Sys)
    requires Does(s0, env, acts, s)
    ensures Inv(s)
  {
  }

  lemma DoesNothing(s: Sys, env: Env)
    requires Inv(s)
    ensures Does(s, env, [], s) && Clean([]) && Acks([]) == 0
  {
    Starts(s);
    hide Inv;
  }

  lemma DoesOne(s: Sys, env: Env)
    requires Inv(s) && !s.phase.Head? && s.phase.todo != []
    requires s.phase.todo[0].index < |s.At(s.phase.todo[0].stream).entries|
    ensures Enabled(s, Choice(s, env)) && Does(s, env, [Choice(s, env)], Next(s, Choice(s, env)))
  {
    hide Inv;
    InRange(s);
    ReachedOne(s, Choice(s, env));
    StepKeeps(s, Choice(s, env));
    hide Next;
    hide Reached;
    assert Batch(s, env) == [Choice(s, env)] + Batch(Next(s, Choice(s, env)), env);
  }

  lemma {:induction false} AcksAppend(acts: seq<Action>, more: seq<Action>)
    ensures Acks(acts + more) == Acks(acts) + Acks(more)
  {
    if more == [] {
      assert acts + more == acts;
    } else {
      AcksAppend(acts, more[..|more|-1]);
      assert (acts + more)[..|acts + more|-1] == acts + more[..|more|-1];
    }
  }

  lemma CleanAppend(acts: seq<Action>, more: seq<Action>)
    ensures Clean(acts + more) <==> Clean(acts) && Clean(more)
  {
    hide Succeeds;
    if Clean(acts + more) {
      assert forall i :: 0 <= i < |acts| ==> acts[i] == (acts + more)[i];
      assert forall i :: 0 <= i < |more| ==> more[i] == (acts + more)[|acts| + i];
    }
  }

  lemma JoinDoes(s0: Sys, env: Env, acts: seq<Action>, s: Sys, more: seq<Action>, s': Sys)
    requires Does(s0, env, acts, s) && Does(s, env, more, s')
    ensures Does(s0, env, acts + more, s')
    ensures Clean(acts + more) <==> Clean(acts) && Clean(more)
    ensures Acks(acts + more) == Acks(acts) + Acks(more)
  {
    hide Inv;
    hide Reached;
    hide Batch;
    Join(s0, acts, s, more, s');
    CleanAppend(acts, more);
    AcksAppend(acts, more);
  }

  lemma OneRead(outcome: Outcome)
    ensures Clean([Read(outcome)]) <==> outcome == Success
    ensures Acks([Read(outcome)]) == 0
  {
    assert [Read(outcome)][0] == Read(outcome);
  }

  lemma BatchDone(s: Sys, env: Env)
    requires Inv(s) && (s.phase.Head? || s.phase.todo == [])
    ensures Batch(s, env) == []
  {
  }

  /** The read and a whole batch. */
  lemma StepDone(s0: Sys, env: Env, acts: seq<Action>, s: Sys)
    requires Inv(s0) && s0.phase.Head? && (s.phase.Head? || s.phase.todo == [])
    requires Does(Next(s0, Read(env.read)), env, acts, s)
    ensures StepActs(s0, env) == [Read(env.read)] + acts && Reached(s0, [Read(env.read)] + acts, s)
    ensures Clean([Read(env.read)] + acts) <==> env.read == Success && Clean(acts)
    ensures Acks([Read(env.read)] + acts) == Acks(acts)
  {
    hide Inv;
    hide Next;
    var s1 := Next(s0, Read(env.read));
    ReachedOne(s0, Read(env.read));
    hide Reached;
    Join(s0, [Read(env.read)], s1, acts, s);
    BatchDone(s, env);
    OneRead(env.read);
    CleanAppend([Read(env.read)], acts);
    AcksAppend([Read(env.read)], acts);
    hide Batch;
  }

  /** Arrivals, a step, and the move of the cursor. */
  lemma IterationDone(s: Sys, env: Env, s1: Sys, s2: Sys, s3: Sys)
    requires Inv(s) && s.phase.Head? && Reached(s, Arrive(s, env.arrivals), s1)
    requires Inv(s1) && s1.phase.Head? && Reached(s1, StepActs(s1, env), s2)
    requires s2.phase.Head? || (s2.phase.Inserting? && s2.phase.todo == [])
    requires s3 == if s2.phase.Head? then s2
                   else s2.(phase := Head(if s2.phase.n == 0 && s2.phase.cursor == Replay then Follow
                                          else s2.phase.cursor))
    ensures Reached(s, Iteration(s, env), s3)
  {
    hide Inv;
    hide Arrive;
    hide StepActs;
    var acts := Arrive(s, env.arrivals) + StepActs(s1, env);
    Join(s, Arrive(s, env.arrivals), s1, StepActs(s1, env), s2);
    if !s2.phase.Head? {
      ReachedOne(s2, Finish);
      FinishPhase(s2);
      Join(s, acts, s2, [Finish], s3);
    }
    assert Exec(s, Arrive(s, env.arrivals)) == s1 && Exec(s1, StepActs(s1, env)) == s2;
    hide Next;
    hide Enabled;
  }

  lemma LoopOn(s: Sys, envs: seq<Env>, s': Sys)
    requires Inv(s) && s.phase.Head? && envs != [] && Reached(s, Iteration(s, envs[0]), s')
    ensures Inv(s') && s'.phase.Head?
    ensures LoopActs(s, envs) == Iteration(s, envs[0]) + LoopActs(s', envs[1..])
  {
    hide Iteration;
    IterationRuns(s, envs[0]);
    hide Inv;
  }

  lemma LoopOff(s: Sys)
    requires Inv(s) && s.phase.Head?
    ensures LoopActs(s, []) == []
  {
  }

  lemma AckNext(s: Sys, outcome: Outcome)
    requires Enabled(s, Ack(outcome))
    ensures var it := s.phase.todo[0];
      Next(s, Ack(outcome)) ==
        (if outcome.HasEffect() then s.With(it.stream, Acknowledge(s.At(it.stream), it.index)) else s).(
          phase := if outcome == Success then Inserting(s.phase.cursor, s.phase.todo[1..], s.phase.n + 1)
                   else Head(Replay))
  {
  }

  lemma NoItems(stream: Stream, later: seq<Item>)
    ensures AsItems(stream, []) + later == later && ItemsOf([]) == []
  {
  }

  lemma FinishPhase(s: Sys)
    requires Enabled(s, Finish)
    ensures Next(s, Finish) ==
            s.(phase := Head(if s.phase.n == 0 && s.phase.cursor == Replay then Follow else s.phase.cursor))
  {
  }

  lemma FirstReply(res: seq<Reply>, later: seq<Item>)
    requires res != [] && later == ItemsOf(res[1..])
    ensures ItemsOf(res) == AsItems(res[0].stream, res[0].messages) + later
  {
  }

  lemma FirstItem(stream: Stream, messages: seq<nat>, later: seq<Item>)
    requires messages != []
    ensures AsItems(stream, messages) + later != []
    ensures (AsItems(stream, messages) + later)[0] == Item(stream, messages[0])
    ensures (AsItems(stream, messages) + later)[1..] == AsItems(stream, messages[1..]) + later
  {
  }

  // ---- What is promised of the program ------------------------------------------------------------

  /** Nothing fails for this message. */
  predicate Succeeding(s: Sys, env: Env, it: Item) {
    && it.index < |s.At(it.stream).entries|
    && (WellFormed(it.stream, s.At(it.stream).entries[it.index]) ==> env.insert(it) == Success)
    && env.ack(it) == Success
  }

  ghost predicate AllSucceed(s: Sys, env: Env, todo: seq<Item>) {
    forall i :: 0 <= i < |todo| ==> Succeeding(s, env, todo[i])
  }

  /** A batch fails exactly if the insert of one of its well-formed messages fails or one of its
      acknowledgements does. */
  lemma {:induction false} BatchFailsIff(s: Sys, env: Env)
    requires Inv(s) && s.phase.Inserting?
    ensures Clean(Batch(s, env)) <==> AllSucceed(s, env, s.phase.todo)
    decreases |s.phase.todo|
  {
    hide Inv;
    hide Clean;
    hide WellFormed;
    hide Batch;
    if s.phase.todo == [] {
      BatchDone(s, env);
      DoesNothing(s, env);
    } else {
      var todo := s.phase.todo;
      var acts, s2 := MessageActs(s, env);
      CleanAppend(acts, Batch(s2, env));
      assert todo == [todo[0]] + todo[1..];
      if s2.phase.Inserting? {
        BatchFailsIff(s2, env);
        assert forall it :: Succeeding(s2, env, it) <==> Succeeding(s, env, it);
      }
    }
  }

  /** Every insert of a batch is made at the clock of one of its messages. */
  ghost predicate Clocked(acts: seq<Action>, env: Env) {
    forall k :: 0 <= k < |acts| && acts[k].Insert? ==> exists it :: acts[k].now == env.clock(it)
  }

  lemma {:induction false} BatchClocked(s: Sys, env: Env)
    requires Inv(s)
    ensures Clocked(Batch(s, env), env)
    decreases Left(s.phase)
  {
    hide Inv;
    hide WellFormed;
    if !s.phase.Head? && s.phase.todo != [] {
      InRange(s);
      var a := Choice(s, env);
      StepKeeps(s, a);
      BatchClocked(Next(s, a), env);
      hide Next;
      assert a.Insert? ==> a.now == env.clock(s.phase.todo[0]);
    }
  }

  /** What the next message adds to a batch, and where it leads. */
  lemma MessageActs(s: Sys, env: Env) returns (acts: seq<Action>, s2: Sys)
    requires Inv(s) && s.phase.Inserting? && s.phase.todo != []
    ensures var it := s.phase.todo[0];
      && Inv(s2) && Batch(s, env) == acts + Batch(s2, env)
      && acts != [] && acts[0].Insert? && acts[0].now == env.clock(it)
      && (Clean(acts) <==> Succeeding(s, env, it))
      && (if Clean(acts) then s2.phase.Inserting? && s2.phase.todo == s.phase.todo[1..] else s2.phase.Head?)
      && s2.sensor.entries == s.sensor.entries && s2.control.entries == s.control.entries
  {
    hide Inv;
    hide WellFormed;
    InRange(s);
    var a := Choice(s, env);
    StepKeeps(s, a);
    InsertLeads(s, a);
    var s1 := Next(s, a);
    hide Next;
    acts, s2 := [a], s1;
    if s1.phase.Acking? {
      InRange(s1);
      var b := Choice(s1, env);
      StepKeeps(s1, b);
      AckLeads(s1, b);
      acts, s2 := [a] + [b], Next(s1, b);
      assert [a] + ([b] + Batch(s2, env)) == acts + Batch(s2, env);
      assert acts[1] == b;
    }
    assert acts[0] == a;
  }

  lemma InsertLeads(s: Sys, a: Action)
    requires Enabled(s, a) && a.Insert?
    requires var it := s.phase.todo[0];
      !WellFormed(it.stream, s.At(it.stream).entries[it.index]) ==> a.outcome == Success
    ensures var s' := Next(s, a);
      && s'.phase == (if a.outcome == Success then Acking(s.phase.cursor, s.phase.todo, s.phase.n) else Head(Replay))
      && s'.sensor.entries == s.sensor.entries && s'.control.entries == s.control.entries
  {
    var it := s.phase.todo[0];
    WellFormedAnytime(it.stream, s.At(it.stream).entries[it.index], a.now);
    hide RowOf;
    hide InsertRow;
  }

  lemma AckLeads(s: Sys, a: Action)
    requires Enabled(s, a) && a.Ack?
    ensures var s' := Next(s, a);
      && s'.phase == (if a.outcome == Success then Inserting(s.phase.cursor, s.phase.todo[1..], s.phase.n + 1)
                      else Head(Replay))
      && s'.sensor.entries == s.sensor.entries && s'.control.entries == s.control.entries
  {
  }

  /** Nothing fails in this iteration. */
  ghost predicate NoFailures(env: Env) {
    env.read == Success && forall it :: env.insert(it) == Success && env.ack(it) == Success
  }

  lemma {:induction false} ArriveClean(s: Sys, es: seq<(Stream, Entry)>)
    ensures Clean(Arrive(s, es)) && Finishes(Arrive(s, es)) == 0
    decreases |es|
  {
    if es != [] {
      var a := Append(es[0].0, es[0].1);
      if Enabled(s, a) {
        ArriveClean(Next(s, a), es[1..]);
        CleanAppend([a], Arrive(Next(s, a), es[1..]));
        FinishesAppend([a], Arrive(Next(s, a), es[1..]));
      } else {
        ArriveClean(s, es[1..]);
      }
    }
  }

  lemma {:induction false} FinishesAppend(acts: seq<Action>, more: seq<Action>)
    ensures Finishes(acts + more) == Finishes(acts) + Finishes(more)
  {
    if more == [] {
      assert acts + more == acts;
    } else {
      FinishesAppend(acts, more[..|more|-1]);
      assert (acts + more)[..|acts + more|-1] == acts + more[..|more|-1];
    }
  }

  lemma ChoiceClean(s: Sys, env: Env) returns (a: Action)
    requires Inv(s) && NoFailures(env) && !s.phase.Head? && s.phase.todo != []
    ensures s.phase.todo[0].index < |s.At(s.phase.todo[0].stream).entries|
    ensures a == Choice(s, env) && Enabled(s, a) && !Next(s, a).phase.Head?
    ensures Left(Next(s, a).phase) < Left(s.phase)
    ensures Clean([a]) && Finishes([a]) == 0
  {
    hide Inv;
    InRange(s);
    a := Choice(s, env);
  }

  /** Without failures a batch is served to its end. */
  lemma {:induction false} BatchClean(s: Sys, env: Env)
    requires Inv(s) && NoFailures(env) && !s.phase.Head?
    ensures Clean(Batch(s, env)) && Finishes(Batch(s, env)) == 0
    ensures CanRun(s, Batch(s, env)) && !Exec(s, Batch(s, env)).phase.Head?
    decreases Left(s.phase)
  {
    hide Inv;
    hide CanRun;
    hide Exec;
    hide Next;
    hide Enabled;
    hide NoFailures;
    hide Choice;
    BatchRuns(s, env);
    if s.phase.todo == [] {
      Starts(s);
    } else {
      var a := ChoiceClean(s, env);
      ReachedOne(s, a);
      var s1 := Next(s, a);
      BatchRuns(s1, env);
      BatchClean(s1, env);
      Join(s, [a], s1, Batch(s1, env), Exec(s1, Batch(s1, env)));
      CleanAppend([a], Batch(s1, env));
      FinishesAppend([a], Batch(s1, env));
    }
  }

  lemma IterationClean(s: Sys, env: Env)
    requires Inv(s) && s.phase.Head? && NoFailures(env)
    ensures Clean(Iteration(s, env)) && Finishes(Iteration(s, env)) == 1
  {
    hide Inv;
    hide Arrive;
    hide Clean;
    hide Finishes;
    ArriveRuns(s, env.arrivals);
    ArriveClean(s, env.arrivals);
    var s1 := Exec(s, Arrive(s, env.arrivals));
    StepClean(s1, env);
    hide StepActs;
    hide CanRun;
    hide Exec;
    CleanAppend(Arrive(s, env.arrivals), StepActs(s1, env));
    FinishesAppend(Arrive(s, env.arrivals), StepActs(s1, env));
    var acts := Arrive(s, env.arrivals) + StepActs(s1, env);
    CleanAppend(acts, [Finish]);
    FinishesAppend(acts, [Finish]);
    OneFinish();
  }

  lemma OneFinish()
    ensures Clean([Finish]) && Finishes([Finish]) == 1
  {
    assert [Finish][..0] == [];
  }

  lemma StepClean(s: Sys, env: Env)
    requires Inv(s) && s.phase.Head? && NoFailures(env)
    ensures Clean(StepActs(s, env)) && Finishes(StepActs(s, env)) == 0
    ensures CanRun(s, StepActs(s, env)) && !Exec(s, StepActs(s, env)).phase.Head?
  {
    hide Inv;
    hide CanRun;
    hide Exec;
    hide Batch;
    hide ReadIndices;
    hide AfterRead;
    StepRuns(s, env);
    var a := Read(env.read);
    ReachedOne(s, a);
    var s1 := Next(s, a);
    assert !s1.phase.Head? && Clean([a]) && Finishes([a]) == 0;
    hide Next;
    BatchRuns(s1, env);
    BatchClean(s1, env);
    Join(s, [a], s1, Batch(s1, env), Exec(s1, Batch(s1, env)));
    CleanAppend([a], Batch(s1, env));
    FinishesAppend([a], Batch(s1, env));
  }

  lemma {:induction false} LoopClean(s: Sys, envs: seq<Env>)
    requires Inv(s) && s.phase.Head? && forall k :: 0 <= k < |envs| ==> NoFailures(envs[k])
    ensures Clean(LoopActs(s, envs)) && Finishes(LoopActs(s, envs)) == |envs|
    decreases |envs|
  {
    hide Inv;
    hide NoFailures;
    hide Iteration;
    if envs != [] {
      IterationRuns(s, envs[0]);
      IterationClean(s, envs[0]);
      var s1 := Exec(s, Iteration(s, envs[0]));
      LoopClean(s1, envs[1..]);
      hide Clean;
      hide Finishes;
      CleanAppend(Iteration(s, envs[0]), LoopActs(s1, envs[1..]));
      FinishesAppend(Iteration(s, envs[0]), LoopActs(s1, envs[1..]));
    }
  }

  /** The program's loop, started on any backlog, with entries arriving and nothing failing: it has
      drained the backlog, and follows new entries, after exactly `StepsToDrain` iterations. */
  lemma LoopDrains(s: Sys, envs: seq<Env>)
    requires Inv(s) && s.phase == Head(Replay) && forall k :: 0 <= k < |envs| ==> NoFailures(envs[k])
    ensures CanRun(s, LoopActs(s, envs))
    ensures var s' := Exec(s, LoopActs(s, envs));
      && (s'.phase == if StepsToDrain(s) <= |envs| then Head(Follow) else Head(Replay))
      && (StepsToDrain(s) <= |envs| ==>
            FullyArchived(Sensor, s.sensor, s'.sensor) && FullyArchived(Control, s.control, s'.control))
  {
    LoopRuns(s, envs);
    LoopClean(s, envs);
    DrainsExactly(s, LoopActs(s, envs));
    hide Inv;
    hide LoopActs;
    hide CanRun;
    hide Exec;
    hide StepsToDrain;
    hide FullyArchived;
  }
}
