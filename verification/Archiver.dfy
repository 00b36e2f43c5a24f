/** The archiver, two streams and two tables, one external operation at a time. */
module Archiver {
  import opened Telemetry

  const BATCH := 100

  /** A stream with its consumer group and its table. `acked` lists the acknowledged entries in the
      order of acknowledgement; `stored` counts the leading entries whose archiving has happened. */
  datatype Topic = Topic(
    entries: seq<Entry>,
    delivered: nat,
    pending: set<nat>,
    table: Table,
    acked: seq<nat>,
    stored: nat)

  const NEW_TOPIC := Topic([], 0, {}, map[], [], 0)

  /** "0" replays this consumer's pending entries, ">" follows new ones. */
  datatype Cursor = Replay | Follow

  datatype Item = Item(stream: Stream, index: nat)

  /** Where the consumer is: at the loop head, before the insert of the next message of a batch
      (or at the end of the batch), or between that message's insert and its acknowledgement. */
  datatype Phase =
    | Head(cursor: Cursor)
    | Inserting(cursor: Cursor, todo: seq<Item>, n: nat)
    | Acking(cursor: Cursor, todo: seq<Item>, n: nat)

  datatype Sys = Sys(sensor: Topic, control: Topic, phase: Phase) {
    function At(s: Stream): Topic { if s == Sensor then sensor else control }
    function With(s: Stream, t: Topic): Sys {
      if s == Sensor then this.(sensor := t) else this.(control := t)
    }
  }

  const INITIAL := Sys(NEW_TOPIC, NEW_TOPIC, Head(Replay))

  /** An external operation succeeds, or fails without or with its effect. */
  datatype Outcome = Success | Failed(applied: bool) {
    predicate HasEffect() { Success? || applied }
  }

  datatype Action =
    | Append(stream: Stream, entry: Entry)
    | Read(outcome: Outcome)
    | Insert(now: int, outcome: Outcome)
    | Ack(outcome: Outcome)
    | Finish
    | Crash

  // ---- The operations of the two servers --------------------------------------------------------

  /** The indices in `pending` from `i` to `n`, in entry order. */
  function Ascending(pending: set<nat>, i: nat, n: nat): seq<nat>
    decreases n - i
  {
    if i >= n then []
    else (if i in pending then [i] else []) + Ascending(pending, i + 1, n)
  }

  function Take(s: seq<nat>, k: nat): seq<nat> { if |s| <= k then s else s[..k] }

  function Upto(i: nat, n: nat): (s: seq<nat>)
    ensures |s| == (if i < n then n - i else 0)
    ensures forall k :: 0 <= k < |s| ==> s[k] == i + k
    decreases n - i
  {
    if i >= n then [] else [i] + Upto(i + 1, n)
  }

  function ReadIndices(t: Topic, cursor: Cursor): seq<nat> {
    if cursor == Replay then Take(Ascending(t.pending, 0, t.delivered), BATCH)
    else Take(Upto(t.delivered, |t.entries|), BATCH)
  }

  function AfterRead(t: Topic, cursor: Cursor): Topic {
    if cursor == Replay then t
    else
      var got := ReadIndices(t, cursor);
      t.(delivered := t.delivered + |got|, pending := t.pending + set i <- got)
  }

  function AsItems(s: Stream, indices: seq<nat>): seq<Item> {
    seq(|indices|, i requires 0 <= i < |indices| => Item(s, indices[i]))
  }

  /** Write the row of an entry, if it has one. */
  function Store(t: Topic, stream: Stream, i: nat, now: int): Topic
    requires i < |t.entries|
  {
    var row := RowOf(stream, t.entries[i], now);
    t.(table := if row.None? then t.table else InsertRow(t.table, row.value),
       stored := if i == t.stored then t.stored + 1 else t.stored)
  }

  function Acknowledge(t: Topic, i: nat): Topic {
    t.(pending := t.pending - {i}, acked := if i in t.pending then t.acked + [i] else t.acked)
  }

  // ---- The steps ------------------------------------------------------------------------------

  /** The stream accepts ever larger IDs. */
  predicate Acceptable(t: Topic, e: Entry) {
    && FitsUint64(e.id)
    && (t.entries != [] ==> Before(t.entries[|t.entries|-1].id, e.id))
  }

  predicate Enabled(s: Sys, a: Action) {
    match a
    case Append(stream, e) => Acceptable(s.At(stream), e)
    case Read(_) => s.phase.Head?
    case Insert(_, _) =>
      s.phase.Inserting? && s.phase.todo != [] && s.phase.todo[0].index < |s.At(s.phase.todo[0].stream).entries|
    case Ack(_) => s.phase.Acking? && s.phase.todo != []
    case Finish => s.phase.Inserting? && s.phase.todo == []
    case Crash => true
  }

  function Next(s: Sys, a: Action): Sys
    requires Enabled(s, a)
  {
    match a
    case Append(stream, e) =>
      var t := s.At(stream);
      s.With(stream, t.(entries := t.entries + [e]))
    case Read(outcome) =>
      var c := s.phase.cursor;
      var s' := if outcome.HasEffect() then s.(sensor := AfterRead(s.sensor, c), control := AfterRead(s.control, c))
                else s;
      s'.(phase :=
        if outcome == Success then
          Inserting(c, AsItems(Sensor, ReadIndices(s.sensor, c)) + AsItems(Control, ReadIndices(s.control, c)), 0)
        else Head(Replay))
    case Insert(now, outcome) =>
      var it := s.phase.todo[0];
      var t := s.At(it.stream);
      // a malformed entry is dropped without touching the database
      var dropped := RowOf(it.stream, t.entries[it.index], now).None?;
      var s' := if dropped || outcome.HasEffect() then s.With(it.stream, Store(t, it.stream, it.index, now)) else s;
      s'.(phase :=
        if dropped || outcome == Success then Acking(s.phase.cursor, s.phase.todo, s.phase.n) else Head(Replay))
    case Ack(outcome) =>
      var it := s.phase.todo[0];
      var s' := if outcome.HasEffect() then s.With(it.stream, Acknowledge(s.At(it.stream), it.index)) else s;
      s'.(phase :=
        if outcome == Success then Inserting(s.phase.cursor, s.phase.todo[1..], s.phase.n + 1) else Head(Replay))
    case Finish =>
      s.(phase := Head(if s.phase.n == 0 && s.phase.cursor == Replay then Follow else s.phase.cursor))
    case Crash => s.(phase := Head(Replay))
  }

  ghost predicate CanRun(s: Sys, acts: seq<Action>)
    decreases |acts|, 0
  {
    acts != [] ==>
      CanRun(s, acts[..|acts|-1]) && Enabled(Exec(s, acts[..|acts|-1]), acts[|acts|-1])
  }

  ghost function Exec(s: Sys, acts: seq<Action>): Sys
    requires CanRun(s, acts)
    decreases |acts|, 1
  {
    if acts == [] then s else Next(Exec(s, acts[..|acts|-1]), acts[|acts|-1])
  }

  lemma {:induction false} ExecAppend(s: Sys, acts: seq<Action>, more: seq<Action>)
    requires CanRun(s, acts) && CanRun(Exec(s, acts), more)
    ensures CanRun(s, acts + more) && Exec(s, acts + more) == Exec(Exec(s, acts), more)
  {
    hide Next;
    hide Enabled;
    if more == [] {
      assert acts + more == acts;
    } else {
      ExecAppend(s, acts, more[..|more|-1]);
      assert (acts + more)[..|acts + more|-1] == acts + more[..|more|-1];
    }
  }
}
