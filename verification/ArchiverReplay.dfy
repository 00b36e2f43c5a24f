/** Why exactly-once rests on stable timestamps: an unstable entry can be stored twice. */
module ArchiverReplay {
  import opened Telemetry
  import opened Archiver
  import opened ArchiverSafety

  /** Every well-formed entry has exactly one row, made at whatever time, and there is no other row. */
  ghost predicate OnceEach(stream: Stream, es: seq<Entry>, m: Table) {
    && Archived(stream, es, m)
    && forall i :: 0 <= i < |es| && WellFormed(stream, es[i]) ==> OneKey(es[i], m)
  }

  ghost predicate OneKey(e: Entry, m: Table) {
    forall k1, k2 :: k1 in m && k2 in m && k1.0 == Render(e.id) && k2.0 == Render(e.id) ==> k1 == k2
  }

  lemma StableOnceEach(stream: Stream, es: seq<Entry>, m: Table)
    requires GoodEntries(es) && Archived(stream, es, m) && AllStable(stream, es)
    ensures OnceEach(stream, es, m)
  {
    hide Archived;
    hide GoodEntries;
    hide WellFormed;
    hide Stable;
    forall i | 0 <= i < |es| && WellFormed(stream, es[i]) ensures OneKey(es[i], m) {
      StableOnlyRow(stream, es, i, m);
    }
  }

  // ---- A run that stores an entry twice --------------------------------------------------------------

  /** The other stream is empty, and this one has the first `k` of these entries, `d` of them delivered. */
  ghost predicate Fed(s: Sys, stream: Stream, es: seq<Entry>, k: nat, d: nat)
    requires k <= |es|
  {
    && Inv(s) && s.At(stream).entries == es[..k] && s.At(stream).delivered == d
    && s.At(if stream == Sensor then Control else Sensor) == NEW_TOPIC
  }

  /** A run from the beginning, ending in `s`. */
  ghost predicate Runs(acts: seq<Action>, s: Sys) { CanRun(INITIAL, acts) && Exec(INITIAL, acts) == s && Inv(s) }

  lemma RunOn(acts: seq<Action>, s: Sys, a: Action)
    requires Runs(acts, s) && Enabled(s, a)
    ensures Runs(acts + [a], Next(s, a))
  {
    hide Next;
    hide Enabled;
    hide Inv;
    assert (acts + [a])[..|acts + [a]|-1] == acts;
    StepKeeps(s, a);
  }

  lemma AppendNext(s: Sys, stream: Stream, es: seq<Entry>, k: nat, d: nat)
    requires GoodEntries(es) && k < |es| && Fed(s, stream, es, k, d)
    ensures Enabled(s, Append(stream, es[k]))
    ensures var s' := Next(s, Append(stream, es[k])); var t, t' := s.At(stream), s'.At(stream);
      && Fed(s', stream, es, k + 1, d) && s'.phase == s.phase
      && t'.table == t.table && t'.stored == t.stored && t'.acked == t.acked
  {
    assert es[..k+1] == es[..k] + [es[k]];
    assert Enabled(s, Append(stream, es[k]));
    StepKeeps(s, Append(stream, es[k]));
    hide Inv;
    hide GoodEntries;
  }

  lemma ReadsNothing(cursor: Cursor)
    ensures ReadIndices(NEW_TOPIC, cursor) == [] && AfterRead(NEW_TOPIC, cursor) == NEW_TOPIC
  {
  }

  /** What a read finds in this stream: the one entry after the acknowledged ones. */
  lemma ReadsOne(stream: Stream, t: Topic, cursor: Cursor)
    requires TopicInv(stream, t) && (cursor == Follow ==> Drained(t))
    requires |t.entries| == |t.acked| + 1 && (cursor == Replay ==> t.delivered == |t.entries|)
    ensures ReadIndices(t, cursor) == [|t.acked|]
    ensures AfterRead(t, cursor).delivered == |t.entries| && AfterRead(t, cursor).acked == t.acked
    ensures AfterRead(t, cursor).entries == t.entries && AfterRead(t, cursor).table == t.table
  {
    hide Archived;
    hide GoodEntries;
    if cursor == Follow { ReadFollow(stream, t); } else { ReadReplay(stream, t); }
  }

  lemma ReadNext(s: Sys, stream: Stream, es: seq<Entry>, k: nat, d: nat)
    requires k < |es| && Fed(s, stream, es, k + 1, d) && |s.At(stream).acked| == k && s.phase.Head?
    requires s.phase.cursor == Replay ==> d == k + 1
    ensures Enabled(s, Read(Success))
    ensures var s' := Next(s, Read(Success));
      && Fed(s', stream, es, k + 1, k + 1) && |s'.At(stream).acked| == k
      && s'.At(stream).table == s.At(stream).table
      && s'.phase == Inserting(s.phase.cursor, [Item(stream, k)], 0)
  {
    hide ReadIndices;
    hide AfterRead;
    hide TopicInv;
    hide BatchInv;
    StepKeeps(s, Read(Success));
    ReadsNothing(s.phase.cursor);
    ReadsOne(stream, s.At(stream), s.phase.cursor);
    assert AsItems(Sensor, []) == [] && AsItems(Control, []) == [];
    assert AsItems(stream, [k]) == [Item(stream, k)];
  }

  lemma InsertNext(s: Sys, stream: Stream, es: seq<Entry>, k: nat, now: int, outcome: Outcome)
    requires k < |es| && Fed(s, stream, es, k + 1, k + 1) && |s.At(stream).acked| == k
    requires s.phase.Inserting? && s.phase.todo == [Item(stream, k)] && outcome.HasEffect()
    ensures Enabled(s, Insert(now, outcome))
    ensures var s' := Next(s, Insert(now, outcome)); var row := RowOf(stream, es[k], now);
      && Fed(s', stream, es, k + 1, k + 1) && |s'.At(stream).acked| == k
      && (outcome == Success ==> s'.phase == Acking(s.phase.cursor, s.phase.todo, s.phase.n))
      && (row.Some? && outcome != Success ==> s'.phase == Head(Replay))
      && s'.At(stream).table == (if row.None? then s.At(stream).table else InsertRow(s.At(stream).table, row.value))
      && s'.At(stream).stored == k + 1
  {
    hide RowOf;
    hide InsertRow;
    hide TopicInv;
    hide BatchInv;
    assert es[..k+1][k] == es[k];
    StepKeeps(s, Insert(now, outcome));
    StoreRows(stream, s.At(stream), k, now);
  }

  /** The loop follows new entries and the first `k` are acknowledged. */
  ghost predicate CaughtUp(acts: seq<Action>, s: Sys, stream: Stream, es: seq<Entry>, k: nat)
    requires k <= |es|
  {
    Runs(acts, s) && Fed(s, stream, es, k, k) && s.phase == Head(Follow) && |s.At(stream).acked| == k
  }

  lemma Acknowledged(s: Sys, stream: Stream, es: seq<Entry>, k: nat)
    requires k < |es| && Fed(s, stream, es, k + 1, k + 1) && |s.At(stream).acked| == k
    requires s.phase == Acking(Follow, [Item(stream, k)], 0)
    ensures Enabled(s, Ack(Success))
    ensures var s' := Next(s, Ack(Success));
      && Fed(s', stream, es, k + 1, k + 1) && |s'.At(stream).acked| == k + 1
      && s'.phase == Inserting(Follow, [], 1)
  {
    StepKeeps(s, Ack(Success));
    AcknowledgeKeeps(stream, s.At(stream));
    hide BatchInv;
    hide Todo;
  }

  lemma Finished(s: Sys, stream: Stream, es: seq<Entry>, k: nat)
    requires k <= |es| && Fed(s, stream, es, k, k) && s.phase.Inserting? && s.phase.todo == []
    ensures Enabled(s, Finish) && Fed(Next(s, Finish), stream, es, k, k)
    ensures Next(s, Finish) == s.(phase := Next(s, Finish).phase)
    ensures Next(s, Finish).phase == Head(if s.phase.n == 0 then Follow else s.phase.cursor)
  {
    StepKeeps(s, Finish);
    hide Inv;
  }

  /** The next entry arrives and is archived without an error. */
  lemma ArchiveOne(acts: seq<Action>, s: Sys, stream: Stream, es: seq<Entry>, k: nat)
    returns (acts': seq<Action>, s': Sys)
    requires GoodEntries(es) && k < |es| && CaughtUp(acts, s, stream, es, k)
    ensures CaughtUp(acts', s', stream, es, k + 1)
  {
    hide Runs;
    hide Fed;
    hide RowOf;
    hide GoodEntries;
    hide Next;
    hide Enabled;
    acts', s' := Arrives(acts, s, stream, es, k);
    InsertNext(s', stream, es, k, 0, Success);
    RunOn(acts', s', Insert(0, Success));
    acts', s' := acts' + [Insert(0, Success)], Next(s', Insert(0, Success));
    Acknowledged(s', stream, es, k);
    RunOn(acts', s', Ack(Success));
    acts', s' := acts' + [Ack(Success)], Next(s', Ack(Success));
    Finished(s', stream, es, k + 1);
    RunOn(acts', s', Finish);
    acts', s' := acts' + [Finish], Next(s', Finish);
  }

  /** The next entry arrives and is read. */
  lemma Arrives(acts: seq<Action>, s: Sys, stream: Stream, es: seq<Entry>, k: nat)
    returns (acts': seq<Action>, s': Sys)
    requires GoodEntries(es) && k < |es| && CaughtUp(acts, s, stream, es, k)
    ensures Runs(acts', s') && Fed(s', stream, es, k + 1, k + 1) && |s'.At(stream).acked| == k
    ensures s'.phase == Inserting(Follow, [Item(stream, k)], 0)
  {
    hide Runs;
    hide Fed;
    hide GoodEntries;
    hide Next;
    hide Enabled;
    AppendNext(s, stream, es, k, k);
    RunOn(acts, s, Append(stream, es[k]));
    var s1 := Next(s, Append(stream, es[k]));
    ReadNext(s1, stream, es, k, k);
    RunOn(acts + [Append(stream, es[k])], s1, Read(Success));
    acts', s' := acts + [Append(stream, es[k])] + [Read(Success)], Next(s1, Read(Success));
  }

  lemma {:induction false} ArchiveFirst(stream: Stream, es: seq<Entry>, k: nat) returns (acts: seq<Action>, s: Sys)
    requires GoodEntries(es) && k <= |es|
    ensures CaughtUp(acts, s, stream, es, k)
  {
    if k == 0 {
      acts, s := StartUp(stream, es);
    } else {
      hide CaughtUp;
      acts, s := ArchiveFirst(stream, es, k - 1);
      acts, s := ArchiveOne(acts, s, stream, es, k - 1);
    }
  }

  /** With nothing pending the first batch is empty, and the loop goes on to follow. */
  lemma StartUp(stream: Stream, es: seq<Entry>) returns (acts: seq<Action>, s: Sys)
    ensures CaughtUp(acts, s, stream, es, 0)
  {
    hide Runs;
    hide Fed;
    hide Next;
    hide Enabled;
    hide Inv;
    Initially(stream, es);
    FirstRead();
    RunOn([], INITIAL, Read(Success));
    var s1 := Next(INITIAL, Read(Success));
    assert [] + [Read(Success)] == [Read(Success)];
    StepKeeps(INITIAL, Read(Success));
    Unread(s1, stream, es);
    Finished(s1, stream, es, 0);
    RunOn([Read(Success)], s1, Finish);
    acts, s := [Read(Success)] + [Finish], Next(s1, Finish);
  }

  lemma Initially(stream: Stream, es: seq<Entry>)
    ensures Inv(INITIAL) && Runs([], INITIAL)
  {
    InitialInv();
    hide Inv;
  }

  lemma Unread(s: Sys, stream: Stream, es: seq<Entry>)
    requires s == INITIAL.(phase := s.phase) && Inv(s)
    ensures Fed(s, stream, es, 0, 0) && |s.At(stream).acked| == 0
  {
    hide Inv;
  }

  lemma FirstRead()
    ensures Enabled(INITIAL, Read(Success))
    ensures Next(INITIAL, Read(Success)) == INITIAL.(phase := Inserting(Replay, [], 0))
  {
    ReadsNothing(Replay);
    assert AsItems(Sensor, []) + AsItems(Control, []) == [];
  }

  /** The database applies the insert but reports an error; the entry is replayed later. */
  lemma LostReply(acts: seq<Action>, s: Sys, stream: Stream, es: seq<Entry>, k: nat, t1: int, t2: int)
    returns (acts': seq<Action>, s': Sys)
    requires k < |es| && Runs(acts, s) && Fed(s, stream, es, k + 1, k + 1) && |s.At(stream).acked| == k
    requires s.phase == Inserting(Follow, [Item(stream, k)], 0) && WellFormed(stream, es[k])
    ensures RowOf(stream, es[k], t1).Some? && RowOf(stream, es[k], t2).Some?
    ensures Runs(acts', s') && Fed(s', stream, es, k + 1, k + 1) && s'.At(stream).stored == k + 1
    ensures KeyOf(RowOf(stream, es[k], t1).value) in s'.At(stream).table
    ensures KeyOf(RowOf(stream, es[k], t2).value) in s'.At(stream).table
  {
    assert RowOf(stream, es[k], t1).Some? && RowOf(stream, es[k], t2).Some?;
    hide RowOf;
    hide Runs;
    hide Fed;
    hide WellFormed;
    hide Next;
    hide Enabled;
    hide InsertRow;
    InsertNext(s, stream, es, k, t1, Failed(true));
    InsertRowFacts(s.At(stream).table, RowOf(stream, es[k], t1).value);
    RunOn(acts, s, Insert(t1, Failed(true)));
    var s1 := Next(s, Insert(t1, Failed(true)));
    ReadNext(s1, stream, es, k, k + 1);
    RunOn(acts + [Insert(t1, Failed(true))], s1, Read(Success));
    var s2 := Next(s1, Read(Success));
    InsertNext(s2, stream, es, k, t2, Success);
    InsertRowFacts(s2.At(stream).table, RowOf(stream, es[k], t2).value);
    acts' := acts + [Insert(t1, Failed(true))] + [Read(Success)];
    RunOn(acts', s2, Insert(t2, Success));
    acts', s' := acts' + [Insert(t2, Success)], Next(s2, Insert(t2, Success));
  }

  lemma InsertRowFacts(m: Table, row: Row)
    ensures KeyOf(row) in InsertRow(m, row) && forall k :: k in m ==> k in InsertRow(m, row)
  {
  }

  lemma {:induction false} AppendRest(acts: seq<Action>, s: Sys, stream: Stream, es: seq<Entry>, k: nat, d: nat)
    returns (acts': seq<Action>, s': Sys)
    requires GoodEntries(es) && k <= |es| && Runs(acts, s) && Fed(s, stream, es, k, d)
    ensures Runs(acts', s') && s'.At(stream).entries == es
    ensures s'.At(stream).table == s.At(stream).table && s'.At(stream).stored == s.At(stream).stored
    decreases |es| - k
  {
    if k == |es| {
      assert es[..k] == es;
      acts', s' := acts, s;
    } else {
      hide Runs;
      hide Fed;
      hide GoodEntries;
      AppendNext(s, stream, es, k, d);
      RunOn(acts, s, Append(stream, es[k]));
      acts', s' := AppendRest(acts + [Append(stream, es[k])], Next(s, Append(stream, es[k])), stream, es, k + 1, d);
    }
  }

  lemma TwoTimes(stream: Stream, e: Entry) returns (t1: int, t2: int)
    requires FitsUint64(e.id) && !Stable(e) && WellFormed(stream, e)
    ensures RowOf(stream, e, t1).Some? && RowOf(stream, e, t2).Some?
    ensures KeyOf(RowOf(stream, e, t1).value) != KeyOf(RowOf(stream, e, t2).value)
    ensures KeyOf(RowOf(stream, e, t1).value).0 == KeyOf(RowOf(stream, e, t2).value).0 == Render(e.id)
  {
    TimestampStableIff(e);
    hide Stable;
    t1, t2 :| Timestamp(Render(e.id), e.fields, t1) != Timestamp(Render(e.id), e.fields, t2);
    hide Timestamp;
  }

  /** Wherever a well-formed entry with a clock-dependent timestamp stands in its stream: some run,
      with one lost reply, archives that entry twice. */
  lemma UnstableStoredTwice(stream: Stream, es: seq<Entry>, i: nat) returns (acts: seq<Action>)
    requires GoodEntries(es) && i < |es| && !Stable(es[i]) && WellFormed(stream, es[i])
    ensures CanRun(INITIAL, acts)
    ensures var t := Exec(INITIAL, acts).At(stream); t.entries == es && i < t.stored && !OneKey(es[i], t.table)
  {
    assert FitsUint64(es[i].id);
    hide GoodEntries;
    hide RowOf;
    hide WellFormed;
    hide Stable;
    hide KeyOf;
    hide Fed;
    hide CanRun;
    hide Exec;
    var t1, t2 := TwoTimes(stream, es[i]);
    var s: Sys;
    acts, s := ArchiveFirst(stream, es, i);
    acts, s := Arrives(acts, s, stream, es, i);
    acts, s := LostReply(acts, s, stream, es, i, t1, t2);
    acts, s := AppendRest(acts, s, stream, es, i + 1, i + 1);
  }

  /** For every possible content of a stream: exactly-once holds in all of its runs exactly if the
      timestamps of its well-formed entries are stable. */
  lemma ExactlyOnceIffStable(stream: Stream, es: seq<Entry>)
    requires GoodEntries(es)
    ensures AllStable(stream, es) <==>
            forall acts :: CanRun(INITIAL, acts) && Exec(INITIAL, acts).At(stream).entries == es ==>
              var t := Exec(INITIAL, acts).At(stream);
              t.stored <= |es| && OnceEach(stream, es[..t.stored], t.table)
  {
    hide Stable;
    hide WellFormed;
    if AllStable(stream, es) {
      forall acts | CanRun(INITIAL, acts) && Exec(INITIAL, acts).At(stream).entries == es
        ensures var t := Exec(INITIAL, acts).At(stream);
                t.stored <= |es| && OnceEach(stream, es[..t.stored], t.table)
      {
        ExactlyOnce(acts, stream);
        var t := Exec(INITIAL, acts).At(stream);
        GoodPrefix(es, t.stored);
        StableOnceEach(stream, es[..t.stored], t.table);
      }
    } else {
      var i :| 0 <= i < |es| && WellFormed(stream, es[i]) && !Stable(es[i]);
      var acts := UnstableStoredTwice(stream, es, i);
      hide OneKey;
      var t := Exec(INITIAL, acts).At(stream);
      assert t.stored <= |es| ==> es[..t.stored][i] == es[i];
    }
  }
}
