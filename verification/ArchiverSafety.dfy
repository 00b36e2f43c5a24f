/** Every entry archived exactly once, in order, through every failure. */
module ArchiverSafety {
  import opened Prelude
  import opened Telemetry
  import opened Archiver

  ghost predicate GoodEntries(es: seq<Entry>) {
    && (forall i :: 0 <= i < |es| ==> FitsUint64(es[i].id))
    && (forall i, j :: 0 <= i < j < |es| ==> Before(es[i].id, es[j].id))
  }

  /** This row, under this key, was made of the entry at some time. */
  ghost predicate MadeOf(stream: Stream, e: Entry, k: Key, row: Row) {
    KeyOf(row) == k && exists now :: RowOf(stream, e, now) == Some(row)
  }

  ghost predicate FromOneOf(stream: Stream, es: seq<Entry>, k: Key, row: Row) {
    exists i :: 0 <= i < |es| && MadeOf(stream, es[i], k, row)
  }

  ghost predicate HasRow(e: Entry, m: Table) { exists k :: k in m && k.0 == Render(e.id) }

  /** Every well-formed entry has a row under its ID, and every row was made of an entry. */
  ghost predicate Archived(stream: Stream, es: seq<Entry>, m: Table) {
    && (forall k :: k in m ==> FromOneOf(stream, es, k, m[k]))
    && (forall i :: 0 <= i < |es| && WellFormed(stream, es[i]) ==> HasRow(es[i], m))
  }

  /** Acknowledged entries form a prefix in order, the rest of the delivered ones are pending, and the
      table holds a prefix that is at most one entry ahead of the acknowledgements. */
  ghost predicate TopicInv(stream: Stream, t: Topic) {
    var a := |t.acked|;
    && GoodEntries(t.entries)
    && a <= t.delivered <= |t.entries|
    && t.acked == Upto(0, a)
    && (forall i :: i in t.pending <==> a <= i < t.delivered)
    && a <= t.stored <= a + 1 && t.stored <= t.delivered
    && Archived(stream, t.entries[..t.stored], t.table)
  }

  /** The messages still to be processed: from each topic a run of its oldest pending entries. */
  ghost predicate Todo(s: Sys, todo: seq<Item>, eS: nat, eC: nat) {
    && |s.sensor.acked| <= eS <= s.sensor.delivered && |s.control.acked| <= eC <= s.control.delivered
    && todo == AsItems(Sensor, Upto(|s.sensor.acked|, eS)) + AsItems(Control, Upto(|s.control.acked|, eC))
  }

  ghost predicate Drained(t: Topic) { t.pending == {} }

  /** What a batch that was read with this cursor still reaches up to. */
  ghost predicate Reaches(t: Topic, cursor: Cursor, n: nat, e: nat) {
    && (cursor == Follow ==> e == t.delivered)
    && (n == 0 && cursor == Replay ==> e == if |t.acked| + BATCH < t.delivered then |t.acked| + BATCH else t.delivered)
  }

  ghost predicate BatchInv(s: Sys, cursor: Cursor, todo: seq<Item>, n: nat) {
    exists eS, eC ::
      Todo(s, todo, eS, eC) && Reaches(s.sensor, cursor, n, eS) && Reaches(s.control, cursor, n, eC)
  }

  ghost predicate Inv(s: Sys) {
    && TopicInv(Sensor, s.sensor) && TopicInv(Control, s.control)
    && match s.phase
       case Head(cursor) => cursor == Follow ==> Drained(s.sensor) && Drained(s.control)
       case Inserting(cursor, todo, n) => BatchInv(s, cursor, todo, n)
       case Acking(cursor, todo, n) =>
         && BatchInv(s, cursor, todo, n) && todo != []
         && s.At(todo[0].stream).stored == todo[0].index + 1
  }

  // ---- Rows ------------------------------------------------------------------------------------

  lemma BeforeKey(stream: Stream, es: seq<Entry>, i: nat, j: nat)
    requires GoodEntries(es) && i < |es| && j < |es| && i != j
    requires RowOf(stream, es[i], 0).Some? && RowOf(stream, es[j], 0).Some?
    ensures KeyOf(RowOf(stream, es[i], 0).value) != KeyOf(RowOf(stream, es[j], 0).value)
  {
    hide Timestamp;
    hide Render;
    assert Before(es[i].id, es[j].id) || Before(es[j].id, es[i].id);
    if Render(es[i].id) == Render(es[j].id) {
      RenderInjective(es[i].id, es[j].id);
    }
  }

  /** The table that archiving each of these entries once would give. */
  function Rows(stream: Stream, es: seq<Entry>): Table {
    if es == [] then map[]
    else
      var row := RowOf(stream, es[|es|-1], 0);
      if row.None? then Rows(stream, es[..|es|-1]) else Rows(stream, es[..|es|-1])[KeyOf(row.value) := row.value]
  }

  ghost predicate RowAt(stream: Stream, es: seq<Entry>, k: Key, row: Row, i: int) {
    0 <= i < |es| && RowOf(stream, es[i], 0) == Some(row) && KeyOf(row) == k
  }

  function CountWellFormed(stream: Stream, es: seq<Entry>): nat {
    if es == [] then 0
    else CountWellFormed(stream, es[..|es|-1]) + if WellFormed(stream, es[|es|-1]) then 1 else 0
  }

  /** Exactly one row for each well-formed entry, its own, and no other row. */
  ghost predicate OneRowEach(stream: Stream, es: seq<Entry>, m: Table) {
    && (forall k :: k in m ==> exists i :: RowAt(stream, es, k, m[k], i))
    && (forall i :: 0 <= i < |es| && RowOf(stream, es[i], 0).Some? ==>
          var row := RowOf(stream, es[i], 0).value;
          KeyOf(row) in m && m[KeyOf(row)] == row)
    && |m| == CountWellFormed(stream, es)
  }

  /** A dropped entry changes nothing. */
  lemma OneRowDropped(stream: Stream, ds: seq<Entry>, e: Entry, m: Table)
    requires OneRowEach(stream, ds, m) && RowOf(stream, e, 0).None?
    ensures OneRowEach(stream, ds + [e], m)
  {
    hide RowOf;
    var es := ds + [e];
    assert es[..|es|-1] == ds;
    forall k | k in m ensures exists i :: RowAt(stream, es, k, m[k], i) {
      var i :| RowAt(stream, ds, k, m[k], i);
      assert RowAt(stream, es, k, m[k], i);
    }
  }

  lemma NewKeyIsFree(stream: Stream, ds: seq<Entry>, e: Entry, m: Table)
    requires GoodEntries(ds + [e]) && OneRowEach(stream, ds, m) && RowOf(stream, e, 0).Some?
    ensures KeyOf(RowOf(stream, e, 0).value) !in m
  {
    hide RowOf;
    hide GoodEntries;
    hide CountWellFormed;
    var k := KeyOf(RowOf(stream, e, 0).value);
    if k in m {
      var i :| RowAt(stream, ds, k, m[k], i);
      assert (ds + [e])[i] == ds[i];
      BeforeKey(stream, ds + [e], i, |ds|);
    }
  }

  /** The row of a new entry comes under a key of its own. */
  lemma OneRowMore(stream: Stream, ds: seq<Entry>, e: Entry, m: Table)
    requires OneRowEach(stream, ds, m) && RowOf(stream, e, 0).Some?
    requires KeyOf(RowOf(stream, e, 0).value) !in m
    ensures var row := RowOf(stream, e, 0).value; OneRowEach(stream, ds + [e], m[KeyOf(row) := row])
  {
    hide RowOf;
    hide KeyOf;
    var es, n := ds + [e], |ds|;
    var row := RowOf(stream, e, 0).value;
    var m' := m[KeyOf(row) := row];
    assert es[..|es|-1] == ds && es[n] == e;
    forall k | k in m' ensures exists i :: RowAt(stream, es, k, m'[k], i) {
      if k == KeyOf(row) {
        assert RowAt(stream, es, k, m'[k], n);
      } else {
        var i :| RowAt(stream, ds, k, m[k], i);
        assert RowAt(stream, es, k, m'[k], i);
      }
    }
    forall i | 0 <= i < |es| && RowOf(stream, es[i], 0).Some?
      ensures var r := RowOf(stream, es[i], 0).value; KeyOf(r) in m' && m'[KeyOf(r)] == r
    {
      if i < n { assert es[i] == ds[i]; }
    }
  }

  lemma {:induction false} RowsExact(stream: Stream, es: seq<Entry>)
    requires GoodEntries(es)
    ensures OneRowEach(stream, es, Rows(stream, es))
  {
    if es != [] {
      var ds, e := es[..|es|-1], es[|es|-1];
      assert es == ds + [e];
      GoodPrefix(es, |ds|);
      hide GoodEntries;
      hide RowOf;
      hide OneRowEach;
      RowsExact(stream, ds);
      if RowOf(stream, e, 0).None? {
        OneRowDropped(stream, ds, e, Rows(stream, ds));
      } else {
        NewKeyIsFree(stream, ds, e, Rows(stream, ds));
        OneRowMore(stream, ds, e, Rows(stream, ds));
      }
    } else {
      assert Rows(stream, es) == map[];
    }
  }

  lemma GoodPrefix(es: seq<Entry>, k: nat)
    requires GoodEntries(es) && k <= |es|
    ensures GoodEntries(es[..k])
  {
  }

  lemma RowCarriesId(stream: Stream, e: Entry, now: int)
    requires RowOf(stream, e, now).Some?
    ensures KeyOf(RowOf(stream, e, now).value).0 == Render(e.id)
  {
  }

  /** Storing entry `i`, for the first time or again. */
  lemma InsertArchived(stream: Stream, es: seq<Entry>, i: nat, m: Table, now: int)
    requires i < |es| && RowOf(stream, es[i], now).Some?
    requires forall k :: k in m ==> FromOneOf(stream, es, k, m[k])
    requires forall j :: 0 <= j < |es| && j != i && WellFormed(stream, es[j]) ==> HasRow(es[j], m)
    ensures Archived(stream, es, InsertRow(m, RowOf(stream, es[i], now).value))
  {
    var row := RowOf(stream, es[i], now).value;
    hide RowOf;
    hide Render;
    hide KeyOf;
    hide WellFormed;
    var m' := InsertRow(m, row);
    RowCarriesId(stream, es[i], now);
    assert MadeOf(stream, es[i], KeyOf(row), row);
    forall k | k in m' ensures FromOneOf(stream, es, k, m'[k]) {
      if k !in m { assert m'[k] == row; }
    }
    forall j | 0 <= j < |es| && WellFormed(stream, es[j]) ensures HasRow(es[j], m') {
      if j == i {
        assert KeyOf(row) in m';
      } else {
        var k :| k in m && k.0 == Render(es[j].id);
        assert k in m';
      }
    }
  }

  lemma LongerSource(stream: Stream, es: seq<Entry>, e: Entry, m: Table)
    requires Archived(stream, es, m)
    ensures forall k :: k in m ==> FromOneOf(stream, es + [e], k, m[k])
    ensures !WellFormed(stream, e) ==> Archived(stream, es + [e], m)
  {
    hide MadeOf;
    hide HasRow;
    hide WellFormed;
    forall k | k in m ensures FromOneOf(stream, es + [e], k, m[k]) {
      var i :| 0 <= i < |es| && MadeOf(stream, es[i], k, m[k]);
      assert (es + [e])[i] == es[i];
    }
  }

  lemma WellFormedAnytime(stream: Stream, e: Entry, now: int)
    ensures RowOf(stream, e, now).Some? <==> WellFormed(stream, e)
  {
  }

  lemma StoreArchived(stream: Stream, t: Topic, i: nat, now: int)
    requires i <= t.stored <= i + 1 && i < |t.entries| && Archived(stream, t.entries[..t.stored], t.table)
    ensures Archived(stream, t.entries[..i+1], Store(t, stream, i, now).table)
  {
    hide RowOf;
    hide WellFormed;
    hide InsertRow;
    hide FromOneOf;
    hide HasRow;
    var e, es := t.entries[i], t.entries[..i+1];
    assert es == t.entries[..i] + [e];
    WellFormedAnytime(stream, e, now);
    if t.stored == i {
      LongerSource(stream, t.entries[..i], e, t.table);
    }
    if WellFormed(stream, e) {
      assert forall j :: 0 <= j < i ==> es[j] == t.entries[..t.stored][j];
      InsertArchived(stream, es, i, t.table, now);
    }
  }

  /** Storing the oldest unacknowledged entry, for the first time or again. */
  lemma StoreRows(stream: Stream, t: Topic, i: nat, now: int)
    requires TopicInv(stream, t) && i == |t.acked| < t.delivered
    ensures TopicInv(stream, Store(t, stream, i, now)) && Store(t, stream, i, now).stored == i + 1
  {
    hide Archived;
    hide GoodEntries;
    hide RowOf;
    hide InsertRow;
    StoreArchived(stream, t, i, now);
  }

  // ---- Stable entries ------------------------------------------------------------------------------

  /** Exactly one row carries the ID of the entry, and it is this one. */
  ghost predicate OnlyRow(e: Entry, m: Table, row: Row) {
    && KeyOf(row) in m && m[KeyOf(row)] == row
    && forall k :: k in m && k.0 == Render(e.id) ==> k == KeyOf(row)
  }

  /** The row of a stable entry does not depend on the time, so it has no second one. */
  lemma StableOnlyRow(stream: Stream, es: seq<Entry>, i: nat, m: Table)
    requires GoodEntries(es) && Archived(stream, es, m)
    requires i < |es| && WellFormed(stream, es[i]) && Stable(es[i])
    ensures OnlyRow(es[i], m, RowOf(stream, es[i], 0).value)
  {
    var row := RowOf(stream, es[i], 0).value;
    hide Stable;
    forall k | k in m && k.0 == Render(es[i].id) ensures k == KeyOf(row) && m[k] == row {
      var j :| 0 <= j < |es| && MadeOf(stream, es[j], k, m[k]);
      var now :| RowOf(stream, es[j], now) == Some(m[k]);
      SameSource(stream, es, i, j, now);
      RowStable(stream, es[i], now);
    }
    assert HasRow(es[i], m);
  }

  /** Rows with the ID of an entry were made of that entry. */
  lemma SameSource(stream: Stream, es: seq<Entry>, i: nat, j: nat, now: int)
    requires GoodEntries(es) && i < |es| && j < |es| && RowOf(stream, es[j], now).Some?
    requires RowOf(stream, es[j], now).value.eventId == Render(es[i].id)
    ensures i == j
  {
    hide Timestamp;
    hide Render;
    assert i != j ==> Before(es[i].id, es[j].id) || Before(es[j].id, es[i].id);
    RenderInjective(es[i].id, es[j].id);
  }

  ghost predicate AllStable(stream: Stream, es: seq<Entry>) {
    forall i :: 0 <= i < |es| && WellFormed(stream, es[i]) ==> Stable(es[i])
  }

  /** If the well-formed entries are stable, the table is the one that archiving each once would give. */
  lemma ArchivedIsRows(stream: Stream, es: seq<Entry>, m: Table)
    requires GoodEntries(es) && Archived(stream, es, m) && AllStable(stream, es)
    ensures m == Rows(stream, es)
  {
    RowsExact(stream, es);
    var rows := Rows(stream, es);
    hide Stable;
    hide Rows;
    hide CountWellFormed;
    hide GoodEntries;
    forall k | k in m ensures k in rows && rows[k] == m[k] {
      var i := SourceOf(stream, es, m, k);
      StableOnlyRow(stream, es, i, m);
    }
    forall k | k in rows ensures k in m {
      var i :| RowAt(stream, es, k, rows[k], i);
      StableOnlyRow(stream, es, i, m);
    }
  }

  lemma SourceOf(stream: Stream, es: seq<Entry>, m: Table, k: Key) returns (i: nat)
    requires Archived(stream, es, m) && k in m
    ensures i < |es| && WellFormed(stream, es[i]) && k.0 == Render(es[i].id)
  {
    i :| 0 <= i < |es| && MadeOf(stream, es[i], k, m[k]);
  }

  // ---- Each step keeps the invariant ---------------------------------------------------------------

  lemma {:induction false} AscendingInterval(pending: set<nat>, i: nat, a: nat, n: nat)
    requires forall k :: k in pending <==> a <= k < n
    ensures Ascending(pending, i, n) == Upto(if i < a then a else i, n)
    decreases n - i
  {
    if i < n {
      AscendingInterval(pending, i + 1, a, n);
    }
  }

  lemma TakeUpto(a: nat, n: nat, k: nat)
    requires a <= n
    ensures Take(Upto(a, n), k) == Upto(a, if a + k < n then a + k else n)
  {
  }

  lemma UptoSplit(a: nat, n: nat)
    requires a < n
    ensures Upto(a, n) == [a] + Upto(a + 1, n) && Upto(0, a + 1) == Upto(0, a) + [a]
  {
  }

  lemma ReadReplay(stream: Stream, t: Topic)
    requires TopicInv(stream, t)
    ensures ReadIndices(t, Replay) ==
            Upto(|t.acked|, if |t.acked| + BATCH < t.delivered then |t.acked| + BATCH else t.delivered)
  {
    AscendingInterval(t.pending, 0, |t.acked|, t.delivered);
    TakeUpto(|t.acked|, t.delivered, BATCH);
  }

  lemma ReadFollow(stream: Stream, t: Topic)
    requires TopicInv(stream, t) && Drained(t)
    ensures |t.acked| == t.delivered
    ensures TopicInv(stream, AfterRead(t, Follow))
    ensures ReadIndices(t, Follow) == Upto(|t.acked|, AfterRead(t, Follow).delivered)
  {
    assert |t.acked| < t.delivered ==> |t.acked| in t.pending;
    hide GoodEntries;
    hide Archived;
    TakeUpto(t.delivered, |t.entries|, BATCH);
    hide Take;
    hide Upto;
    var t', got := AfterRead(t, Follow), ReadIndices(t, Follow);
    forall i ensures i in t'.pending <==> |t.acked| <= i < t'.delivered {
      if |t.acked| <= i < t'.delivered { assert got[i - |t.acked|] == i; }
    }
  }

  lemma ReadKeeps(s: Sys, outcome: Outcome)
    requires Inv(s) && s.phase.Head?
    ensures Inv(Next(s, Read(outcome)))
  {
    hide TopicInv;
    hide ReadIndices;
    var c, s' := s.phase.cursor, Next(s, Read(outcome));
    if c == Replay {
      hide AfterRead;
      assert AfterRead(s.sensor, Replay) == s.sensor && AfterRead(s.control, Replay) == s.control by { AfterReplay(s); }
      ReadReplay(Sensor, s.sensor);
      ReadReplay(Control, s.control);
    } else {
      ReadFollow(Sensor, s.sensor);
      ReadFollow(Control, s.control);
      AfterFollow(s.sensor);
      AfterFollow(s.control);
      hide AfterRead;
    }
    AckedWithin(Sensor, s'.sensor);
    AckedWithin(Control, s'.control);
    if outcome == Success {
      var eS := if c == Follow then s'.sensor.delivered
                else if |s.sensor.acked| + BATCH < s.sensor.delivered then |s.sensor.acked| + BATCH
                else s.sensor.delivered;
      var eC := if c == Follow then s'.control.delivered
                else if |s.control.acked| + BATCH < s.control.delivered then |s.control.acked| + BATCH
                else s.control.delivered;
      assert Todo(s', s'.phase.todo, eS, eC);
      assert BatchInv(s', c, s'.phase.todo, 0);
    }
  }

  lemma AfterReplay(s: Sys)
    ensures AfterRead(s.sensor, Replay) == s.sensor && AfterRead(s.control, Replay) == s.control
  {
  }

  lemma AfterFollow(t: Topic)
    ensures AfterRead(t, Follow).acked == t.acked && AfterRead(t, Follow).entries == t.entries
  {
  }

  lemma AckedWithin(stream: Stream, t: Topic)
    requires TopicInv(stream, t)
    ensures |t.acked| <= t.delivered <= |t.entries|
  {
  }

  /** The head of the work list is the oldest unacknowledged entry of its topic. */
  lemma TodoHead(s: Sys, todo: seq<Item>, eS: nat, eC: nat)
    requires Todo(s, todo, eS, eC) && todo != []
    ensures var it := todo[0]; it.index == |s.At(it.stream).acked| < s.At(it.stream).delivered
    ensures if todo[0].stream == Sensor then |s.sensor.acked| < eS
            else eS == |s.sensor.acked| && |s.control.acked| < eC
  {
  }

  lemma TodoTail(s: Sys, todo: seq<Item>, eS: nat, eC: nat, s': Sys)
    requires Todo(s, todo, eS, eC) && todo != []
    requires var st := todo[0].stream;
      && s' == s.With(st, s'.At(st)).(phase := s'.phase)
      && s'.At(st).acked == s.At(st).acked + [todo[0].index] && s'.At(st).delivered == s.At(st).delivered
    ensures Todo(s', todo[1..], eS, eC)
  {
  }

  /** Steps that leave acknowledgements and deliveries alone leave the work list valid. */
  lemma BatchUnchanged(s: Sys, s': Sys, cursor: Cursor, todo: seq<Item>, n: nat)
    requires BatchInv(s, cursor, todo, n)
    requires s'.sensor.acked == s.sensor.acked && s'.sensor.delivered == s.sensor.delivered
    requires s'.control.acked == s.control.acked && s'.control.delivered == s.control.delivered
    ensures BatchInv(s', cursor, todo, n)
  {
    var eS, eC :| Todo(s, todo, eS, eC) && Reaches(s.sensor, cursor, n, eS) && Reaches(s.control, cursor, n, eC);
    assert Todo(s', todo, eS, eC) && Reaches(s'.sensor, cursor, n, eS) && Reaches(s'.control, cursor, n, eC);
  }

  lemma InsertKeeps(s: Sys, now: int, outcome: Outcome)
    requires Inv(s) && Enabled(s, Insert(now, outcome))
    ensures Inv(Next(s, Insert(now, outcome)))
  {
    hide TopicInv;
    hide RowOf;
    hide Todo;
    hide Reaches;
    var todo, n := s.phase.todo, s.phase.n;
    var it := todo[0];
    var eS, eC :| Todo(s, todo, eS, eC)
      && Reaches(s.sensor, s.phase.cursor, n, eS) && Reaches(s.control, s.phase.cursor, n, eC);
    TodoHead(s, todo, eS, eC);
    StoreRows(it.stream, s.At(it.stream), it.index, now);
    var s' := Next(s, Insert(now, outcome));
    BatchUnchanged(s, s', s.phase.cursor, todo, n);
    hide Store;
    hide BatchInv;
  }

  lemma AcknowledgeKeeps(stream: Stream, t: Topic)
    requires TopicInv(stream, t) && |t.acked| < t.delivered && t.stored == |t.acked| + 1
    ensures TopicInv(stream, Acknowledge(t, |t.acked|))
    ensures Acknowledge(t, |t.acked|).acked == t.acked + [|t.acked|]
  {
    assert |t.acked| in t.pending;
    UptoSplit(|t.acked|, t.delivered);
    hide GoodEntries;
  }

  /** The next message of the same batch. */
  lemma ReachesOn(t: Topic, t': Topic, cursor: Cursor, n: nat, e: nat)
    requires Reaches(t, cursor, n, e) && t'.delivered == t.delivered
    ensures Reaches(t', cursor, n + 1, e)
  {
  }

  lemma AckKeeps(s: Sys, outcome: Outcome)
    requires Inv(s) && Enabled(s, Ack(outcome))
    ensures Inv(Next(s, Ack(outcome)))
  {
    hide TopicInv;
    hide Todo;
    hide Reaches;
    var todo, n := s.phase.todo, s.phase.n;
    var it := todo[0];
    var eS, eC :| Todo(s, todo, eS, eC)
      && Reaches(s.sensor, s.phase.cursor, n, eS) && Reaches(s.control, s.phase.cursor, n, eC);
    TodoHead(s, todo, eS, eC);
    AcknowledgeKeeps(it.stream, s.At(it.stream));
    var s' := Next(s, Ack(outcome));
    assert s'.sensor.delivered == s.sensor.delivered && s'.control.delivered == s.control.delivered;
    hide Acknowledge;
    if outcome == Success {
      assert s' == s.With(it.stream, s'.At(it.stream)).(phase := s'.phase);
      TodoTail(s, todo, eS, eC, s');
      ReachesOn(s.sensor, s'.sensor, s.phase.cursor, n, eS);
      ReachesOn(s.control, s'.control, s.phase.cursor, n, eC);
      assert BatchInv(s', s.phase.cursor, todo[1..], n + 1);
    }
  }

  lemma FinishKeeps(s: Sys)
    requires Inv(s) && Enabled(s, Finish)
    ensures Inv(Next(s, Finish))
  {
  }

  lemma AppendTopic(stream: Stream, t: Topic, e: Entry)
    requires TopicInv(stream, t) && Acceptable(t, e)
    ensures TopicInv(stream, t.(entries := t.entries + [e]))
  {
    var es := t.entries + [e];
    assert es[..t.stored] == t.entries[..t.stored];
    LongerGood(t.entries, e);
    hide GoodEntries;
    hide Acceptable;
    hide Archived;
  }

  lemma AppendKeeps(s: Sys, stream: Stream, e: Entry)
    requires Inv(s) && Enabled(s, Append(stream, e))
    ensures Inv(Next(s, Append(stream, e)))
  {
    AppendTopic(stream, s.At(stream), e);
    hide TopicInv;
    hide Acceptable;
    if s.phase.Inserting? || s.phase.Acking? {
      BatchUnchanged(s, Next(s, Append(stream, e)), s.phase.cursor, s.phase.todo, s.phase.n);
    }
    hide BatchInv;
  }

  lemma LongerGood(es: seq<Entry>, e: Entry)
    requires GoodEntries(es) && FitsUint64(e.id)
    requires es != [] ==> Before(es[|es|-1].id, e.id)
    ensures GoodEntries(es + [e])
  {
  }

  lemma StepKeeps(s: Sys, a: Action)
    requires Inv(s) && Enabled(s, a)
    ensures Inv(Next(s, a))
  {
    match a
    case Append(stream, e) => AppendKeeps(s, stream, e);
    case Read(outcome) => ReadKeeps(s, outcome);
    case Insert(now, outcome) => InsertKeeps(s, now, outcome);
    case Ack(outcome) => AckKeeps(s, outcome);
    case Finish => FinishKeeps(s);
    case Crash => hide TopicInv;
  }

  lemma {:induction false} RunKeeps(s: Sys, acts: seq<Action>)
    requires Inv(s) && CanRun(s, acts)
    ensures Inv(Exec(s, acts))
  {
    hide Inv;
    hide Next;
    hide Enabled;
    if acts != [] {
      RunKeeps(s, acts[..|acts|-1]);
      StepKeeps(Exec(s, acts[..|acts|-1]), acts[|acts|-1]);
    }
  }

  // ---- What is promised --------------------------------------------------------------------------

  lemma InitialInv()
    ensures Inv(INITIAL)
  {
  }

  /** At every point of every run, through failures, ambiguous outcomes and crashes: entries are
      acknowledged in order and only after they are stored. Each well-formed entry among the first
      `stored` has a row, a stable one exactly one, and there are no other rows; so if all of them are
      stable the table holds one row for each and nothing else. */
  lemma ExactlyOnce(acts: seq<Action>, stream: Stream)
    requires CanRun(INITIAL, acts)
    ensures var t := Exec(INITIAL, acts).At(stream);
      && |t.acked| <= t.stored <= |t.acked| + 1 && t.stored <= |t.entries|
      && t.acked == Upto(0, |t.acked|)
      && Archived(stream, t.entries[..t.stored], t.table)
      && (forall i :: 0 <= i < t.stored && WellFormed(stream, t.entries[i]) && Stable(t.entries[i]) ==>
            OnlyRow(t.entries[i], t.table, RowOf(stream, t.entries[i], 0).value))
      && (AllStable(stream, t.entries[..t.stored]) ==> OneRowEach(stream, t.entries[..t.stored], t.table))
  {
    InitialInv();
    RunKeeps(INITIAL, acts);
    hide CanRun;
    hide Exec;
    var t := Exec(INITIAL, acts).At(stream);
    assert TopicInv(stream, t);
    StoredExactly(stream, t);
  }

  lemma StoredExactly(stream: Stream, t: Topic)
    requires TopicInv(stream, t)
    ensures forall i :: 0 <= i < t.stored && WellFormed(stream, t.entries[i]) && Stable(t.entries[i]) ==>
              OnlyRow(t.entries[i], t.table, RowOf(stream, t.entries[i], 0).value)
    ensures AllStable(stream, t.entries[..t.stored]) ==> OneRowEach(stream, t.entries[..t.stored], t.table)
  {
    var es := t.entries[..t.stored];
    GoodPrefix(t.entries, t.stored);
    hide GoodEntries;
    hide Stable;
    hide RowOf;
    hide Archived;
    hide OneRowEach;
    hide OnlyRow;
    forall i | 0 <= i < t.stored && WellFormed(stream, t.entries[i]) && Stable(t.entries[i])
      ensures OnlyRow(t.entries[i], t.table, RowOf(stream, t.entries[i], 0).value)
    {
      assert es[i] == t.entries[i];
      StableOnlyRow(stream, es, i, t.table);
    }
    if AllStable(stream, es) {
      ArchivedIsRows(stream, es, t.table);
      RowsExact(stream, es);
    }
  }

  /** Nothing written is ever changed or removed. */
  ghost predicate RowsKept(m: Table, m': Table) { forall k :: k in m ==> k in m' && m'[k] == m[k] }

  /** The archived prefix and the streams never shrink, and rows stay as they are. */
  lemma StoredMonotone(s: Sys, a: Action, stream: Stream)
    requires Enabled(s, a)
    ensures var t, t' := s.At(stream), Next(s, a).At(stream);
      t.stored <= t'.stored && t.entries <= t'.entries && t.acked <= t'.acked && RowsKept(t.table, t'.table)
  {
    hide RowOf;
    hide ReadIndices;
    hide KeyOf;
  }

  lemma {:induction false} PrefixNeverShrinks(s: Sys, acts: seq<Action>, stream: Stream)
    requires CanRun(s, acts)
    ensures var t, t' := s.At(stream), Exec(s, acts).At(stream);
      t.stored <= t'.stored && t.entries <= t'.entries && t.acked <= t'.acked && RowsKept(t.table, t'.table)
  {
    hide Next;
    hide Enabled;
    if acts != [] {
      PrefixNeverShrinks(s, acts[..|acts|-1], stream);
      StoredMonotone(Exec(s, acts[..|acts|-1]), acts[|acts|-1], stream);
    }
  }

  /** The consumer follows new entries only when it has nothing pending in either stream. */
  lemma CursorSound(acts: seq<Action>)
    requires CanRun(INITIAL, acts)
    ensures var s := Exec(INITIAL, acts);
      s.phase == Head(Follow) ==> s.sensor.pending == {} && s.control.pending == {}
  {
    InitialInv();
    RunKeeps(INITIAL, acts);
  }
}
