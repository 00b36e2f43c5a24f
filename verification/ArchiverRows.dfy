/** What the rows of both tables hold, entry by entry, in terms of the stream entries alone. */
module ArchiverRows {
  import opened Prelude
  import opened Numerals
  import opened Telemetry
  import opened Archiver
  import opened ArchiverSafety

  /** The field is there and holds a decimal numeral of 64 signed bits. */
  ghost predicate Int64Field(fields: map<string, string>, k: string, v: int) {
    k in fields && Numeral(fields[k], v) && -0x8000_0000_0000_0000 <= v <= 0x7FFF_FFFF_FFFF_FFFF
  }

  /** The row's time is the producer's if that is a number, and otherwise that of the entry ID if it fits. */
  ghost predicate Timed(e: Entry, ts: int) {
    && (forall v :: Int64Field(e.fields, "ts_ms", v) ==> ts == v)
    && ((forall v :: !Int64Field(e.fields, "ts_ms", v)) && e.id.ms <= 0x7FFF_FFFF_FFFF_FFFF ==> ts == e.id.ms)
  }

  ghost predicate SensorRowOf(e: Entry, row: Row) {
    && row.SensorRow? && e.value == Some(row.reading) && Timed(e, row.ts) && row.eventId == Render(e.id)
    && row.metric == (if "metric" in e.fields then e.fields["metric"] else "")
    && (forall v :: Int64Field(e.fields, "node", v) ==> row.node == v)
    && ("node" !in e.fields ==> row.node == 0)
  }

  ghost predicate ControlRowOf(e: Entry, row: Row) {
    && row.ControlRow? && "action" in e.fields && row.action == e.fields["action"] && row.detail == e.fields
    && Timed(e, row.ts) && row.eventId == Render(e.id)
    && (forall v :: row.diff == Some(v) <==> Int64Field(e.fields, "diff_centi", v))
  }

  /** A control entry is archived if it says what was done, a sensor entry if its value is a number. */
  predicate Archivable(stream: Stream, e: Entry) {
    match stream
    case Sensor => e.value.Some?
    case Control => "action" in e.fields && e.fields["action"] != ""
  }

  ghost predicate Carries(stream: Stream, e: Entry, row: Row) {
    if stream == Sensor then SensorRowOf(e, row) else ControlRowOf(e, row)
  }

  lemma FieldNumber(fields: map<string, string>, k: string)
    ensures forall v :: ParseInt(Field(fields, k)) == Good(v) <==> Int64Field(fields, k, v)
  {
    hide ParseInt;
    hide Numeral;
    forall v ensures ParseInt(Field(fields, k)) == Good(v) <==> Int64Field(fields, k, v) {
      ParseIntIff(Field(fields, k), v);
      NothingIsNoNumeral(v);
    }
  }

  lemma RowTimed(e: Entry, now: int)
    requires FitsUint64(e.id)
    ensures Timed(e, Timestamp(Render(e.id), e.fields, now))
  {
    FieldNumber(e.fields, "ts_ms");
    RenderParses(e.id);
    hide ParseInt;
    hide Render;
    hide IdMillis;
    hide Int64Field;
    var p := ParseInt(Field(e.fields, "ts_ms"));
    if p.Good? { assert Int64Field(e.fields, "ts_ms", p.value); }
  }

  lemma RowContent(stream: Stream, e: Entry, now: int)
    requires FitsUint64(e.id)
    ensures RowOf(stream, e, now).Some? <==> Archivable(stream, e)
    ensures RowOf(stream, e, now).Some? ==> Carries(stream, e, RowOf(stream, e, now).value)
  {
    RowTimed(e, now);
    FieldNumber(e.fields, "node");
    FieldNumber(e.fields, "diff_centi");
    assert ParseInt("") == Malformed;
    hide ParseInt;
    hide Timestamp;
    hide Render;
    hide Int64Field;
    hide Timed;
  }

  /** Every row of a table carries a stored entry. */
  ghost predicate RowsCarry(stream: Stream, es: seq<Entry>, m: Table) {
    forall k :: k in m ==> k == (m[k].eventId, m[k].ts) && CarriesOneOf(stream, es, m[k])
  }

  ghost predicate CarriesOneOf(stream: Stream, es: seq<Entry>, row: Row) {
    exists i :: 0 <= i < |es| && Carries(stream, es[i], row)
  }

  lemma ArchivedCarries(stream: Stream, es: seq<Entry>, m: Table)
    requires GoodEntries(es) && Archived(stream, es, m)
    ensures RowsCarry(stream, es, m)
    ensures forall i :: 0 <= i < |es| ==> (HasRow(es[i], m) <==> Archivable(stream, es[i]))
  {
    hide RowOf;
    hide Carries;
    hide Archivable;
    forall k | k in m ensures k == (m[k].eventId, m[k].ts) && CarriesOneOf(stream, es, m[k]) {
      var i :| 0 <= i < |es| && MadeOf(stream, es[i], k, m[k]);
      var now :| RowOf(stream, es[i], now) == Some(m[k]);
      RowContent(stream, es[i], now);
    }
    forall i | 0 <= i < |es| ensures HasRow(es[i], m) <==> Archivable(stream, es[i]) {
      RowContent(stream, es[i], 0);
      if HasRow(es[i], m) {
        var k :| k in m && k.0 == Render(es[i].id);
        var j :| 0 <= j < |es| && MadeOf(stream, es[j], k, m[k]);
        var now :| RowOf(stream, es[j], now) == Some(m[k]);
        SameSource(stream, es, i, j, now);
        RowContent(stream, es[j], now);
      }
    }
  }

  /** In every run, at every point of it, whatever failed: each stored control entry has a row exactly if
      it has a nonempty action, and each stored sensor entry exactly if its value is a number; and every
      row carries the time, the ID and the fields of a stored entry. */
  lemma RowsCarryEntries(acts: seq<Action>, stream: Stream)
    requires CanRun(INITIAL, acts)
    ensures var t := Exec(INITIAL, acts).At(stream);
      && t.stored <= |t.entries|
      && RowsCarry(stream, t.entries[..t.stored], t.table)
      && forall i :: 0 <= i < t.stored ==>
           ((exists k :: k in t.table && k.0 == Render(t.entries[i].id)) <==> Archivable(stream, t.entries[i]))
  {
    InitialInv();
    RunKeeps(INITIAL, acts);
    hide CanRun;
    hide Exec;
    var t := Exec(INITIAL, acts).At(stream);
    assert TopicInv(stream, t);
    var es := t.entries[..t.stored];
    GoodPrefix(t.entries, t.stored);
    ArchivedCarries(stream, es, t.table);
    hide Archived;
    hide GoodEntries;
    hide RowsCarry;
    hide Archivable;
    forall i | 0 <= i < t.stored
      ensures (exists k :: k in t.table && k.0 == Render(t.entries[i].id)) <==> Archivable(stream, t.entries[i])
    {
      assert es[i] == t.entries[i];
      assert HasRow(es[i], t.table) <==> Archivable(stream, es[i]);
    }
  }
}
