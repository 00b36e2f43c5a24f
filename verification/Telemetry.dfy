/** Stream entries and the table rows that the archiver makes of them. */
module Telemetry {
  import opened Prelude
  import opened Numerals

  datatype Stream = Sensor | Control

  /** A stream entry ID: unsigned milliseconds and a sequence number. */
  datatype Id = Id(ms: nat, num: nat)

  /** A double, as the value column holds it. */
  datatype Float = NotANumber | Infinite(negative: bool) | Finite(value: real)

  /** An entry; `value` is what parsing its field "value" as a float gives, if it parses. */
  datatype Entry = Entry(id: Id, fields: map<string, string>, value: Option<Float>)

  datatype Row =
    | SensorRow(ts: int, node: int, metric: string, reading: Float, eventId: string)
    | ControlRow(ts: int, action: string, diff: Option<int>, detail: map<string, string>, eventId: string)

  /** The unique key of both tables. */
  type Key = (string, int)

  type Table = map<Key, Row>

  function Render(id: Id): string { Digits(id.ms) + "-" + Digits(id.num) }

  predicate FitsUint64(id: Id) { id.ms <= MAX_UINT64 && id.num <= MAX_UINT64 }

  predicate Before(a: Id, b: Id) { a.ms < b.ms || (a.ms == b.ms && a.num < b.num) }

  function Field(fields: map<string, string>, k: string): string {
    if k in fields then fields[k] else ""
  }

  /** The milliseconds in the part of an entry ID before its dash, if there is such a part. */
  function IdMillis(id: string): Parsed {
    var i := IndexOf(id, '-');
    if i > 0 then ParseInt(id[..i]) else Malformed
  }

  /** The timestamp of a row: the producer's, else the entry ID's, else the clock. */
  function Timestamp(id: string, fields: map<string, string>, now: int): int {
    if ParseInt(Field(fields, "ts_ms")).Good? then ParseInt(Field(fields, "ts_ms")).value
    else if IdMillis(id).Good? then IdMillis(id).value
    else now
  }

  /** The row for an entry, or none if the entry is malformed and dropped. */
  function RowOf(stream: Stream, e: Entry, now: int): Option<Row> {
    var id := Render(e.id);
    var ts := Timestamp(id, e.fields, now);
    match stream
    case Sensor =>
      if e.value.None? then None
      else Some(SensorRow(ts, ParseInt(Field(e.fields, "node")).ValueOrZero(),
                          Field(e.fields, "metric"), e.value.value, id))
    case Control =>
      if Field(e.fields, "action") == "" then None
      else
        var d := ParseInt(Field(e.fields, "diff_centi"));
        Some(ControlRow(ts, Field(e.fields, "action"), if d.Good? then Some(d.value) else None, e.fields, id))
  }

  /** Malformed entries are dropped, at whatever time. */
  predicate WellFormed(stream: Stream, e: Entry) { RowOf(stream, e, 0).Some? }

  function KeyOf(row: Row): Key { (row.eventId, row.ts) }

  /** Insert that does nothing on a conflict. */
  function InsertRow(table: Table, row: Row): Table {
    if KeyOf(row) in table then table else table[KeyOf(row) := row]
  }

  /** The timestamp does not depend on when the entry is processed. */
  predicate Stable(e: Entry) {
    ParseInt(Field(e.fields, "ts_ms")).Good? || e.id.ms <= MAX_INT64
  }

  lemma RenderParses(id: Id)
    requires FitsUint64(id)
    ensures IdMillis(Render(id)) == if id.ms <= MAX_INT64 then Good(id.ms) else OutOfRange(MAX_INT64)
  {
    DigitsAreDigits(id.ms);
    IndexAfter(Digits(id.ms), Digits(id.num), '-');
    assert Render(id)[..|Digits(id.ms)|] == Digits(id.ms);
    ParseDigits(id.ms);
  }

  /** Distinct entry IDs print differently. */
  lemma RenderInjective(a: Id, b: Id)
    requires FitsUint64(a) && FitsUint64(b) && Render(a) == Render(b)
    ensures a == b
  {
    DigitsAreDigits(a.ms);
    DigitsAreDigits(b.ms);
    IndexAfter(Digits(a.ms), Digits(a.num), '-');
    IndexAfter(Digits(b.ms), Digits(b.num), '-');
    var n := |Digits(a.ms)|;
    assert Render(a)[..n] == Digits(a.ms) && Render(b)[..n] == Digits(b.ms);
    assert Render(a)[n+1..] == Digits(a.num) && Render(b)[n+1..] == Digits(b.num);
    DigitsInjective(a.ms, b.ms);
    DigitsInjective(a.num, b.num);
  }

  /** A replay picks the same timestamp exactly for the stable entries. */
  lemma TimestampStableIff(e: Entry)
    requires FitsUint64(e.id)
    ensures Stable(e) <==>
            forall t1, t2 :: Timestamp(Render(e.id), e.fields, t1) == Timestamp(Render(e.id), e.fields, t2)
  {
    RenderParses(e.id);
    hide ParseInt;
    hide IdMillis;
    if !Stable(e) {
      assert Timestamp(Render(e.id), e.fields, 0) != Timestamp(Render(e.id), e.fields, 1);
    }
  }

  lemma RowStable(stream: Stream, e: Entry, now: int)
    requires FitsUint64(e.id) && Stable(e)
    ensures RowOf(stream, e, now) == RowOf(stream, e, 0)
  {
    TimestampStableIff(e);
    hide Stable;
    assert Timestamp(Render(e.id), e.fields, now) == Timestamp(Render(e.id), e.fields, 0);
    hide Timestamp;
  }

  /** Processing a well-formed entry again is harmless, at whatever times, exactly if it is stable. */
  lemma ReplayIdempotentIff(stream: Stream, e: Entry)
    requires FitsUint64(e.id) && WellFormed(stream, e)
    ensures Stable(e) <==>
            forall table: Table, t1, t2 ::
              var once := InsertRow(table, RowOf(stream, e, t1).value);
              InsertRow(once, RowOf(stream, e, t2).value) == once
  {
    hide ParseInt;
    if Stable(e) {
      forall table: Table, t1, t2
        ensures var once := InsertRow(table, RowOf(stream, e, t1).value);
                InsertRow(once, RowOf(stream, e, t2).value) == once
      {
        RowStable(stream, e, t1);
        RowStable(stream, e, t2);
      }
    } else {
      TimestampStableIff(e);
      hide Stable;
      var t1, t2 :| Timestamp(Render(e.id), e.fields, t1) != Timestamp(Render(e.id), e.fields, t2);
      hide Timestamp;
      var table: Table := map[];
      var once := InsertRow(table, RowOf(stream, e, t1).value);
      assert KeyOf(RowOf(stream, e, t2).value) !in once;
      assert InsertRow(once, RowOf(stream, e, t2).value) != once;
    }
  }
}
