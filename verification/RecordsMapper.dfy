/** Rows into records (packages/engine/src/read/records.mapper.ts). */
module RecordsMapper {
  import opened Outcomes
  import opened Definitions
  import opened Statements

  /** How the driver's values become JSON: one for a field's own value, one for
      a label, one for a key. None of them is ever given a null. */
  datatype Driver = Driver(
    value: (FieldType, Value) -> Value,
    name: (FieldType, Value) -> Value,
    id: Value -> Value)

  /** A relation carries the key it holds and what to read in its place. */
  datatype RecordValue = Plain(value: Value) | Pointer(id: Value, name: Value)

  datatype Record = Record(id: Value, values: map<Key, RecordValue>)

  function ToValue(d: Driver, kind: FieldType, raw: Value): Value {
    if raw == Null then Null else d.value(kind, raw)
  }

  function ToName(d: Driver, kind: FieldType, raw: Value): Value {
    if raw == Null then Null else d.name(kind, raw)
  }

  function ToId(d: Driver, raw: Value): Value {
    if raw == Null then Null else d.id(raw)
  }

  function Column(row: OutRow, alias: Alias): Value {
    if alias in row then row[alias] else Null
  }

  /** What one more entry makes of a record's values. */
  function Entered(d: Driver, values: map<Key, RecordValue>, entry: Entry, row: OutRow): map<Key, RecordValue> {
    var raw := Column(row, entry.alias);
    if entry.isLabel then
      if entry.key in values && values[entry.key].Pointer? then
        values[entry.key := Pointer(values[entry.key].id, ToName(d, entry.field.kind, raw))]
      else values
    else if entry.field.kind.Relation? then values[entry.key := Pointer(ToId(d, raw), Null)]
    else values[entry.key := Plain(ToValue(d, entry.field.kind, raw))]
  }

  function Decoded(d: Driver, entries: seq<Entry>, row: OutRow): map<Key, RecordValue> {
    if entries == [] then map[]
    else Entered(d, Decoded(d, entries[..|entries| - 1], row), entries[|entries| - 1], row)
  }

  function IdentityEntry(entries: seq<Entry>, key: Key): (found: Option<Entry>)
    ensures found.Some? ==> found.value in entries && !found.value.isLabel && found.value.key == key
    ensures found.None? ==> forall e :: e in entries ==> e.isLabel || e.key != key
  {
    if entries == [] then None
    else if !entries[0].isLabel && entries[0].key == key then Some(entries[0])
    else IdentityEntry(entries[1..], key)
  }

  function DecodedRow(d: Driver, entries: seq<Entry>, identity: Entry, row: OutRow): Outcome<Record> {
    var id := Column(row, identity.alias);
    if id == Null then Err(Bug) else Ok(Record(ToId(d, id), Decoded(d, entries, row)))
  }

  function DecodedRows(d: Driver, entries: seq<Entry>, identity: Entry, rows: seq<OutRow>): Outcome<seq<Record>> {
    if rows == [] then Ok([])
    else
      var init :- DecodedRows(d, entries, identity, rows[..|rows| - 1]);
      var last :- DecodedRow(d, entries, identity, rows[|rows| - 1]);
      Ok(init + [last])
  }

  function RecordDtos(d: Driver, entries: seq<Entry>, identityKey: Key, rows: seq<OutRow>): Outcome<seq<Record>> {
    var identity := IdentityEntry(entries, identityKey);
    if identity.None? then Err(Bug) else DecodedRows(d, entries, identity.value, rows)
  }

  method ToRecordDtos(d: Driver, entries: seq<Entry>, identityKey: Key, rows: seq<OutRow>)
    returns (r: Outcome<seq<Record>>)
    ensures r == RecordDtos(d, entries, identityKey, rows)
  {
    var identity := IdentityEntry(entries, identityKey);
    if identity.None? {
      return Err(Bug);
    }
    var records: seq<Record> := [];
    for i := 0 to |rows|
      invariant DecodedRows(d, entries, identity.value, rows[..i]) == Ok(records)
    {
      assert rows[..i + 1][..i] == rows[..i];
      var id := Column(rows[i], identity.value.alias);
      if id == Null {
        DecodingFailsEarly(d, entries, identity.value, rows, i + 1);
        return Err(Bug);
      }
      var values: map<Key, RecordValue> := map[];
      for k := 0 to |entries|
        invariant values == Decoded(d, entries[..k], rows[i])
      {
        assert entries[..k + 1][..k] == entries[..k];
        values := Entered(d, values, entries[k], rows[i]);
      }
      assert entries[..|entries|] == entries;
      records := records + [Record(ToId(d, id), values)];
    }
    assert rows[..|rows|] == rows;
    return Ok(records);
  }

  lemma {:induction false} DecodingFailsEarly(d: Driver, entries: seq<Entry>, identity: Entry, rows: seq<OutRow>, n: nat)
    requires n <= |rows|
    requires DecodedRows(d, entries, identity, rows[..n]).Err?
    ensures DecodedRows(d, entries, identity, rows) == DecodedRows(d, entries, identity, rows[..n])
    decreases |rows|
  {
    if n == |rows| {
      assert rows[..n] == rows;
    } else {
      var init := rows[..|rows| - 1];
      assert init[..n] == rows[..n];
      DecodingFailsEarly(d, entries, identity, init, n);
    }
  }

  /** Rows decode one at a time, whenever every one of them decodes. */
  lemma {:induction false} DecodesEach(d: Driver, entries: seq<Entry>, identity: Entry, rows: seq<OutRow>, records: seq<Record>)
    requires |records| == |rows|
    requires forall i :: 0 <= i < |rows| ==> DecodedRow(d, entries, identity, rows[i]) == Ok(records[i])
    ensures DecodedRows(d, entries, identity, rows) == Ok(records)
  {
    if rows != [] {
      var n := |rows| - 1;
      DecodesEach(d, entries, identity, rows[..n], records[..n]);
      assert records == records[..n] + [records[n]];
    }
  }

  /** The decoded values of a row, for the keys wanted and no others. */
  function FieldValues(d: Driver, entries: seq<Entry>, keys: set<Key>, row: OutRow): map<Key, Value> {
    if entries == [] then map[]
    else
      var last := entries[|entries| - 1];
      var init := FieldValues(d, entries[..|entries| - 1], keys, row);
      if last.isLabel || last.key !in keys then init
      else init[last.key := ToValue(d, last.field.kind, Column(row, last.alias))]
  }

  method ToFieldValues(d: Driver, entries: seq<Entry>, keys: set<Key>, rows: seq<OutRow>)
    returns (values: map<Key, Value>)
    ensures values == if rows == [] then map[] else FieldValues(d, entries, keys, rows[0])
  {
    values := map[];
    if rows == [] {
      return;
    }
    for k := 0 to |entries|
      invariant values == FieldValues(d, entries[..k], keys, rows[0])
    {
      assert entries[..k + 1][..k] == entries[..k];
      var entry := entries[k];
      if entry.isLabel || entry.key !in keys { continue; }
      values := values[entry.key := ToValue(d, entry.field.kind, Column(rows[0], entry.alias))];
    }
    assert entries[..|entries|] == entries;
  }
}
