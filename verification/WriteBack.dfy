/** What a write does and what it says it did: the record it answers with and the
    two readings it accounts for are the named row's
    (packages/engine/src/query/write-statements.ts:90-189). */
module WriteBack {
  import opened Outcomes
  import opened Definitions
  import opened Statements
  import opened Columns
  import opened RecordValues
  import opened WriteStatements
  import opened RecordsMapper
  import opened Meaning
  import opened Joins
  import opened Openness
  import opened Blindness
  import Paging

  // --------------------------------------------------------- the changed row

  /** Two rows that hold the same in every column. */
  ghost predicate SameRow(a: Row, b: Row) {
    forall k :: Cell(a, k) == Cell(b, k)
  }

  /** What an assignment list puts in a column: the last word on it, or nothing. */
  function Put(assignments: seq<Assignment>, k: Key): Option<Value> {
    if assignments == [] then None
    else
      var last := assignments[|assignments| - 1];
      if last.field.key == k then Some(last.value) else Put(assignments[..|assignments| - 1], k)
  }

  lemma {:induction false} PutOrLeft(row: Row, assignments: seq<Assignment>, values: seq<Value>, k: Key)
    requires ValuesOf(assignments) <= values
    ensures Cell(Assigned(row, KeysOf(assignments), SlotsFor(|assignments|), values), k) ==
            match Put(assignments, k) case Some(v) => v case None => Cell(row, k)
    decreases |assignments|
  {
    if assignments != [] {
      var n := |assignments| - 1;
      var init := assignments[..n];
      assert KeysOf(assignments)[..n] == KeysOf(init) && SlotsFor(n + 1)[..n] == SlotsFor(n);
      assert ValuesOf(init) == ValuesOf(assignments)[..n];
      PutOrLeft(row, init, values, k);
      assert Bound(values, n + 1) == ValuesOf(assignments)[n];
    }
  }

  lemma {:induction false} PutExactlyTheAssigned(assignments: seq<Assignment>, k: Key)
    ensures Put(assignments, k).Some? <==> exists a :: a in assignments && a.field.key == k
    ensures Put(assignments, k).Some? ==> Assigning(assignments, k, Put(assignments, k).value)
  {
    if assignments != [] {
      var n := |assignments| - 1;
      assert assignments == assignments[..n] + [assignments[n]];
      PutExactlyTheAssigned(assignments[..n], k);
    }
  }

  ghost predicate Assigning(assignments: seq<Assignment>, k: Key, v: Value) {
    exists a :: a in assignments && a.field.key == k && a.value == v
  }

  /** A row with its assigned columns put and every other left. */
  ghost predicate Becomes(before: Row, assignments: seq<Assignment>, after: Row) {
    forall k :: Cell(after, k) == match Put(assignments, k) case Some(v) => v case None => Cell(before, k)
  }

  /** The tables after an update: one table's rows, each in its place; the row
      the key names has its assigned columns put, and no other row is touched. */
  ghost predicate Updates(before: seq<Row>, key: Key, id: Value, assignments: seq<Assignment>, after: seq<Row>) {
    && |after| == |before|
    && (forall i :: 0 <= i < |before| && Same(Cell(before[i], key), id) ==> Becomes(before[i], assignments, after[i]))
    && (forall i :: 0 <= i < |before| && !Same(Cell(before[i], key), id) ==> after[i] == before[i])
  }

  lemma UpdateChangesTheNamedRow(
    resources: Resources, r: Resource, assignments: seq<Assignment>, id: Value, db: Database, t: Key)
    requires CompiledUpdate(resources, r, assignments, id).Ok?
    ensures var q := CompiledUpdate(resources, r, assignments, id).value;
            var after := Execute(db, q.statement, q.values, map[]).0;
            if t == r.table
            then Updates(RowsOf(db, t), r.primaryKey, id, assignments, RowsOf(after, t))
            else RowsOf(after, t) == RowsOf(db, t)
  {
    hide Selected, RefuseUnwritable, ReturningList, Values, Updates, Changed;
    FieldsIndexed(r.fields);
    var q := CompiledUpdate(resources, r, assignments, id).value;
    TablesAfter(db, q.statement, q.values, map[], t);
    hide Execute;
    if t == r.table {
      assert q.values == ValuesOf(assignments) + [id] && ValuesOf(assignments) <= q.values;
      assert Bound(q.values, q.statement.keySlot) == id;
      hide CompiledUpdate;
      ChangedRows(RowsOf(db, t), q.statement, q.values, id, assignments);
    }
  }

  lemma ChangedRows(rows: seq<Row>, w: Write, values: seq<Value>, id: Value, assignments: seq<Assignment>)
    requires w.Update? && w.columns == KeysOf(assignments) && w.slots == SlotsFor(|assignments|)
    requires ValuesOf(assignments) <= values && Bound(values, w.keySlot) == id
    ensures Updates(rows, w.identity, id, assignments, Changed(rows, w, values))
  {
    hide Assigned, Put, Becomes, Bound;
    forall i | 0 <= i < |rows| && Same(Cell(rows[i], w.identity), id)
      ensures Becomes(rows[i], assignments, Changed(rows, w, values)[i])
    {
      PutsEach(rows[i], assignments, values);
    }
  }

  lemma PutsEach(row: Row, assignments: seq<Assignment>, values: seq<Value>)
    requires ValuesOf(assignments) <= values
    ensures Becomes(row, assignments, Assigned(row, KeysOf(assignments), SlotsFor(|assignments|), values))
  {
    hide Assigned, Put;
    forall k
      ensures Cell(Assigned(row, KeysOf(assignments), SlotsFor(|assignments|), values), k) ==
              match Put(assignments, k) case Some(v) => v case None => Cell(row, k)
    {
      PutOrLeft(row, assignments, values, k);
    }
  }

  /** An update whose key names no row leaves every table as it was. */
  lemma AnUpdateOfNothingChangesNothing(
    resources: Resources, r: Resource, assignments: seq<Assignment>, id: Value, db: Database, t: Key)
    requires CompiledUpdate(resources, r, assignments, id).Ok?
    requires forall i :: 0 <= i < |RowsOf(db, r.table)| ==> !Same(Cell(RowsOf(db, r.table)[i], r.primaryKey), id)
    ensures var q := CompiledUpdate(resources, r, assignments, id).value;
      && RowsOf(Execute(db, q.statement, q.values, map[]).0, t) == RowsOf(db, t)
      && Execute(db, q.statement, q.values, map[]).1 == []
  {
    assert CompiledUpdate(resources, r, assignments, id).value.statement.table == r.table;
    hide Execute, CompiledUpdate, Written;
    UpdateChangesTheNamedRow(resources, r, assignments, id, db, t);
    var q := CompiledUpdate(resources, r, assignments, id).value;
    NothingIsWritten(resources, r, assignments, id, RowsOf(db, r.table));
    NothingAnswers(db, q.statement, q.values);
  }

  lemma NothingAnswers(db: Database, w: Write, values: seq<Value>)
    requires w.Update? && |w.columns| == |w.slots| && Written(RowsOf(db, w.table), w, values) == []
    ensures Execute(db, w, values, map[]).1 == []
  {
    hide Written, Matching, Changed;
    assert Alone([]) == [];
    NoRowsNoJoins(db, w.joins);
    assert ProjectEach([], w.items) == [];
  }

  lemma NothingIsWritten(resources: Resources, r: Resource, assignments: seq<Assignment>, id: Value, rows: seq<Row>)
    requires CompiledUpdate(resources, r, assignments, id).Ok?
    requires forall i :: 0 <= i < |rows| ==> !Same(Cell(rows[i], r.primaryKey), id)
    ensures var q := CompiledUpdate(resources, r, assignments, id).value;
            Written(rows, q.statement, q.values) == []
  {
    hide Selected, RefuseUnwritable, ReturningList, Values;
    FieldsIndexed(r.fields);
    var q := CompiledUpdate(resources, r, assignments, id).value;
    assert q.statement.identity == r.primaryKey && Bound(q.values, q.statement.keySlot) == id;
    NoneWritten(rows, q.statement, q.values);
  }

  lemma {:induction false} NoneWritten(rows: seq<Row>, w: Write, values: seq<Value>)
    requires w.Update? && |w.columns| == |w.slots|
    requires forall i :: 0 <= i < |rows| ==> !Same(Cell(rows[i], w.identity), Bound(values, w.keySlot))
    ensures Written(rows, w, values) == []
  {
    if rows != [] {
      NoneWritten(rows[1..], w, values);
    }
  }

  lemma {:induction false} NoRowsNoJoins(db: Database, joins: seq<Join>)
    ensures JoinAll(db, [], joins) == []
    decreases |joins|
  {
    if joins != [] {
      NoRowsNoJoins(db, joins[1..]);
    }
  }

  // ------------------------------------------------- the one row that answers

  /** With a unique key, the named row and no other is written. */
  lemma {:induction false} OneIsWritten(rows: seq<Row>, w: Write, values: seq<Value>, i: nat)
    requires w.Update? && |w.columns| == |w.slots|
    requires Unique(rows, w.identity) && i < |rows| && Same(Cell(rows[i], w.identity), Bound(values, w.keySlot))
    ensures Written(rows, w, values) == [Returned(Assigned(rows[i], w.columns, w.slots, values), w.returning)]
    ensures Matching(rows, w.identity, Bound(values, w.keySlot)) == [rows[i]]
  {
    hide Assigned, Returned;
    if i == 0 {
      NoneWritten(rows[1..], w, values);
      NoneMatch(rows[1..], w.identity, Bound(values, w.keySlot));
    } else {
      OneIsWritten(rows[1..], w, values, i - 1);
    }
  }

  /** The row a write answers with: what it wrote, labelled by the tables as
      they stood, beside what it replaced. */
  function Answered(db: Database, w: Write, values: seq<Value>, row: Row): OutRow
    requires w.Update? && |w.columns| == |w.slots|
  {
    var written := Returned(Assigned(row, w.columns, w.slots, values), w.returning);
    Project(Env(written, Found(db, written, w.joins)), w.items) + Project(Env(row, []), w.before)
  }

  lemma OneRowAnswers(db: Database, w: Write, values: seq<Value>, i: nat)
    requires w.Update? && |w.columns| == |w.slots|
    requires var rows := RowsOf(db, w.table);
      && Unique(rows, w.identity) && i < |rows| && Same(Cell(rows[i], w.identity), Bound(values, w.keySlot))
    requires JoinsKeys(w.joins, db)
    ensures Execute(db, w, values, map[]).1 == [Answered(db, w, values, RowsOf(db, w.table)[i])]
  {
    hide Assigned, Returned, Unique, Found, JoinsKeys, Project;
    var rows := RowsOf(db, w.table);
    OneIsWritten(rows, w, values, i);
    var written := Returned(Assigned(rows[i], w.columns, w.slots, values), w.returning);
    RowsAreLabelled(db, [written], w.joins);
    assert Labelled(db, [written], w.joins) == [Env(written, Found(db, written, w.joins))];
    assert Alone([rows[i]]) == [Env(rows[i], [])];
    hide Written, Matching, JoinAll;
    var left := Project(Env(written, Found(db, written, w.joins)), w.items);
    var right := Project(Env(rows[i], []), w.before);
    OneEach(Env(written, Found(db, written, w.joins)), w.items);
    OneEach(Env(rows[i], []), w.before);
    OnePair(left, right);
  }

  lemma OneEach(env: Env, items: seq<Item>)
    ensures ProjectEach([env], items) == [Project(env, items)]
  {
    assert [env][1..] == [];
  }

  lemma OnePair(left: OutRow, right: OutRow)
    ensures CrossJoin([left], [right]) == [left + right]
  {
    assert [left][1..] == [];
    assert PairWith(left, [right]) == [left + right];
  }

  // --------------------------------------------------- the record it answers

  lemma {:induction false} ShownReadsItsOwn(
    d: Driver, db: Database, resources: Resources, a: Row, b: Row, fields: seq<Field>)
    requires forall f :: f in fields && !f.sensitive ==> Cell(a, f.key) == Cell(b, f.key)
    ensures Shown(d, db, resources, a, fields) == Shown(d, db, resources, b, fields)
  {
    if fields != [] {
      hide NameOf, LabelField;
      var init, last := fields[..|fields| - 1], fields[|fields| - 1];
      assert forall f :: f in init ==> f in fields;
      ShownReadsItsOwn(d, db, resources, a, b, init);
      assert last in fields;
    }
  }

  /** The modifying half hands out every column the record shows. */
  lemma {:induction false} ReturnsWhatIsShown(fields: seq<Field>, resources: Resources)
    requires Selected(fields, resources).Ok?
    ensures forall f :: f in fields && !f.sensitive ==> f.key in ReturningList(Selected(fields, resources).value.entries)
  {
    if fields != [] {
      hide LabelField, ReturningList;
      var init, last := fields[..|fields| - 1], fields[|fields| - 1];
      assert fields == init + [last];
      ReturnsWhatIsShown(init, resources);
      var s := Selected(init, resources).value;
      if !last.sensitive {
        if last.kind.Relation? {
          var target := resources[last.kind.target];
        }
      }
    }
  }

  lemma ReturnedShowsTheSame(d: Driver, db: Database, resources: Resources, fields: seq<Field>, row: Row)
    requires Selected(fields, resources).Ok?
    ensures var returning := ReturningList(Selected(fields, resources).value.entries);
            Shown(d, db, resources, Returned(row, returning), fields) == Shown(d, db, resources, row, fields)
  {
    hide Selected, Returned, Shown;
    var returning := ReturningList(Selected(fields, resources).value.entries);
    ReturnsWhatIsShown(fields, resources);
    forall f | f in fields && !f.sensitive ensures Cell(Returned(row, returning), f.key) == Cell(row, f.key) {
      ReturnedCell(row, returning, f.key);
    }
    ShownReadsItsOwn(d, db, resources, Returned(row, returning), row, fields);
  }

  /** `b` and `c` output columns never stand in for each other. */
  lemma SpacesKeepApart(left: OutRow, right: OutRow, alias: Alias)
    requires forall a :: a in left ==> a.space == VALUE_SPACE
    requires forall a :: a in right ==> a.space == BEFORE_SPACE
    ensures alias.space == VALUE_SPACE ==> Column(left + right, alias) == Column(left, alias)
    ensures alias.space == BEFORE_SPACE ==> Column(left + right, alias) == Column(right, alias)
  {
  }

  /** The record read out of a written row, whatever stands beside it. */
  lemma WrittenRowDecodes(
    d: Driver, db: Database, resources: Resources, fields: seq<Field>, key: Key, row: Row, right: OutRow)
    requires Selected(fields, resources).Ok?
    requires exists f :: f in fields && !f.sensitive && f.key == key
    requires Cell(row, key) != Null
    requires forall a :: a in right ==> a.space == BEFORE_SPACE
    ensures var s := Selected(fields, resources).value;
            var written := Returned(row, ReturningList(s.entries));
            var out := Project(Env(written, Found(db, written, s.joins)), s.items) + right;
            RecordDtos(d, s.entries, key, [out]) == Ok([RecordOf(d, db, resources, row, fields, key)])
  {
    hide Selected, Returned, Shown, Project, Decoded, Found, ReturningList;
    var s := Selected(fields, resources).value;
    var written := Returned(row, ReturningList(s.entries));
    var env := Env(written, Found(db, written, s.joins));
    var left := Project(env, s.items);
    var f :| f in fields && !f.sensitive && f.key == key;
    ReturnsWhatIsShown(fields, resources);
    ReturnedCell(row, ReturningList(s.entries), key);
    LabelledIsJoined(db, written, s.joins);
    Paging.RowDecodes(d, db, resources, fields, key, env);
    ReturnedShowsTheSame(d, db, resources, fields, row);
    SelectionsAlign(fields, resources);
    EachAliasReadsItsOwn(env, s, VALUE_SPACE);
    forall e | e in s.entries ensures Column(left + right, e.alias) == Column(left, e.alias) {
      var i :| 0 <= i < |s.entries| && s.entries[i] == e;
      SpacesKeepApart(left, right, e.alias);
    }
    DecodingReadsItsAliases(d, s.entries, left + right, left);
    var identity := IdentityEntry(s.entries, key).value;
    assert DecodedRow(d, s.entries, identity, left + right) == DecodedRow(d, s.entries, identity, left);
    OneDecodes(d, s.entries, identity, left + right);
  }

  lemma OneDecodes(d: Driver, entries: seq<Entry>, identity: Entry, row: OutRow)
    requires DecodedRow(d, entries, identity, row).Ok?
    ensures DecodedRows(d, entries, identity, [row]) == Ok([DecodedRow(d, entries, identity, row).value])
  {
    DecodesEach(d, entries, identity, [row], [DecodedRow(d, entries, identity, row).value]);
  }

  // ------------------------------------------------------- the two readings

  /** What a reading of some fields of a row is: each by its own column. */
  function Reading(d: Driver, fields: seq<Field>, keys: set<Key>, row: Row): map<Key, Value> {
    if fields == [] then map[]
    else
      var last := fields[|fields| - 1];
      var init := Reading(d, fields[..|fields| - 1], keys, row);
      if last.sensitive || last.key !in keys then init
      else init[last.key := ToValue(d, last.kind, Cell(row, last.key))]
  }

  lemma {:induction false} ReadingHasItsKeys(d: Driver, fields: seq<Field>, keys: set<Key>, row: Row)
    ensures forall k :: k in Reading(d, fields, keys, row) <==>
                        k in keys && exists f :: f in fields && !f.sensitive && f.key == k
  {
    if fields != [] {
      hide ToValue;
      var init, last := fields[..|fields| - 1], fields[|fields| - 1];
      assert fields == init + [last];
      ReadingHasItsKeys(d, init, keys, row);
    }
  }

  lemma {:induction false} ReadingIsItsOwn(d: Driver, fields: seq<Field>, keys: set<Key>, row: Row)
    requires DistinctFields(fields)
    ensures forall f :: f in fields && !f.sensitive && f.key in keys ==>
      f.key in Reading(d, fields, keys, row) &&
      Reading(d, fields, keys, row)[f.key] == ToValue(d, f.kind, Cell(row, f.key))
  {
    if fields != [] {
      hide ToValue;
      var init, last := fields[..|fields| - 1], fields[|fields| - 1];
      assert fields == init + [last];
      ReadingIsItsOwn(d, init, keys, row);
    }
  }

  /** Read by the values' own aliases, a projection gives the reading. */
  lemma {:induction false} ValuesAreRead(d: Driver, fields: seq<Field>, keys: set<Key>, space: char, row: Row, out: OutRow)
    requires forall i :: 0 <= i < |Values(fields, space).items| ==>
               Column(out, Alias(space, i)) == Cell(row, Values(fields, space).items[i].from.column)
    ensures FieldValues(d, Values(fields, space).entries, keys, out) == Reading(d, fields, keys, row)
  {
    hide ToValue, Column;
    if fields != [] {
      var init, last := fields[..|fields| - 1], fields[|fields| - 1];
      var before, after := Values(init, space), Values(fields, space);
      ValuesAlign(init, space);
      ValuesAlign(fields, space);
      assert before.items <= after.items;
      ValuesAreRead(d, init, keys, space, row, out);
      if !last.sensitive {
        assert after == WithValue(before, last, space);
        assert after.entries[..|before.entries|] == before.entries;
        assert after.items[|before.items|].from.column == last.key;
      }
    }
  }

  /** So does the record's own selection: labels are passed over. */
  lemma {:induction false} SelectionIsRead(
    d: Driver, fields: seq<Field>, resources: Resources, keys: set<Key>, row: Row, out: OutRow)
    requires Selected(fields, resources).Ok?
    requires var s := Selected(fields, resources).value;
             forall i :: 0 <= i < |s.entries| && !s.entries[i].isLabel ==>
               Column(out, Alias(VALUE_SPACE, i)) == Cell(row, s.entries[i].key)
    ensures FieldValues(d, Selected(fields, resources).value.entries, keys, out) == Reading(d, fields, keys, row)
  {
    hide AddField, Column, FieldValues;
    if fields == [] {
      NothingRead(d, keys, out);
    } else {
      var init, last := fields[..|fields| - 1], fields[|fields| - 1];
      var before, after := Selected(init, resources).value, Selected(fields, resources).value;
      SelectionsAlign(init, resources);
      SelectionGrows(before, last, resources);
      assert forall i :: 0 <= i < |before.entries| ==> before.entries[i] == after.entries[i];
      SelectionIsRead(d, init, resources, keys, row, out);
      if last.sensitive {
        SecretAddsNothing(before, last, resources);
      } else {
        OneMoreSelected(d, before, last, resources, keys, out);
      }
    }
  }

  lemma NothingRead(d: Driver, keys: set<Key>, out: OutRow)
    ensures FieldValues(d, [], keys, out) == map[]
  {
  }

  lemma OneMoreSelected(d: Driver, s: Selection, f: Field, resources: Resources, keys: set<Key>, out: OutRow)
    requires !f.sensitive && AddField(s, f, resources).Ok?
    ensures var t := AddField(s, f, resources).value;
            var n := |s.entries|;
      && n < |t.entries| && t.entries[n] == Entry(Alias(VALUE_SPACE, n), f.key, false, f)
      && FieldValues(d, t.entries, keys, out) ==
           if f.key in keys
           then FieldValues(d, s.entries, keys, out)[f.key := ToValue(d, f.kind, Column(out, Alias(VALUE_SPACE, n)))]
           else FieldValues(d, s.entries, keys, out)
  {
    hide LabelField, Column, FieldValues;
    var n, valued := |s.entries|, WithValue(s, f, VALUE_SPACE);
    OneMoreReading(d, s.entries, valued.entries[n], keys, out);
    assert valued.entries == s.entries + [valued.entries[n]];
    if f.kind.Relation? {
      var target := resources[f.kind.target];
      var labelled := WithLabel(valued, f, target, LabelField(target).value);
      LabelIsPassedOver(d, valued.entries, labelled.entries[n + 1], keys, out);
      assert labelled.entries == valued.entries + [labelled.entries[n + 1]];
    }
  }

  lemma OneMoreReading(d: Driver, entries: seq<Entry>, e: Entry, keys: set<Key>, out: OutRow)
    requires !e.isLabel
    ensures FieldValues(d, entries + [e], keys, out) ==
            if e.key in keys
            then FieldValues(d, entries, keys, out)[e.key := ToValue(d, e.field.kind, Column(out, e.alias))]
            else FieldValues(d, entries, keys, out)
  {
    assert (entries + [e])[..|entries|] == entries;
  }

  lemma LabelIsPassedOver(d: Driver, entries: seq<Entry>, e: Entry, keys: set<Key>, out: OutRow)
    requires e.isLabel
    ensures FieldValues(d, entries + [e], keys, out) == FieldValues(d, entries, keys, out)
  {
    assert (entries + [e])[..|entries|] == entries;
  }
}
