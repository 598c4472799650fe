/** What a related list is a list of: the page of the target, narrowed to the
    record in the URL. A `hasMany` is narrowed by the target's foreign key to the
    record's own key; a `belongsTo` by the target's key to what the record points
    at, and is an empty page when it points at nothing
    (packages/engine/src/read/record-reader.ts:111-175). */
module Relating {
  import opened Outcomes
  import opened Definitions
  import opened Statements
  import opened Columns
  import opened RecordsMapper
  import opened Joins
  import opened QueryBuilder
  import opened Reader
  import opened Validity
  import opened ReadBack
  import opened Meaning
  import Servable
  import Serving
  import Paging

  /** A lookup's candidates: the rows its key names, alone. */
  lemma LookupCandidates(c: Context, definition: Definition, db: Database, r: Resource, id: Value, field: Field)
    requires Standing(c, definition, db, r) && !field.sensitive
    ensures CompiledLookup(r, id, field).Ok?
    ensures var q := CompiledLookup(r, id, field).value;
      && q.statement.limit == First(1)
      && q.statement.items == [Item(Reference(Base, field.key), LOOKUP)]
      && Candidates(c.pg, db, q.statement, q.values) ==
           Labelled(db, Kept(c.pg, RowsOf(db, r.table), [Equal(r.primaryKey, 1)], [id]), [])
  {
    hide Valid, KeysHold, Kept, Where, IdentityField, Unique, Found;
    KeyIsUnique(c, definition, db, r);
    var rows := RowsOf(db, r.table);
    RowsAreLabelled(db, rows, []);
    WhereKeeps(c.pg, db, rows, [], [Equal(r.primaryKey, 1)], [id]);
  }

  /** It finds the one row its key names, and the column it asked of it. */
  lemma ALookupFindsItsRow(
    c: Context, definition: Definition, db: Database, r: Resource, id: Value, field: Field, i: nat, out: seq<OutRow>)
    requires Standing(c, definition, db, r) && NamesRow(db, r, id, i) && !field.sensitive
    requires CompiledLookup(r, id, field).Ok?
    requires var q := CompiledLookup(r, id, field).value; Answers(c.pg, db, q.statement, q.values, out)
    ensures |out| == 1 && Column(out[0], LOOKUP) == Cell(RowsOf(db, r.table)[i], field.key)
  {
    LookupCandidates(c, definition, db, r, id, field);
    KeyIsUnique(c, definition, db, r);
    hide Standing, CompiledLookup, Candidates, Kept, Unique, Found, Answers;
    var row := RowsOf(db, r.table)[i];
    OneIsKept(c.pg, RowsOf(db, r.table), r.primaryKey, id, i);
    var q := CompiledLookup(r, id, field).value;
    var env := Env(row, Found(db, row, []));
    assert Labelled(db, [row], []) == [env];
    OneItem(env, Item(Reference(Base, field.key), LOOKUP));
  }

  /** Where its key names none, it finds none. */
  lemma ALookupOfNothing(
    c: Context, definition: Definition, db: Database, r: Resource, id: Value, field: Field, out: seq<OutRow>)
    requires Standing(c, definition, db, r) && !field.sensitive
    requires forall i: nat :: !NamesRow(db, r, id, i)
    requires CompiledLookup(r, id, field).Ok?
    requires var q := CompiledLookup(r, id, field).value; Answers(c.pg, db, q.statement, q.values, out)
    ensures out == []
  {
    LookupCandidates(c, definition, db, r, id, field);
    var rows := RowsOf(db, r.table);
    forall i | 0 <= i < |rows| ensures !Same(Cell(rows[i], r.primaryKey), id) {
      assert !NamesRow(db, r, id, i);
    }
    NoneKept(c.pg, rows, r.primaryKey, id);
    hide CompiledLookup, Candidates, Kept;
    assert Labelled(db, [], []) == [];
  }

  /** The column of the target a relationship narrows by, and what it must hold
      for a row of the parent: the row's own pointer, or the row's own key. */
  function Narrows(parent: Resource, x: Relationship, row: Row, id: Value): Value {
    if x.kind == BelongsTo then Cell(row, x.foreignKey) else id
  }

  /** A related list is its target's list, narrowed to the record in the URL: to
      the one it points at, or to those that point at it. A record that points at
      nothing has an empty page, and a record that is not there has none. */
  lemma ARelatedListIsTheOwnersPage(
    c: Context, definition: Definition, db: Database, parent: Resource, x: Relationship, id: Value, query: ListQuery,
    i: nat, answer: Outcome<RecordList>)
    requires Standing(c, definition, db, parent) && NamesRow(db, parent, id, i) && x in parent.relationships
    requires x.target in c.resources
    requires MayTravel(c, db, parent, c.resources[x.target], x, id, query, answer)
    ensures var target, owner := c.resources[x.target], Narrows(parent, x, RowsOf(db, parent.table)[i], id);
      && OwnerField(target, x).Ok?
      && !OwnerField(target, x).value.sensitive && OwnerField(target, x).value in target.fields
      && if x.kind == BelongsTo && owner == Null
         then answer == Ok(RecordList([], 0, query.page, query.pageSize))
         else MayPage(c, db, target, query, Some(Ownership(OwnerField(target, x).value, owner)), answer)
  {
    hide Standing, MayPage, Answers, OwnerField, TravelField, CompiledLookup, NamesRow;
    TravelsFreely(c, definition, db, parent, x, id);
    var target := c.resources[x.target];
    var q, field := Asked(parent, x, id).value, TravelField(parent, x).value;
    var found :| Answers(c.pg, db, q.statement, q.values, found) && MayFollow(c, db, target, x, id, found, query, answer);
    ALookupFindsItsRow(c, definition, db, parent, id, field, i, found);
  }

  lemma ARelatedListOfNothing(
    c: Context, definition: Definition, db: Database, parent: Resource, x: Relationship, id: Value, query: ListQuery,
    answer: Outcome<RecordList>)
    requires Standing(c, definition, db, parent) && x in parent.relationships && x.target in c.resources
    requires forall i: nat :: !NamesRow(db, parent, id, i)
    requires MayTravel(c, db, parent, c.resources[x.target], x, id, query, answer)
    ensures answer == Err(NotFound)
  {
    hide Standing, MayPage, Answers, OwnerField, TravelField, CompiledLookup, NamesRow;
    TravelsFreely(c, definition, db, parent, x, id);
    var target := c.resources[x.target];
    var q, field := Asked(parent, x, id).value, TravelField(parent, x).value;
    var found :| Answers(c.pg, db, q.statement, q.values, found) && MayFollow(c, db, target, x, id, found, query, answer);
    ALookupOfNothing(c, definition, db, parent, id, field, found);
  }

  /** The column asked of the record in the URL: no secret, and the pointer where
      there is one. */
  lemma TravelsFreely(
    c: Context, definition: Definition, db: Database, parent: Resource, x: Relationship, id: Value)
    requires Standing(c, definition, db, parent) && x in parent.relationships && x.target in c.resources
    ensures TravelField(parent, x).Ok? && !TravelField(parent, x).value.sensitive
    ensures x.kind == BelongsTo ==> TravelField(parent, x).value.key == x.foreignKey
    ensures Asked(parent, x, id).Ok? && Asked(parent, x, id) == CompiledLookup(parent, id, TravelField(parent, x).value)
    ensures var target := c.resources[x.target];
      && OwnerField(target, x).Ok?
      && !OwnerField(target, x).value.sensitive && OwnerField(target, x).value in target.fields
  {
    hide Valid, KeysHold;
    Servable.RelationshipIsServed(definition, parent, x, id);
    FieldsIndexed(parent.fields);
    Serving.OwnerFieldIsDeclared(c.resources[x.target], x);
  }

  // ------------------------------------------------------ every read answers

  /** A read whose key names no row is a record that is not there. */
  lemma AReadOfNothing(c: Context, definition: Definition, db: Database, r: Resource, id: Value, answer: Outcome<Record>)
    requires Standing(c, definition, db, r) && MayRead(c, db, r, id, answer)
    requires forall i: nat :: !NamesRow(db, r, id, i)
    ensures answer == Err(NotFound)
  {
    RecordCandidates(c, definition, db, r, id);
    KeyIsUnique(c, definition, db, r);
    var rows := RowsOf(db, r.table);
    forall i | 0 <= i < |rows| ensures !Same(Cell(rows[i], r.primaryKey), id) {
      assert !NamesRow(db, r, id, i);
    }
    NoneKept(c.pg, rows, r.primaryKey, id);
    hide Standing, Selected, Candidates, CompiledRecord, Kept, NamesRow, Unique, Answers, IdentityEntry;
    var q, s := CompiledRecord(c.resources, r, id).value, Selected(r.fields, c.resources).value;
    assert Labelled(db, [], s.joins) == [];
    var out :| Answers(c.pg, db, q.statement, q.values, out) && answer == RecordFrom(c, r, q.select, out);
    var f :| f in r.fields && !f.sensitive && f.key == r.primaryKey;
    Paging.IdentityIsSelected(r.fields, c.resources, f);
  }

  /** Whether a page is answered is settled by what was asked of it. */
  lemma APageIsServed(
    c: Context, db: Database, definition: Definition, r: Resource, query: ListQuery, owner: Option<Ownership>,
    answer: Outcome<RecordList>)
    requires Paging.Sound(c, db, definition, r, owner) && MayPage(c, db, r, query, owner, answer)
    ensures if Servable.Askable(r, query, c.parses) then answer.Ok? else answer == Err(InvalidQuery)
  {
    if Servable.Askable(r, query, c.parses) {
      var _ := Paging.APageIsASlice(c, db, definition, r, query, owner, answer);
    } else {
      hide CompiledRecords, Servable.Askable, Valid;
      Servable.PageIsServed(definition, r, query, owner, c.parses);
    }
  }

  /** Over tables whose keys hold, a valid definition's record is read, or is not
      there; whatever the server answers with. */
  lemma ARecordIsServed(c: Context, definition: Definition, db: Database, r: Resource, id: Value, answer: Outcome<Record>)
    requires Standing(c, definition, db, r) && MayRead(c, db, r, id, answer)
    ensures if exists i: nat :: NamesRow(db, r, id, i) then answer.Ok? else answer == Err(NotFound)
  {
    hide Standing, MayRead, NamesRow, RecordOf;
    if i: nat :| NamesRow(db, r, id, i) {
      AReadFindsItsRow(c, definition, db, r, id, i, answer);
    } else {
      AReadOfNothing(c, definition, db, r, id, answer);
    }
  }

  lemma ARelatedListIsServed(
    c: Context, db: Database, definition: Definition, r: Resource, query: ListQuery, id: Value, x: Relationship,
    related: Outcome<RecordList>)
    requires Paging.Sound(c, db, definition, r, None) && x in r.relationships && x.target in c.resources
    requires MayTravel(c, db, r, c.resources[x.target], x, id, query, related)
    ensures related.Ok? || related == Err(NotFound) || related == Err(InvalidQuery)
  {
    hide MayTravel, MayPage, OwnerField, Valid, KeysHold;
    if i: nat :| NamesRow(db, r, id, i) {
      ARelatedListIsTheOwnersPage(c, definition, db, r, x, id, query, i, related);
      Servable.Indexed(definition, x.target);
      var target := c.resources[x.target];
      var key := Narrows(r, x, RowsOf(db, r.table)[i], id);
      if !(x.kind == BelongsTo && key == Null) {
        var owner := Some(Ownership(OwnerField(target, x).value, key));
        assert Paging.Sound(c, db, definition, target, owner);
        APageIsServed(c, db, definition, target, query, owner, related);
      }
    } else {
      ARelatedListOfNothing(c, definition, db, r, x, id, query, related);
    }
  }
}
