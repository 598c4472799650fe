/** Paging means what it says: the pages of a list, laid end to end, are the
    rows that were asked for, each of them once
    (packages/engine/src/query/query-builder.ts:70-123). */
module Paging {
  import opened Outcomes
  import opened Definitions
  import opened Statements
  import opened Columns
  import opened Conditions
  import opened QueryBuilder
  import opened RecordsMapper
  import opened Meaning
  import opened Validity
  import opened Joins
  import opened Ordering
  import opened Asking
  import opened Servable
  import opened Reader
  import Search

  // ------------------------------------------------------------ decoding rows

  /** The first value entry under a key is the identity the decoder finds, and
      its column is the row's own. */
  lemma {:induction false} IdentityIsSelected(fields: seq<Field>, resources: Resources, f: Field)
    requires Selected(fields, resources).Ok? && f in fields && !f.sensitive
    ensures exists e :: e in Selected(fields, resources).value.entries && !e.isLabel && e.key == f.key
  {
    hide LabelField;
    var init, last := fields[..|fields| - 1], fields[|fields| - 1];
    assert fields == init + [last];
    var before, after := Selected(init, resources).value, Selected(fields, resources).value;
    SelectionGrows(before, last, resources);
    if f in init {
      IdentityIsSelected(init, resources, f);
      var e :| e in before.entries && !e.isLabel && e.key == f.key;
      assert e in after.entries;
    } else {
      var valued := WithValue(before, f, VALUE_SPACE);
      assert valued.entries <= after.entries;
      assert valued.entries[|before.entries|] in after.entries;
    }
  }

  /** A joined row decodes to its record, when its key is not null. */
  lemma RowDecodes(d: Driver, db: Database, resources: Resources, fields: seq<Field>, key: Key, env: Env)
    requires Selected(fields, resources).Ok?
    requires JoinedBy(db, env, Selected(fields, resources).value.joins)
    requires exists f :: f in fields && !f.sensitive && f.key == key
    requires Cell(env.row, key) != Null
    ensures var s := Selected(fields, resources).value;
      && IdentityEntry(s.entries, key).Some?
      && DecodedRow(d, s.entries, IdentityEntry(s.entries, key).value, Project(env, s.items))
         == Ok(RecordOf(d, db, resources, env.row, fields, key))
  {
    hide Selected, Project, Decoded, Shown;
    var s := Selected(fields, resources).value;
    var f :| f in fields && !f.sensitive && f.key == key;
    IdentityIsSelected(fields, resources, f);
    SelectionsAlign(fields, resources);
    EachAliasReadsItsOwn(env, s, VALUE_SPACE);
    DecodingInvertsSelection(d, db, resources, fields, env);
    var identity := IdentityEntry(s.entries, key).value;
    var i :| 0 <= i < |s.entries| && s.entries[i] == identity;
    assert Column(Project(env, s.items), Alias(VALUE_SPACE, i)) == Read(env, s.items[i].from);
  }

  function RecordsOf(d: Driver, db: Database, resources: Resources, rows: seq<Row>, fields: seq<Field>, key: Key)
    : (records: seq<Record>)
    ensures |records| == |rows|
    ensures forall i :: 0 <= i < |rows| ==> records[i] == RecordOf(d, db, resources, rows[i], fields, key)
  {
    seq(|rows|, i requires 0 <= i < |rows| => RecordOf(d, db, resources, rows[i], fields, key))
  }

  function Picked(rows: seq<Row>, picked: seq<nat>): (some: seq<Row>)
    requires forall i :: 0 <= i < |picked| ==> picked[i] < |rows|
    ensures |some| == |picked|
    ensures forall i :: 0 <= i < |picked| ==> some[i] == rows[picked[i]]
  {
    seq(|picked|, i requires 0 <= i < |picked| => rows[picked[i]])
  }

  /** So do all the rows a window shows, in the order it shows them. */
  lemma RowsDecode(
    d: Driver, db: Database, resources: Resources, fields: seq<Field>, key: Key, rows: seq<Row>, picked: seq<nat>)
    requires Selected(fields, resources).Ok?
    requires exists f :: f in fields && !f.sensitive && f.key == key
    requires forall i :: 0 <= i < |rows| ==> Cell(rows[i], key) != Null
    requires Within(picked, |rows|)
    ensures var s := Selected(fields, resources).value;
            RecordDtos(d, s.entries, key, Output(Labelled(db, rows, s.joins), picked, s.items))
            == Ok(RecordsOf(d, db, resources, Picked(rows, picked), fields, key))
  {
    hide Selected, Project, DecodedRow, RecordOf, Found, JoinedBy;
    var s := Selected(fields, resources).value;
    var envs := Labelled(db, rows, s.joins);
    var out := Output(envs, picked, s.items);
    var records := RecordsOf(d, db, resources, Picked(rows, picked), fields, key);
    var f :| f in fields && !f.sensitive && f.key == key;
    IdentityIsSelected(fields, resources, f);
    var identity := IdentityEntry(s.entries, key).value;
    forall i | 0 <= i < |out| ensures DecodedRow(d, s.entries, identity, out[i]) == Ok(records[i]) {
      var row := rows[picked[i]];
      LabelledIsJoined(db, row, s.joins);
      RowDecodes(d, db, resources, fields, key, Env(row, Found(db, row, s.joins)));
    }
    DecodesEach(d, s.entries, identity, out, records);
  }

  // ------------------------------------------------------- what a page shows

  /** The rows a request is for. */
  ghost function Belonging(pg: Postgres, r: Resource, query: ListQuery, owner: Option<Ownership>, rows: seq<Row>): seq<Row> {
    if rows == [] then []
    else
      (if Wanted(pg, r, query, owner, rows[0]) then [rows[0]] else []) + Belonging(pg, r, query, owner, rows[1..])
  }

  /** Each row of the table as often as it stands there, if the request is for it;
      and no other. */
  ghost predicate AreTheWanted(
    pg: Postgres, r: Resource, query: ListQuery, owner: Option<Ownership>, rows: seq<Row>, wanted: seq<Row>)
  {
    forall row :: multiset(wanted)[row] == if Wanted(pg, r, query, owner, row) then multiset(rows)[row] else 0
  }

  lemma {:induction false} BelongingAreTheWanted(
    pg: Postgres, r: Resource, query: ListQuery, owner: Option<Ownership>, rows: seq<Row>)
    ensures AreTheWanted(pg, r, query, owner, rows, Belonging(pg, r, query, owner, rows))
  {
    hide Wanted;
    if rows != [] {
      BelongingAreTheWanted(pg, r, query, owner, rows[1..]);
      assert rows == [rows[0]] + rows[1..];
    }
  }

  lemma {:induction false} KeptAreWanted(
    pg: Postgres, r: Resource, query: ListQuery, owner: Option<Ownership>, parses: string -> bool, rows: seq<Row>,
    values: seq<Value>)
    requires Search.KeepsMeta(pg.fold)
    requires Narrowing(r, query, owner, parses).Ok? && Narrowing(r, query, owner, parses).value.bound <= values
    ensures Kept(pg, rows, Narrowing(r, query, owner, parses).value.conditions, values) ==
            Belonging(pg, r, query, owner, rows)
  {
    hide Narrowing, HoldsAll, Wanted;
    if rows != [] {
      NarrowingMeans(pg, r, query, owner, parses, rows[0], values);
      KeptAreWanted(pg, r, query, owner, parses, rows[1..], values);
    }
  }

  /** What holds of the tables, the server and the definition wherever a page is
      asked for. */
  ghost predicate Sound(c: Context, db: Database, definition: Definition, r: Resource, owner: Option<Ownership>) {
    && Valid(definition) && r in definition.resources
    && c.resources == IndexResources(definition.resources)
    && KeysHold(db, c.resources)
    && TotalOrder(c.pg.le) && Search.KeepsMeta(c.pg.fold)
    && (owner.Some? ==> !owner.value.field.sensitive)
  }

  ghost function WantedRows(c: Context, db: Database, r: Resource, query: ListQuery, owner: Option<Ownership>): seq<Row> {
    Belonging(c.pg, r, query, owner, RowsOf(db, r.table))
  }

  lemma WantedRowsAreTheWanted(c: Context, db: Database, r: Resource, query: ListQuery, owner: Option<Ownership>)
    ensures AreTheWanted(c.pg, r, query, owner, RowsOf(db, r.table), WantedRows(c, db, r, query, owner))
  {
    hide AreTheWanted;
    BelongingAreTheWanted(c.pg, r, query, owner, RowsOf(db, r.table));
  }

  /** Where a page starts among the wanted rows, and where it stops. */
  function Start(query: ListQuery, n: nat): nat {
    Clip(if query.page >= 1 then (query.page - 1) * query.pageSize else 0, n)
  }

  function Stop(query: ListQuery, n: nat): (stop: nat)
    ensures Start(query, n) <= stop <= n
  {
    Start(query, n) + Clip(query.pageSize, n - Start(query, n))
  }

  lemma WindowIsTheSlice(perm: seq<nat>, bound: seq<Value>, query: ListQuery)
    ensures var n := |bound|;
            Window(perm, Page(n + 1, n + 2), PageValues(bound, query)) == perm[Start(query, |perm|)..Stop(query, |perm|)]
  {
    hide Start, Stop;
    var n, skip := |bound|, (query.page - 1) * query.pageSize;
    var values := PageValues(bound, query);
    assert values == bound + [Int(query.pageSize), Int(skip)];
    assert Bound(values, n + 1) == Int(query.pageSize);
    assert Bound(values, n + 2) == Int(skip);
    StartIsTheOffset(query, |perm|, skip);
  }

  lemma StartIsTheOffset(query: ListQuery, n: nat, skip: int)
    requires skip == (query.page - 1) * query.pageSize
    ensures Start(query, n) == Clip(Amount(Int(skip)), n)
    ensures Stop(query, n) == Start(query, n) + Clip(query.pageSize, n - Start(query, n))
  {
    if query.page >= 1 {
      assert skip >= 0;
    } else {
      assert skip == 0 - query.pageSize;
    }
  }

  /** The rows query, without its limit and offset, is exactly the wanted rows
      beside their labels: no join adds one or drops one. */
  lemma CandidatesAreTheWanted(
    c: Context, db: Database, definition: Definition, r: Resource, query: ListQuery, owner: Option<Ownership>)
    requires Sound(c, db, definition, r, owner) && Askable(r, query, c.parses)
    ensures var compiled := CompiledRecords(c.resources, r, query, owner, c.parses);
      && compiled.Ok?
      && Narrowing(r, query, owner, c.parses).Ok?
      && ListFields(r).Ok? && Selected(ListFields(r).value, c.resources).Ok?
      && Ordered(r, query).Ok?
      && compiled.value == PageQueries(
           r.table, Selected(ListFields(r).value, c.resources).value, Narrowing(r, query, owner, c.parses).value,
           Ordered(r, query).value, query)
      && Candidates(c.pg, db, compiled.value.rows.statement, compiled.value.rows.values)
         == Labelled(db, WantedRows(c, db, r, query, owner), Selected(ListFields(r).value, c.resources).value.joins)
      && Counted(c.pg, db, compiled.value.total.statement, compiled.value.total.values)
         == |WantedRows(c, db, r, query, owner)|
  {
    hide Valid, KeysHold, TotalOrder, Search.KeepsMeta, Askable, Selected, ListFields, Narrowing, Ordered, Belonging, Kept, HoldsAll, JoinsKeys, JoinAll, Where, Found;
    PageIsServed(definition, r, query, owner, c.parses);
    var selection := Selected(ListFields(r).value, c.resources).value;
    var narrowed := Narrowing(r, query, owner, c.parses).value;
    SelectionJoinsKeys(ListFields(r).value, c.resources, db);
    RowsAreLabelled(db, RowsOf(db, r.table), selection.joins);
    var values := PageValues(narrowed.bound, query);
    WhereKeeps(c.pg, db, RowsOf(db, r.table), selection.joins, narrowed.conditions, values);
    KeptAreWanted(c.pg, r, query, owner, c.parses, RowsOf(db, r.table), values);
    KeptAreWanted(c.pg, r, query, owner, c.parses, RowsOf(db, r.table), narrowed.bound);
    WhereCounts(c.pg, RowsOf(db, r.table), narrowed.conditions, narrowed.bound);
  }

  /** The order a page's rows come back in. */
  ghost predicate InOrder(pg: Postgres, rows: seq<Row>, order: seq<Term>, perm: seq<nat>) {
    && Permutes(perm, |rows|)
    && forall i, j :: 0 <= i < j < |rows| ==> TermsLeq(pg, rows[perm[i]], rows[perm[j]], order)
  }

  ghost function AllRecords(
    c: Context, db: Database, r: Resource, rows: seq<Row>, perm: seq<nat>): seq<Record>
    requires Permutes(perm, |rows|) && ListFields(r).Ok?
    ensures |AllRecords(c, db, r, rows, perm)| == |rows|
  {
    RecordsOf(c.driver, db, c.resources, Picked(rows, perm), ListFields(r).value, r.primaryKey)
  }

  /** What the server hands back for a page, once the candidates are known. */
  lemma PageRows(
    pg: Postgres, db: Database, s: Selection, table: Key, narrowed: Narrowed, order: seq<Term>, query: ListQuery,
    rows: seq<Row>, out: seq<OutRow>)
    returns (perm: seq<nat>)
    requires var q := PageQueries(table, s, narrowed, order, query).rows;
      && Candidates(pg, db, q.statement, q.values) == Labelled(db, rows, s.joins)
      && Answers(pg, db, q.statement, q.values, out)
    ensures InOrder(pg, rows, order, perm)
    ensures out == Output(Labelled(db, rows, s.joins), perm[Start(query, |rows|)..Stop(query, |rows|)], s.items)
  {
    hide Candidates, Found, TermsLeq, PageValues, Start, Stop;
    var q := PageQueries(table, s, narrowed, order, query).rows;
    var envs := Labelled(db, rows, s.joins);
    perm :| Arranges(pg, envs, order, perm) && out == Output(envs, Window(perm, q.statement.limit, q.values), s.items);
    WindowIsTheSlice(perm, narrowed.bound, query);
    assert forall i :: 0 <= i < |rows| ==> envs[i].row == rows[i];
  }

  lemma SliceDecodes(c: Context, db: Database, r: Resource, rows: seq<Row>, perm: seq<nat>, from: nat, to: nat)
    requires ListFields(r).Ok? && Selected(ListFields(r).value, c.resources).Ok?
    requires exists f :: f in ListFields(r).value && !f.sensitive && f.key == r.primaryKey
    requires Unique(rows, r.primaryKey) && Permutes(perm, |rows|) && from <= to <= |rows|
    ensures var s := Selected(ListFields(r).value, c.resources).value;
            RecordDtos(c.driver, s.entries, r.primaryKey, Output(Labelled(db, rows, s.joins), perm[from..to], s.items))
            == Ok(AllRecords(c, db, r, rows, perm)[from..to])
  {
    hide Selected, ListFields, Found, RecordDtos, RecordOf, Project;
    var fields, picked := ListFields(r).value, perm[from..to];
    RowsDecode(c.driver, db, c.resources, fields, r.primaryKey, rows, picked);
    assert RecordsOf(c.driver, db, c.resources, Picked(rows, picked), fields, r.primaryKey)
        == AllRecords(c, db, r, rows, perm)[from..to];
  }

  /** Whatever a page may answer, it is one slice of the wanted rows in an order
      the request allows, decoded, and the count of all of them. */
  lemma APageIsASlice(
    c: Context, db: Database, definition: Definition, r: Resource, query: ListQuery, owner: Option<Ownership>,
    answer: Outcome<RecordList>)
    returns (perm: seq<nat>)
    requires Sound(c, db, definition, r, owner) && Askable(r, query, c.parses)
    requires MayPage(c, db, r, query, owner, answer)
    ensures ListFields(r).Ok? && Ordered(r, query).Ok?
    ensures var rows := WantedRows(c, db, r, query, owner);
      && InOrder(c.pg, rows, Ordered(r, query).value, perm)
      && answer.Ok?
      && answer.value == RecordList(
           AllRecords(c, db, r, rows, perm)[Start(query, |rows|)..Stop(query, |rows|)],
           |rows|, query.page, query.pageSize)
  {
    hide Sound, Askable, Selected, ListFields, Narrowing, Ordered, WantedRows, CompiledRecords, Candidates, Counted, Answers, Labelled, TermsLeq, RecordDtos, Start, Stop, Unique, Permutes, PageValues, AllRecords;
    CandidatesAreTheWanted(c, db, definition, r, query, owner);
    ListHasItsKey(c, db, definition, r, query, owner);
    var rows := WantedRows(c, db, r, query, owner);
    var s := Selected(ListFields(r).value, c.resources).value;
    var queries := CompiledRecords(c.resources, r, query, owner, c.parses).value;
    var narrowed, order := Narrowing(r, query, owner, c.parses).value, Ordered(r, query).value;
    var out :| Answers(c.pg, db, queries.rows.statement, queries.rows.values, out) &&
               answer == PageOf(c, r, queries.rows.select, out, Counted(c.pg, db, queries.total.statement, queries.total.values), query);
    perm := PageRows(c.pg, db, s, r.table, narrowed, order, query, rows, out);
    SliceDecodes(c, db, r, rows, perm, Start(query, |rows|), Stop(query, |rows|));
  }

  lemma ListHasItsKey(
    c: Context, db: Database, definition: Definition, r: Resource, query: ListQuery, owner: Option<Ownership>)
    requires Sound(c, db, definition, r, owner)
    ensures ListFields(r).Ok?
    ensures exists f :: f in ListFields(r).value && !f.sensitive && f.key == r.primaryKey
    ensures Unique(WantedRows(c, db, r, query, owner), r.primaryKey)
  {
    hide Valid, ValidResource, ListFields, Belonging, Wanted, Unique, TotalOrder, Search.KeepsMeta;
    ResourceIsIndexed(definition, r);
    ListIsServed(r, c.resources);
    var f :| f in ListFields(r).value && f.key == r.primaryKey;
    KeyIsPlain(r, c.resources, f);
    assert Unique(RowsOf(db, r.table), r.primaryKey) by { assert r.key in c.resources; }
    BelongingAreUnique(c.pg, r, query, owner, RowsOf(db, r.table), r.primaryKey);
  }

  lemma KeyIsPlain(r: Resource, resources: Resources, f: Field)
    requires ValidResource(r, resources) && f in r.fields && f.key == r.primaryKey
    ensures !f.sensitive
  {
    FieldByKey(r.fields, f);
  }

  lemma {:induction false} BelongingAreUnique(
    pg: Postgres, r: Resource, query: ListQuery, owner: Option<Ownership>, rows: seq<Row>, key: Key)
    requires Unique(rows, key)
    ensures Unique(Belonging(pg, r, query, owner, rows), key)
    ensures forall row :: row in Belonging(pg, r, query, owner, rows) <==> row in rows && Wanted(pg, r, query, owner, row)
  {
    hide Wanted;
    if rows != [] {
      BelongingAreUnique(pg, r, query, owner, rows[1..], key);
      assert rows == [rows[0]] + rows[1..];
      var rest := Belonging(pg, r, query, owner, rows[1..]);
      forall i | 0 <= i < |rest| ensures Cell(rest[i], key) != Cell(rows[0], key) {
        assert rest[i] in rows[1..];
      }
    }
  }

  lemma OrderEndsInTheKey(r: Resource, query: ListQuery)
    requires Ordered(r, query).Ok?
    ensures Orders(Ordered(r, query).value, r.primaryKey)
  {
    FieldsIndexed(r.fields);
    var order := Ordered(r, query).value;
    assert order[|order| - 1].column == r.primaryKey;
  }

  /** The sort a request names, or else the view's own, in the direction asked or
      else the one that goes with it; then the key, rising; no column twice. */
  lemma TheOrderIsWhatWasAsked(r: Resource, query: ListQuery)
    requires Ordered(r, query).Ok? && ValidTable(r.view, IndexFields(r.fields))
    ensures var order := Ordered(r, query).value;
            var first := if query.sort.Some? then query.sort.value else r.view.sortField;
            var falls := if query.descending.Some? then query.descending.value
                         else query.sort.None? && r.view.sortDescending;
      && 1 <= |order| <= 2
      && order[0] == Term(first, falls)
      && (|order| == 1 <==> first == r.primaryKey)
      && (|order| == 2 ==> order[1] == Term(r.primaryKey, false))
  {
    FieldsIndexed(r.fields);
  }

  // ------------------------------------------------------------- every page

  /** Two requests that differ in the page they ask for. */
  lemma PagesAskAlike(c: Context, db: Database, r: Resource, query: ListQuery, owner: Option<Ownership>, page: nat)
    ensures var other := query.(page := page);
      && WantedRows(c, db, r, other, owner) == WantedRows(c, db, r, query, owner)
      && Ordered(r, other) == Ordered(r, query)
      && (Askable(r, other, c.parses) <==> Askable(r, query, c.parses))
  {
    BelongAlike(c.pg, r, query, owner, page, RowsOf(db, r.table));
    assert SortTerm(r, query.(page := page)) == SortTerm(r, query);
  }

  lemma {:induction false} BelongAlike(
    pg: Postgres, r: Resource, query: ListQuery, owner: Option<Ownership>, page: nat, rows: seq<Row>)
    ensures Belonging(pg, r, query.(page := page), owner, rows) == Belonging(pg, r, query, owner, rows)
  {
    if rows != [] {
      BelongAlike(pg, r, query, owner, page, rows[1..]);
    }
  }

  function PageCount(total: nat, size: nat): nat
    requires size > 0
  {
    (total + size - 1) / size
  }

  lemma PagesReachTheEnd(total: nat, size: nat)
    requires size > 0
    ensures PageCount(total, size) * size >= total
  {
    var k := PageCount(total, size);
    assert total + size - 1 == k * size + (total + size - 1) % size;
  }

  ghost predicate ArePages(
    c: Context, db: Database, r: Resource, query: ListQuery, owner: Option<Ownership>, pages: seq<RecordList>)
  {
    forall i :: 0 <= i < |pages| ==> MayPage(c, db, r, query.(page := i + 1), owner, Ok(pages[i]))
  }

  function EndToEnd(pages: seq<RecordList>): seq<Record> {
    if pages == [] then [] else EndToEnd(pages[..|pages| - 1]) + pages[|pages| - 1].records
  }

  /** How many of n rows the first k pages hold. */
  function Held(k: nat, size: nat, n: nat): (held: nat)
    ensures held <= n
  {
    if k == 0 then 0 else Clip(Held(k - 1, size, n) + size, n)
  }

  lemma {:induction false} HeldIsProduct(k: nat, size: nat, n: nat)
    ensures Held(k, size, n) == (if k * size <= n then k * size else n)
  {
    if k > 0 {
      HeldIsProduct(k - 1, size, n);
      assert k * size == (k - 1) * size + size;
    }
  }

  /** Each page starts where the one before it stops. */
  lemma PagesMeet(query: ListQuery, k: nat, n: nat)
    ensures Start(query.(page := k + 1), n) == Held(k, query.pageSize, n)
    ensures Stop(query.(page := k + 1), n) == Held(k + 1, query.pageSize, n)
  {
    HeldIsProduct(k, query.pageSize, n);
  }

  /** Two orders a page may come in are one. */
  lemma SameOrder(
    c: Context, db: Database, definition: Definition, r: Resource, query: ListQuery, owner: Option<Ownership>,
    p: seq<nat>, q: seq<nat>)
    requires Sound(c, db, definition, r, owner) && Ordered(r, query).Ok?
    requires InOrder(c.pg, WantedRows(c, db, r, query, owner), Ordered(r, query).value, p)
    requires InOrder(c.pg, WantedRows(c, db, r, query, owner), Ordered(r, query).value, q)
    ensures p == q
  {
    hide Ordered, WantedRows, TermsLeq, Valid, KeysHold, TotalOrder;
    var rows, order := WantedRows(c, db, r, query, owner), Ordered(r, query).value;
    ListHasItsKey(c, db, definition, r, query, owner);
    OrderEndsInTheKey(r, query);
    OneArrangement(c.pg, Alone(rows), order, r.primaryKey, p, q);
  }

  /** The k-th page after the first, under whichever order the first page took. */
  lemma OneMorePage(
    c: Context, db: Database, definition: Definition, r: Resource, query: ListQuery, owner: Option<Ownership>,
    k: nat, page: RecordList, perm: seq<nat>)
    requires Sound(c, db, definition, r, owner) && Askable(r, query, c.parses)
    requires MayPage(c, db, r, query.(page := k + 1), owner, Ok(page))
    requires ListFields(r).Ok? && Ordered(r, query).Ok?
    requires InOrder(c.pg, WantedRows(c, db, r, query, owner), Ordered(r, query).value, perm)
    ensures var rows := WantedRows(c, db, r, query, owner);
      && page.records == AllRecords(c, db, r, rows, perm)[Held(k, query.pageSize, |rows|)..Held(k + 1, query.pageSize, |rows|)]
      && page.total == |rows|
  {
    hide Sound, Askable, ListFields, Ordered, WantedRows, MayPage, TermsLeq, Start, Stop, RecordsOf;
    var rows, asked := WantedRows(c, db, r, query, owner), query.(page := k + 1);
    PagesAskAlike(c, db, r, query, owner, k + 1);
    var other := APageIsASlice(c, db, definition, r, asked, owner, Ok(page));
    SameOrder(c, db, definition, r, query, owner, perm, other);
    PagesMeet(query, k, |rows|);
  }

  /** Slices that meet, laid end to end. */
  lemma {:induction false} SlicesTile(pages: seq<RecordList>, all: seq<Record>, size: nat)
    requires forall k :: 0 <= k < |pages| ==> pages[k].records == all[Held(k, size, |all|)..Held(k + 1, size, |all|)]
    ensures EndToEnd(pages) == all[..Held(|pages|, size, |all|)]
  {
    HeldGrows(|pages|, size, |all|);
    hide Held;
    if pages != [] {
      var k := |pages| - 1;
      SlicesTile(pages[..k], all, size);
      Adjoining(all, Held(k, size, |all|), Held(k + 1, size, |all|));
    }
  }

  lemma HeldGrows(k: nat, size: nat, n: nat)
    ensures Held(0, size, n) == 0
    ensures k > 0 ==> Held(k - 1, size, n) <= Held(k, size, n)
  {
  }

  lemma Adjoining<T>(all: seq<T>, from: nat, to: nat)
    requires from <= to <= |all|
    ensures all[..from] + all[from..to] == all[..to]
  {
  }

  /** Pages 1 to ⌈total / size⌉ of a list, each asked for on its own, laid end to
      end: a permutation of the wanted rows, each record once, in the order the
      request named. Every page counts them all. */
  lemma PagesTile(
    c: Context, db: Database, definition: Definition, r: Resource, query: ListQuery, owner: Option<Ownership>,
    pages: seq<RecordList>)
    returns (perm: seq<nat>)
    requires Sound(c, db, definition, r, owner) && Askable(r, query, c.parses) && query.pageSize > 0
    requires ArePages(c, db, r, query, owner, pages)
    requires |pages| == PageCount(|WantedRows(c, db, r, query, owner)|, query.pageSize)
    ensures ListFields(r).Ok? && Ordered(r, query).Ok?
    ensures var rows := WantedRows(c, db, r, query, owner);
      && AreTheWanted(c.pg, r, query, owner, RowsOf(db, r.table), rows)
      && InOrder(c.pg, rows, Ordered(r, query).value, perm)
      && EndToEnd(pages) == AllRecords(c, db, r, rows, perm)
      && (forall i :: 0 <= i < |pages| ==> pages[i].total == |rows|)
  {
    hide Sound, Askable, ListFields, Ordered, WantedRows, MayPage, TermsLeq, Narrowing, Selected, CompiledRecords, RecordsOf, AreTheWanted;
    var rows := WantedRows(c, db, r, query, owner);
    WantedRowsAreTheWanted(c, db, r, query, owner);
    CandidatesAreTheWanted(c, db, definition, r, query, owner);
    SoundRanks(c, db, definition, r, owner);
    perm := SomeArrangement(c.pg, Alone(rows), Ordered(r, query).value);
    assert InOrder(c.pg, rows, Ordered(r, query).value, perm);
    var all, size := AllRecords(c, db, r, rows, perm), query.pageSize;
    hide InOrder, AllRecords;
    forall k | 0 <= k < |pages|
      ensures pages[k].records == all[Held(k, size, |rows|)..Held(k + 1, size, |rows|)] && pages[k].total == |rows|
    {
      assert MayPage(c, db, r, query.(page := k + 1), owner, Ok(pages[k]));
      OneMorePage(c, db, definition, r, query, owner, k, pages[k], perm);
    }
    SlicesTile(pages, all, size);
    PagesReachTheEnd(|rows|, size);
    HeldIsProduct(|pages|, size, |rows|);
    assert all[..|rows|] == all;
  }

  /** There is always an answer to give: the pages above are not asked in vain. */
  lemma APageIsAlwaysAnswered(
    c: Context, db: Database, definition: Definition, r: Resource, query: ListQuery, owner: Option<Ownership>)
    returns (answer: Outcome<RecordList>)
    requires Sound(c, db, definition, r, owner) && Askable(r, query, c.parses)
    ensures MayPage(c, db, r, query, owner, answer) && answer.Ok?
  {
    hide Sound, Askable, Selected, ListFields, Narrowing, Ordered, WantedRows, CompiledRecords, Answers, Counted, PageOf, PageQueries, AllRecords, InOrder, Start, Stop;
    assert TotalOrder(c.pg.le) by { SoundRanks(c, db, definition, r, owner); }
    CandidatesAreTheWanted(c, db, definition, r, query, owner);
    var queries := CompiledRecords(c.resources, r, query, owner, c.parses).value;
    var out := SomeAnswer(c.pg, db, queries.rows.statement, queries.rows.values);
    var total := Counted(c.pg, db, queries.total.statement, queries.total.values);
    answer := PageOf(c, r, queries.rows.select, out, total, query);
    assert MayPage(c, db, r, query, owner, answer);
    var _ := APageIsASlice(c, db, definition, r, query, owner, answer);
  }

  lemma SoundRanks(c: Context, db: Database, definition: Definition, r: Resource, owner: Option<Ownership>)
    requires Sound(c, db, definition, r, owner)
    ensures TotalOrder(c.pg.le)
  {
  }

  /** The server always has an answer to give. */
  lemma SomeAnswer(pg: Postgres, db: Database, s: Select, values: seq<Value>) returns (out: seq<OutRow>)
    requires TotalOrder(pg.le)
    ensures Answers(pg, db, s, values, out)
  {
    hide Candidates, TermsLeq, TotalOrder;
    var envs := Candidates(pg, db, s, values);
    var perm := SomeArrangement(pg, envs, s.order);
    out := Output(envs, Window(perm, s.limit, values), s.items);
  }
}
