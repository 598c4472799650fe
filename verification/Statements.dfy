/** The statements the engine writes, as trees rather than text, and what
    PostgreSQL makes of them. Identifiers and placeholders are all a statement
    holds: a bound value is only ever reached through its slot. */
module Statements {
  import opened Outcomes
  import opened Definitions
  import Search

  // ---------------------------------------------------------------- syntax

  /** An output name of ours: `c0`, `c1`, … for a record, `b0`, `b1`, … for the
      same record as it stood. */
  datatype Alias = Alias(space: char, position: nat)

  /** The row itself (`t`), or the row the k-th join found (`jk`). */
  datatype Source = Base | Joined(index: nat)

  datatype Reference = Reference(source: Source, column: Key)

  datatype Item = Item(from: Reference, alias: Alias)

  /** `left join table as jk on jk.key = t.holder` */
  datatype Join = Join(table: Key, key: Key, holder: Key)

  /** Every slot is the `n` of a `$n`. */
  datatype Condition =
    | Equal(column: Key, slot: nat)
    | AtLeast(column: Key, slot: nat)
    | AtMost(column: Key, slot: nat)
    | AnyILike(columns: seq<Key>, asText: bool, slot: nat)

  datatype Term = Term(column: Key, descending: bool)

  datatype Limit = First(count: nat) | Page(limit: nat, offset: nat) | AtMostSlot(limit: nat)

  datatype Select = Select(
    items: seq<Item>,
    table: Key,
    joins: seq<Join>,
    conditions: seq<Condition>,
    order: seq<Term>,
    limit: Limit)

  /** `select count(*)`, which joins nothing. */
  datatype Count = Count(table: Key, conditions: seq<Condition>)

  /** A data-modifying statement: the change, the columns it returns, and the
      outer select that reads them. */
  datatype Write =
    | Insert(
        table: Key,
        columns: seq<Key>,
        slots: seq<nat>,
        returning: seq<Key>,
        items: seq<Item>,
        joins: seq<Join>)
    | Update(
        table: Key,
        columns: seq<Key>,
        slots: seq<nat>,
        identity: Key,
        keySlot: nat,
        before: seq<Item>,
        returning: seq<Key>,
        items: seq<Item>,
        joins: seq<Join>)

  /** What one selected column holds (packages/engine/src/query/columns.ts:9-18). */
  datatype Entry = Entry(alias: Alias, key: Key, isLabel: bool, field: Field)

  /** A compiled statement: `values` fills its slots from 1 up, `select` names the
      columns of an answer and `before` those of what an update replaced. */
  datatype Query<+S> = Query(statement: S, values: seq<Value>, select: seq<Entry>, before: seq<Entry>)

  // ------------------------------------------------------------- semantics

  type Row = map<Key, Value>
  type Database = map<Key, seq<Row>>
  type OutRow = map<Alias, Value>

  /** What differs from one server to the next: its collation, how it folds
      case, and how it casts a value to text. */
  datatype Postgres = Postgres(le: (Value, Value) -> bool, fold: char -> char, text: Value -> string)

  ghost predicate TotalOrder(le: (Value, Value) -> bool) {
    && (forall a, b :: le(a, b) || le(b, a))
    && (forall a, b :: le(a, b) && le(b, a) ==> a == b)
    && (forall a, b, c :: le(a, b) && le(b, c) ==> le(a, c))
  }

  function Cell(row: Row, column: Key): Value {
    if column in row then row[column] else Null
  }

  function RowsOf(db: Database, table: Key): seq<Row> {
    if table in db then db[table] else []
  }

  /** `=`, under which nothing equals null. */
  predicate Same(a: Value, b: Value) {
    a != Null && a == b
  }

  function Bound(values: seq<Value>, slot: nat): Value {
    if 1 <= slot <= |values| then values[slot - 1] else Null
  }

  function Amount(v: Value): nat {
    if v.Int? && v.n >= 0 then v.n else 0
  }

  /** One row of a `from` clause: the base row, and what each join found. */
  datatype Env = Env(row: Row, joined: seq<Option<Row>>)

  function Matching(rows: seq<Row>, key: Key, v: Value): seq<Row> {
    if rows == [] then []
    else (if Same(Cell(rows[0], key), v) then [rows[0]] else []) + Matching(rows[1..], key, v)
  }

  /** A left join keeps every match, and one row of nulls when there is none. */
  function JoinOne(env: Env, rows: seq<Row>, join: Join): seq<Env> {
    var found := Matching(rows, join.key, Cell(env.row, join.holder));
    if found == [] then [Env(env.row, env.joined + [None])]
    else seq(|found|, i requires 0 <= i < |found| => Env(env.row, env.joined + [Some(found[i])]))
  }

  function JoinEach(envs: seq<Env>, rows: seq<Row>, join: Join): seq<Env> {
    if envs == [] then []
    else JoinOne(envs[0], rows, join) + JoinEach(envs[1..], rows, join)
  }

  function JoinAll(db: Database, envs: seq<Env>, joins: seq<Join>): seq<Env>
    decreases |joins|
  {
    if joins == [] then envs
    else JoinAll(db, JoinEach(envs, RowsOf(db, joins[0].table), joins[0]), joins[1..])
  }

  function Alone(rows: seq<Row>): (envs: seq<Env>)
    ensures |envs| == |rows|
    ensures forall i :: 0 <= i < |rows| ==> envs[i] == Env(rows[i], [])
  {
    seq(|rows|, i requires 0 <= i < |rows| => Env(rows[i], []))
  }

  predicate Matches(pg: Postgres, v: Value, asText: bool, pattern: Value) {
    v != Null && pattern.Text? && (asText || v.Text?) &&
    Search.ILike(pg.fold, if asText then pg.text(v) else v.text, pattern.text)
  }

  predicate Holds(pg: Postgres, row: Row, condition: Condition, values: seq<Value>) {
    match condition
    case Equal(column, slot) =>
      Same(Cell(row, column), Bound(values, slot))
    case AtLeast(column, slot) =>
      Cell(row, column) != Null && Bound(values, slot) != Null && pg.le(Bound(values, slot), Cell(row, column))
    case AtMost(column, slot) =>
      Cell(row, column) != Null && Bound(values, slot) != Null && pg.le(Cell(row, column), Bound(values, slot))
    case AnyILike(columns, asText, slot) =>
      exists i :: 0 <= i < |columns| && Matches(pg, Cell(row, columns[i]), asText, Bound(values, slot))
  }

  predicate HoldsAll(pg: Postgres, row: Row, conditions: seq<Condition>, values: seq<Value>) {
    forall i :: 0 <= i < |conditions| ==> Holds(pg, row, conditions[i], values)
  }

  /** `where`, over rows that have already been joined. */
  function Where(pg: Postgres, envs: seq<Env>, conditions: seq<Condition>, values: seq<Value>): seq<Env> {
    if envs == [] then []
    else
      (if HoldsAll(pg, envs[0].row, conditions, values) then [envs[0]] else [])
      + Where(pg, envs[1..], conditions, values)
  }

  function Read(env: Env, from: Reference): Value {
    match from.source
    case Base => Cell(env.row, from.column)
    case Joined(k) =>
      if k < |env.joined| && env.joined[k].Some? then Cell(env.joined[k].value, from.column) else Null
  }

  /** The driver keys a row by output name, and of two with one name keeps the last. */
  function Project(env: Env, items: seq<Item>): OutRow {
    if items == [] then map[]
    else
      var last := items[|items| - 1];
      Project(env, items[..|items| - 1])[last.alias := Read(env, last.from)]
  }

  predicate TermsLeq(pg: Postgres, a: Row, b: Row, order: seq<Term>) {
    order == [] ||
    var x, y := Cell(a, order[0].column), Cell(b, order[0].column);
    if x == y then TermsLeq(pg, a, b, order[1..])
    else if order[0].descending then pg.le(y, x) else pg.le(x, y)
  }

  ghost predicate Permutes(perm: seq<nat>, n: nat) {
    && |perm| == n
    && (forall i :: 0 <= i < n ==> perm[i] < n)
    && (forall i, j :: 0 <= i < j < n ==> perm[i] != perm[j])
  }

  /** An order the server may hand these rows over in. */
  ghost predicate Arranges(pg: Postgres, envs: seq<Env>, order: seq<Term>, perm: seq<nat>) {
    && Permutes(perm, |envs|)
    && (forall i, j :: 0 <= i < j < |envs| ==> TermsLeq(pg, envs[perm[i]].row, envs[perm[j]].row, order))
  }

  function Clip(n: nat, size: nat): nat {
    if n <= size then n else size
  }

  /** `limit … offset …` */
  function Window(perm: seq<nat>, limit: Limit, values: seq<Value>): seq<nat> {
    match limit
    case First(count) => perm[..Clip(count, |perm|)]
    case AtMostSlot(slot) => perm[..Clip(Amount(Bound(values, slot)), |perm|)]
    case Page(slot, skip) =>
      var from := Clip(Amount(Bound(values, skip)), |perm|);
      perm[from..from + Clip(Amount(Bound(values, slot)), |perm| - from)]
  }

  ghost predicate Within(picked: seq<nat>, n: nat) {
    forall i :: 0 <= i < |picked| ==> picked[i] < n
  }

  ghost function Output(envs: seq<Env>, picked: seq<nat>, items: seq<Item>): (out: seq<OutRow>)
    requires Within(picked, |envs|)
    ensures |out| == |picked|
    ensures forall i :: 0 <= i < |out| ==> out[i] == Project(envs[picked[i]], items)
  {
    seq(|picked|, i requires 0 <= i < |picked| => Project(envs[picked[i]], items))
  }

  function Candidates(pg: Postgres, db: Database, s: Select, values: seq<Value>): seq<Env> {
    Where(pg, JoinAll(db, Alone(RowsOf(db, s.table)), s.joins), s.conditions, values)
  }

  /** Every answer the server may give. Rows that tie under the order are free
      to come back either way round, and not the same way round twice. */
  ghost predicate Answers(pg: Postgres, db: Database, s: Select, values: seq<Value>, out: seq<OutRow>) {
    var envs := Candidates(pg, db, s, values);
    exists perm ::
      Arranges(pg, envs, s.order, perm) && out == Output(envs, Window(perm, s.limit, values), s.items)
  }

  function Counted(pg: Postgres, db: Database, c: Count, values: seq<Value>): nat {
    |Where(pg, Alone(RowsOf(db, c.table)), c.conditions, values)|
  }

  // ---------------------------------------------------------------- writes

  function Assigned(row: Row, columns: seq<Key>, slots: seq<nat>, values: seq<Value>): Row
    requires |columns| == |slots|
  {
    if columns == [] then row
    else
      var n := |columns| - 1;
      Assigned(row, columns[..n], slots[..n], values)[columns[n] := Bound(values, slots[n])]
  }

  /** `returning`: the columns it names and nothing else of the row. */
  function Returned(row: Row, columns: seq<Key>): Row {
    map k | k in row && k in columns :: row[k]
  }

  predicate Named(row: Row, identity: Key, id: Value) {
    Same(Cell(row, identity), id)
  }

  function Changed(rows: seq<Row>, w: Write, values: seq<Value>): (after: seq<Row>)
    requires w.Update? && |w.columns| == |w.slots|
    ensures |after| == |rows|
    ensures forall i :: 0 <= i < |rows| ==>
      after[i] == if Named(rows[i], w.identity, Bound(values, w.keySlot))
                  then Assigned(rows[i], w.columns, w.slots, values) else rows[i]
  {
    seq(|rows|, i requires 0 <= i < |rows| =>
      if Named(rows[i], w.identity, Bound(values, w.keySlot))
      then Assigned(rows[i], w.columns, w.slots, values) else rows[i])
  }

  /** The rows a key names, each as `change` leaves it. */
  function Written(rows: seq<Row>, w: Write, values: seq<Value>): seq<Row>
    requires w.Update? && |w.columns| == |w.slots|
  {
    if rows == [] then []
    else
      (if Named(rows[0], w.identity, Bound(values, w.keySlot))
       then [Returned(Assigned(rows[0], w.columns, w.slots, values), w.returning)] else [])
      + Written(rows[1..], w, values)
  }

  function ProjectEach(envs: seq<Env>, items: seq<Item>): seq<OutRow> {
    if envs == [] then [] else [Project(envs[0], items)] + ProjectEach(envs[1..], items)
  }

  function PairWith(left: OutRow, right: seq<OutRow>): (out: seq<OutRow>)
    ensures |out| == |right|
    ensures forall i :: 0 <= i < |right| ==> out[i] == left + right[i]
  {
    seq(|right|, i requires 0 <= i < |right| => left + right[i])
  }

  function CrossJoin(left: seq<OutRow>, right: seq<OutRow>): seq<OutRow> {
    if left == [] then [] else PairWith(left[0], right) + CrossJoin(left[1..], right)
  }

  /** What a write leaves behind, and what it answers with. Every part of it
      reads the tables as they stood when it began (section 7.8.4 of the
      PostgreSQL manual); `defaults` is what the table fills in by itself. */
  function Execute(db: Database, w: Write, values: seq<Value>, defaults: Row): (Database, seq<OutRow>)
    requires |w.columns| == |w.slots|
  {
    var rows := RowsOf(db, w.table);
    match w
    case Insert(_, _, _, _, _, _) =>
      var row := Assigned(defaults, w.columns, w.slots, values);
      var envs := JoinAll(db, Alone([Returned(row, w.returning)]), w.joins);
      (db[w.table := rows + [row]], ProjectEach(envs, w.items))
    case Update(_, _, _, _, _, _, _, _, _) =>
      var envs := JoinAll(db, Alone(Written(rows, w, values)), w.joins);
      var before := ProjectEach(Alone(Matching(rows, w.identity, Bound(values, w.keySlot))), w.before);
      (db[w.table := Changed(rows, w, values)], CrossJoin(ProjectEach(envs, w.items), before))
  }
}
