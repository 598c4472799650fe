/** Statements that mention only public columns, and what that is worth: two
    databases that agree on those columns answer them alike, and still agree
    once they have been written to. */
module Openness {
  import opened Outcomes
  import opened Definitions
  import opened Statements

  /** The columns of each table that something may be told. */
  type Public = Key -> set<Key>

  ghost predicate Alike(open: set<Key>, a: Row, b: Row) {
    forall k :: k in open ==> Cell(a, k) == Cell(b, k)
  }

  ghost predicate AllAlike(open: set<Key>, a: seq<Row>, b: seq<Row>) {
    |a| == |b| && forall i :: 0 <= i < |a| ==> Alike(open, a[i], b[i])
  }

  /** The same rows in each table, but for what is not public of them. */
  ghost predicate Agree(public: Public, tables: set<Key>, a: Database, b: Database) {
    forall t :: t in tables ==> AllAlike(public(t), RowsOf(a, t), RowsOf(b, t))
  }

  // -------------------------------------------------- what a statement mentions

  ghost predicate JoinIsOpen(public: Public, tables: set<Key>, from: set<Key>, join: Join) {
    join.table in tables && join.key in public(join.table) && join.holder in from
  }

  ghost predicate JoinsAreOpen(public: Public, tables: set<Key>, from: set<Key>, joins: seq<Join>) {
    forall k :: 0 <= k < |joins| ==> JoinIsOpen(public, tables, from, joins[k])
  }

  ghost predicate ItemIsOpen(public: Public, from: set<Key>, joins: seq<Join>, item: Item) {
    match item.from.source
    case Base => item.from.column in from
    case Joined(k) => k < |joins| && item.from.column in public(joins[k].table)
  }

  ghost predicate ItemsAreOpen(public: Public, from: set<Key>, joins: seq<Join>, items: seq<Item>) {
    forall i :: 0 <= i < |items| ==> ItemIsOpen(public, from, joins, items[i])
  }

  ghost predicate ConditionIsOpen(from: set<Key>, c: Condition) {
    match c
    case Equal(column, _) => column in from
    case AtLeast(column, _) => column in from
    case AtMost(column, _) => column in from
    case AnyILike(columns, _, _) => forall i :: 0 <= i < |columns| ==> columns[i] in from
  }

  ghost predicate ConditionsAreOpen(from: set<Key>, conditions: seq<Condition>) {
    forall i :: 0 <= i < |conditions| ==> ConditionIsOpen(from, conditions[i])
  }

  ghost predicate OrderIsOpen(from: set<Key>, order: seq<Term>) {
    forall i :: 0 <= i < |order| ==> order[i].column in from
  }

  ghost predicate SelectIsOpen(public: Public, tables: set<Key>, s: Select) {
    && s.table in tables
    && JoinsAreOpen(public, tables, public(s.table), s.joins)
    && ItemsAreOpen(public, public(s.table), s.joins, s.items)
    && ConditionsAreOpen(public(s.table), s.conditions)
    && OrderIsOpen(public(s.table), s.order)
  }

  ghost predicate CountIsOpen(public: Public, tables: set<Key>, c: Count) {
    c.table in tables && ConditionsAreOpen(public(c.table), c.conditions)
  }

  ghost predicate AllIn(keys: seq<Key>, open: set<Key>) {
    forall i :: 0 <= i < |keys| ==> keys[i] in open
  }

  ghost predicate WriteIsOpen(public: Public, tables: set<Key>, w: Write) {
    && w.table in tables
    && AllIn(w.columns, public(w.table))
    && AllIn(w.returning, public(w.table))
    && JoinsAreOpen(public, tables, public(w.table), w.joins)
    && ItemsAreOpen(public, public(w.table), w.joins, w.items)
    && (w.Update? ==>
         && w.identity in public(w.table)
         && ItemsAreOpen(public, public(w.table), [], w.before))
  }

  // ------------------------------------------------------------- rows, alike

  ghost predicate FoundAlike(open: set<Key>, a: Option<Row>, b: Option<Row>) {
    a.Some? == b.Some? && (a.Some? ==> Alike(open, a.value, b.value))
  }

  /** Two joined rows that differ only in what is not public: `joins` made them. */
  ghost predicate EnvAlike(public: Public, from: set<Key>, joins: seq<Join>, a: Env, b: Env) {
    && Alike(from, a.row, b.row)
    && |a.joined| == |b.joined| == |joins|
    && forall k :: 0 <= k < |joins| ==> FoundAlike(public(joins[k].table), a.joined[k], b.joined[k])
  }

  ghost predicate EnvsAlike(public: Public, from: set<Key>, joins: seq<Join>, a: seq<Env>, b: seq<Env>) {
    |a| == |b| && forall i :: 0 <= i < |a| ==> EnvAlike(public, from, joins, a[i], b[i])
  }

  lemma {:induction false} MatchesAlike(open: set<Key>, a: seq<Row>, b: seq<Row>, key: Key, v: Value)
    requires AllAlike(open, a, b) && key in open
    ensures AllAlike(open, Matching(a, key, v), Matching(b, key, v))
  {
    if a != [] {
      assert Alike(open, a[0], b[0]);
      MatchesAlike(open, a[1..], b[1..], key, v);
    }
  }

  lemma JoinOneAlike(
    public: Public, tables: set<Key>, from: set<Key>, joins: seq<Join>, a: Env, b: Env, ra: seq<Row>, rb: seq<Row>, join: Join)
    requires EnvAlike(public, from, joins, a, b)
    requires JoinIsOpen(public, tables, from, join) && AllAlike(public(join.table), ra, rb)
    ensures EnvsAlike(public, from, joins + [join], JoinOne(a, ra, join), JoinOne(b, rb, join))
  {
    hide Matching;
    assert Cell(a.row, join.holder) == Cell(b.row, join.holder);
    MatchesAlike(public(join.table), ra, rb, join.key, Cell(a.row, join.holder));
    var fa := Matching(ra, join.key, Cell(a.row, join.holder));
    var fb := Matching(rb, join.key, Cell(b.row, join.holder));
    forall i | 0 <= i < |JoinOne(a, ra, join)|
      ensures EnvAlike(public, from, joins + [join], JoinOne(a, ra, join)[i], JoinOne(b, rb, join)[i])
    {
      if fa != [] {
        assert Alike(public(join.table), fa[i], fb[i]);
      }
    }
  }

  lemma {:induction false} JoinEachAlike(
    public: Public, tables: set<Key>, from: set<Key>, joins: seq<Join>, a: seq<Env>, b: seq<Env>, ra: seq<Row>,
    rb: seq<Row>, join: Join)
    requires EnvsAlike(public, from, joins, a, b)
    requires JoinIsOpen(public, tables, from, join) && AllAlike(public(join.table), ra, rb)
    ensures EnvsAlike(public, from, joins + [join], JoinEach(a, ra, join), JoinEach(b, rb, join))
  {
    hide EnvAlike, JoinOne, AllAlike, JoinIsOpen;
    if a != [] {
      JoinOneAlike(public, tables, from, joins, a[0], b[0], ra, rb, join);
      JoinEachAlike(public, tables, from, joins, a[1..], b[1..], ra, rb, join);
    }
  }

  lemma {:induction false} JoinAllAlike(
    public: Public, tables: set<Key>, from: set<Key>, made: seq<Join>, joins: seq<Join>, da: Database, db: Database,
    a: seq<Env>, b: seq<Env>)
    requires Agree(public, tables, da, db)
    requires EnvsAlike(public, from, made, a, b) && JoinsAreOpen(public, tables, from, joins)
    ensures EnvsAlike(public, from, made + joins, JoinAll(da, a, joins), JoinAll(db, b, joins))
    decreases |joins|
  {
    hide EnvAlike, EnvsAlike, JoinEach, AllAlike;
    if joins == [] {
      assert made + joins == made;
    } else {
      var join, rest := joins[0], joins[1..];
      assert JoinIsOpen(public, tables, from, joins[0]);
      JoinEachAlike(public, tables, from, made, a, b, RowsOf(da, join.table), RowsOf(db, join.table), join);
      JoinAllAlike(public, tables, from, made + [join], rest, da, db,
        JoinEach(a, RowsOf(da, join.table), join), JoinEach(b, RowsOf(db, join.table), join));
      assert (made + [join]) + rest == made + joins;
    }
  }

  lemma AloneAlike(public: Public, from: set<Key>, a: seq<Row>, b: seq<Row>)
    requires AllAlike(from, a, b)
    ensures EnvsAlike(public, from, [], Alone(a), Alone(b))
  {
  }

  lemma HoldsAlike(pg: Postgres, open: set<Key>, a: Row, b: Row, c: Condition, values: seq<Value>)
    requires Alike(open, a, b) && ConditionIsOpen(open, c)
    ensures Holds(pg, a, c, values) <==> Holds(pg, b, c, values)
  {
    hide Matches;
    if c.AnyILike? {
      forall i | 0 <= i < |c.columns| ensures Cell(a, c.columns[i]) == Cell(b, c.columns[i]) {}
    }
  }

  lemma HoldsAllAlike(pg: Postgres, open: set<Key>, a: Row, b: Row, conditions: seq<Condition>, values: seq<Value>)
    requires Alike(open, a, b) && ConditionsAreOpen(open, conditions)
    ensures HoldsAll(pg, a, conditions, values) <==> HoldsAll(pg, b, conditions, values)
  {
    hide Holds, Alike, ConditionIsOpen;
    forall i | 0 <= i < |conditions|
      ensures Holds(pg, a, conditions[i], values) <==> Holds(pg, b, conditions[i], values)
    {
      HoldsAlike(pg, open, a, b, conditions[i], values);
    }
  }

  lemma {:induction false} WhereAlike(
    pg: Postgres, public: Public, from: set<Key>, joins: seq<Join>, a: seq<Env>, b: seq<Env>,
    conditions: seq<Condition>, values: seq<Value>)
    requires EnvsAlike(public, from, joins, a, b) && ConditionsAreOpen(from, conditions)
    ensures EnvsAlike(public, from, joins, Where(pg, a, conditions, values), Where(pg, b, conditions, values))
  {
    hide HoldsAll, ConditionsAreOpen, Alike;
    if a != [] {
      assert EnvAlike(public, from, joins, a[0], b[0]);
      HoldsAllAlike(pg, from, a[0].row, b[0].row, conditions, values);
      WhereAlike(pg, public, from, joins, a[1..], b[1..], conditions, values);
    }
  }

  lemma {:induction false} RankAlike(pg: Postgres, open: set<Key>, a: Row, b: Row, x: Row, y: Row, order: seq<Term>)
    requires Alike(open, a, x) && Alike(open, b, y) && OrderIsOpen(open, order)
    ensures TermsLeq(pg, a, b, order) <==> TermsLeq(pg, x, y, order)
  {
    if order != [] {
      assert order[0].column in open;
      assert OrderIsOpen(open, order[1..]);
      RankAlike(pg, open, a, b, x, y, order[1..]);
    }
  }

  lemma ReadAlike(public: Public, from: set<Key>, joins: seq<Join>, a: Env, b: Env, item: Item)
    requires EnvAlike(public, from, joins, a, b) && ItemIsOpen(public, from, joins, item)
    ensures Read(a, item.from) == Read(b, item.from)
  {
    if item.from.source.Joined? {
      var k := item.from.source.index;
      assert FoundAlike(public(joins[k].table), a.joined[k], b.joined[k]);
    }
  }

  lemma {:induction false} ProjectAlike(public: Public, from: set<Key>, joins: seq<Join>, a: Env, b: Env, items: seq<Item>)
    requires EnvAlike(public, from, joins, a, b) && ItemsAreOpen(public, from, joins, items)
    ensures Project(a, items) == Project(b, items)
  {
    hide EnvAlike, ItemIsOpen, Read;
    if items != [] {
      var n := |items| - 1;
      assert ItemsAreOpen(public, from, joins, items[..n]);
      ProjectAlike(public, from, joins, a, b, items[..n]);
      assert ItemIsOpen(public, from, joins, items[n]);
      ReadAlike(public, from, joins, a, b, items[n]);
    }
  }

  // ------------------------------------------------------------------- reads

  lemma CandidatesAlike(
    pg: Postgres, public: Public, tables: set<Key>, s: Select, values: seq<Value>, a: Database, b: Database)
    requires SelectIsOpen(public, tables, s) && Agree(public, tables, a, b)
    ensures EnvsAlike(public, public(s.table), s.joins, Candidates(pg, a, s, values), Candidates(pg, b, s, values))
  {
    hide AllAlike, JoinsAreOpen, ConditionsAreOpen, EnvsAlike, JoinAll, Where;
    var open := public(s.table);
    AloneAlike(public, open, RowsOf(a, s.table), RowsOf(b, s.table));
    JoinAllAlike(public, tables, open, [], s.joins, a, b, Alone(RowsOf(a, s.table)), Alone(RowsOf(b, s.table)));
    assert [] + s.joins == s.joins;
    WhereAlike(pg, public, open, s.joins,
      JoinAll(a, Alone(RowsOf(a, s.table)), s.joins), JoinAll(b, Alone(RowsOf(b, s.table)), s.joins), s.conditions, values);
  }

  lemma ArrangesAlike(
    pg: Postgres, public: Public, from: set<Key>, joins: seq<Join>, a: seq<Env>, b: seq<Env>, order: seq<Term>, perm: seq<nat>)
    requires EnvsAlike(public, from, joins, a, b) && OrderIsOpen(from, order)
    requires Arranges(pg, a, order, perm)
    ensures Arranges(pg, b, order, perm)
  {
    hide TermsLeq, Alike, OrderIsOpen;
    forall i, j | 0 <= i < j < |b| ensures TermsLeq(pg, b[perm[i]].row, b[perm[j]].row, order) {
      assert EnvAlike(public, from, joins, a[perm[i]], b[perm[i]]);
      assert EnvAlike(public, from, joins, a[perm[j]], b[perm[j]]);
      RankAlike(pg, from, a[perm[i]].row, a[perm[j]].row, b[perm[i]].row, b[perm[j]].row, order);
    }
  }

  lemma OutputAlike(
    public: Public, from: set<Key>, joins: seq<Join>, a: seq<Env>, b: seq<Env>, picked: seq<nat>, items: seq<Item>)
    requires EnvsAlike(public, from, joins, a, b) && ItemsAreOpen(public, from, joins, items)
    requires Within(picked, |a|)
    ensures Output(a, picked, items) == Output(b, picked, items)
  {
    hide Project, EnvAlike, ItemsAreOpen;
    forall i | 0 <= i < |picked| ensures Project(a[picked[i]], items) == Project(b[picked[i]], items) {
      ProjectAlike(public, from, joins, a[picked[i]], b[picked[i]], items);
    }
  }

  /** An answer one database may give, the other may. */
  lemma AnswersAlike(
    pg: Postgres, public: Public, tables: set<Key>, s: Select, values: seq<Value>, a: Database, b: Database, out: seq<OutRow>)
    requires SelectIsOpen(public, tables, s) && Agree(public, tables, a, b)
    requires Answers(pg, a, s, values, out)
    ensures Answers(pg, b, s, values, out)
  {
    hide Candidates, TermsLeq, JoinsAreOpen, ConditionsAreOpen, ItemsAreOpen, OrderIsOpen, Agree, EnvAlike;
    CandidatesAlike(pg, public, tables, s, values, a, b);
    var ea, eb := Candidates(pg, a, s, values), Candidates(pg, b, s, values);
    var perm :| Arranges(pg, ea, s.order, perm) && out == Output(ea, Window(perm, s.limit, values), s.items);
    ArrangesAlike(pg, public, public(s.table), s.joins, ea, eb, s.order, perm);
    OutputAlike(public, public(s.table), s.joins, ea, eb, Window(perm, s.limit, values), s.items);
  }

  lemma CountsAlike(
    pg: Postgres, public: Public, tables: set<Key>, c: Count, values: seq<Value>, a: Database, b: Database)
    requires CountIsOpen(public, tables, c) && Agree(public, tables, a, b)
    ensures Counted(pg, a, c, values) == Counted(pg, b, c, values)
  {
    hide AllAlike, ConditionsAreOpen, Where;
    AloneAlike(public, public(c.table), RowsOf(a, c.table), RowsOf(b, c.table));
    WhereAlike(pg, public, public(c.table), [], Alone(RowsOf(a, c.table)), Alone(RowsOf(b, c.table)), c.conditions, values);
  }

  // ------------------------------------------------------------------ writes

  lemma {:induction false} AssignedAlike(open: set<Key>, a: Row, b: Row, columns: seq<Key>, slots: seq<nat>, values: seq<Value>)
    requires Alike(open, a, b) && |columns| == |slots|
    ensures Alike(open, Assigned(a, columns, slots, values), Assigned(b, columns, slots, values))
  {
    if columns != [] {
      var n := |columns| - 1;
      AssignedAlike(open, a, b, columns[..n], slots[..n], values);
    }
  }

  /** A column an assignment does not name keeps what it held. */
  lemma {:induction false} AssignedOnly(row: Row, columns: seq<Key>, slots: seq<nat>, values: seq<Value>, k: Key)
    requires |columns| == |slots| && k !in columns
    ensures Cell(Assigned(row, columns, slots, values), k) == Cell(row, k)
    ensures k in Assigned(row, columns, slots, values) <==> k in row
  {
    if columns != [] {
      var n := |columns| - 1;
      assert columns == columns[..n] + [columns[n]];
      AssignedOnly(row, columns[..n], slots[..n], values, k);
    }
  }

  lemma ReturnedAlike(open: set<Key>, a: Row, b: Row, columns: seq<Key>)
    requires Alike(open, a, b)
    ensures Alike(open, Returned(a, columns), Returned(b, columns))
  {
    forall k | k in open ensures Cell(Returned(a, columns), k) == Cell(Returned(b, columns), k) {
      assert Cell(a, k) == Cell(b, k);
      ReturnedCell(a, columns, k);
      ReturnedCell(b, columns, k);
    }
  }

  lemma ReturnedCell(row: Row, columns: seq<Key>, k: Key)
    ensures Cell(Returned(row, columns), k) == if k in columns then Cell(row, k) else Null
  {
  }

  lemma {:induction false} WrittenAlike(open: set<Key>, a: seq<Row>, b: seq<Row>, w: Write, values: seq<Value>)
    requires w.Update? && |w.columns| == |w.slots|
    requires AllAlike(open, a, b) && w.identity in open
    ensures AllAlike(open, Written(a, w, values), Written(b, w, values))
  {
    hide Assigned, Returned;
    if a != [] {
      assert Alike(open, a[0], b[0]);
      AssignedAlike(open, a[0], b[0], w.columns, w.slots, values);
      ReturnedAlike(
        open, Assigned(a[0], w.columns, w.slots, values), Assigned(b[0], w.columns, w.slots, values), w.returning);
      WrittenAlike(open, a[1..], b[1..], w, values);
    }
  }

  lemma ChangedAlike(open: set<Key>, a: seq<Row>, b: seq<Row>, w: Write, values: seq<Value>)
    requires w.Update? && |w.columns| == |w.slots|
    requires AllAlike(open, a, b) && w.identity in open
    ensures AllAlike(open, Changed(a, w, values), Changed(b, w, values))
  {
    hide Assigned;
    forall i | 0 <= i < |a| ensures Alike(open, Changed(a, w, values)[i], Changed(b, w, values)[i]) {
      assert Alike(open, a[i], b[i]);
      AssignedAlike(open, a[i], b[i], w.columns, w.slots, values);
    }
  }

  lemma {:induction false} ProjectEachAlike(
    public: Public, from: set<Key>, joins: seq<Join>, a: seq<Env>, b: seq<Env>, items: seq<Item>)
    requires EnvsAlike(public, from, joins, a, b) && ItemsAreOpen(public, from, joins, items)
    ensures ProjectEach(a, items) == ProjectEach(b, items)
  {
    hide EnvAlike, ItemsAreOpen, Project;
    if a != [] {
      ProjectAlike(public, from, joins, a[0], b[0], items);
      ProjectEachAlike(public, from, joins, a[1..], b[1..], items);
    }
  }

  /** The rows a change hands to the outer select, joined and projected. */
  lemma AnsweredAlike(
    public: Public, tables: set<Key>, w: Write, a: Database, b: Database, ra: seq<Row>, rb: seq<Row>)
    requires WriteIsOpen(public, tables, w) && Agree(public, tables, a, b)
    requires AllAlike(public(w.table), ra, rb)
    ensures ProjectEach(JoinAll(a, Alone(ra), w.joins), w.items) == ProjectEach(JoinAll(b, Alone(rb), w.joins), w.items)
  {
    hide AllAlike, JoinAll, EnvAlike, Agree;
    var open := public(w.table);
    AloneAlike(public, open, ra, rb);
    JoinAllAlike(public, tables, open, [], w.joins, a, b, Alone(ra), Alone(rb));
    assert [] + w.joins == w.joins;
    ProjectEachAlike(public, open, w.joins, JoinAll(a, Alone(ra), w.joins), JoinAll(b, Alone(rb), w.joins), w.items);
  }

  /** The rows of the written table, once it has been written to. */
  function RowsAfter(rows: seq<Row>, w: Write, values: seq<Value>, defaults: Row): seq<Row>
    requires |w.columns| == |w.slots|
  {
    if w.Insert? then rows + [Assigned(defaults, w.columns, w.slots, values)] else Changed(rows, w, values)
  }

  lemma TablesAfter(db: Database, w: Write, values: seq<Value>, defaults: Row, t: Key)
    requires |w.columns| == |w.slots|
    ensures RowsOf(Execute(db, w, values, defaults).0, t) ==
            if t == w.table then RowsAfter(RowsOf(db, w.table), w, values, defaults) else RowsOf(db, t)
  {
    hide Assigned, Written, JoinAll, ProjectEach, CrossJoin, Matching;
  }

  lemma RowsAfterAlike(open: set<Key>, a: seq<Row>, b: seq<Row>, w: Write, values: seq<Value>, defaults: Row)
    requires |w.columns| == |w.slots| && AllAlike(open, a, b)
    requires w.Update? ==> w.identity in open
    ensures AllAlike(open, RowsAfter(a, w, values, defaults), RowsAfter(b, w, values, defaults))
  {
    hide Assigned;
    if w.Update? {
      ChangedAlike(open, a, b, w, values);
    }
  }

  /** A write answers alike, and leaves two databases agreeing that agreed. */
  lemma WritesAlike(
    public: Public, tables: set<Key>, w: Write, values: seq<Value>, defaults: Row, a: Database, b: Database)
    requires |w.columns| == |w.slots|
    requires WriteIsOpen(public, tables, w) && Agree(public, tables, a, b)
    ensures Execute(a, w, values, defaults).1 == Execute(b, w, values, defaults).1
    ensures Agree(public, tables, Execute(a, w, values, defaults).0, Execute(b, w, values, defaults).0)
  {
    WriteAnswersAlike(public, tables, w, values, defaults, a, b);
    hide Execute, AllAlike, RowsAfter, ItemsAreOpen, JoinsAreOpen;
    forall t | t in tables
      ensures AllAlike(public(t), RowsOf(Execute(a, w, values, defaults).0, t), RowsOf(Execute(b, w, values, defaults).0, t))
    {
      TablesAfter(a, w, values, defaults, t);
      TablesAfter(b, w, values, defaults, t);
      if t == w.table {
        RowsAfterAlike(public(t), RowsOf(a, t), RowsOf(b, t), w, values, defaults);
      }
    }
  }

  lemma WriteAnswersAlike(
    public: Public, tables: set<Key>, w: Write, values: seq<Value>, defaults: Row, a: Database, b: Database)
    requires |w.columns| == |w.slots|
    requires WriteIsOpen(public, tables, w) && Agree(public, tables, a, b)
    ensures Execute(a, w, values, defaults).1 == Execute(b, w, values, defaults).1
  {
    var open := public(w.table);
    var ra, rb := RowsOf(a, w.table), RowsOf(b, w.table);
    assert AllAlike(open, ra, rb);
    hide Assigned, Written, JoinAll, ProjectEach, CrossJoin, Matching, Returned, AllAlike, Changed, ItemsAreOpen, JoinsAreOpen, Agree;
    if w.Insert? {
      var row := Returned(Assigned(defaults, w.columns, w.slots, values), w.returning);
      AnsweredAlike(public, tables, w, a, b, [row], [row]);
    } else {
      WrittenAlike(open, ra, rb, w, values);
      AnsweredAlike(public, tables, w, a, b, Written(ra, w, values), Written(rb, w, values));
      var id := Bound(values, w.keySlot);
      MatchesAlike(open, ra, rb, w.identity, id);
      AloneAlike(public, open, Matching(ra, w.identity, id), Matching(rb, w.identity, id));
      ProjectEachAlike(public, open, [], Alone(Matching(ra, w.identity, id)), Alone(Matching(rb, w.identity, id)), w.before);
    }
  }

  /** Nothing but public columns of one table changes, and no row goes. */
  lemma WritesTouchOnlyPublic(
    public: Public, tables: set<Key>, w: Write, values: seq<Value>, defaults: Row, db: Database, t: Key, i: nat, k: Key)
    requires |w.columns| == |w.slots| && WriteIsOpen(public, tables, w)
    requires i < |RowsOf(db, t)| && k !in public(t)
    ensures var after := RowsOf(Execute(db, w, values, defaults).0, t);
      && |after| >= |RowsOf(db, t)|
      && Cell(after[i], k) == Cell(RowsOf(db, t)[i], k)
  {
    TablesAfter(db, w, values, defaults, t);
    hide Execute;
    if t == w.table {
      assert k !in w.columns;
      AssignedOnly(RowsOf(db, t)[i], w.columns, w.slots, values, k);
    }
  }
}
