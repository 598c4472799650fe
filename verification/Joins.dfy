/** Label joins, under the one hypothesis they need: a primary key names one row
    of its table, and is never null. */
module Joins {
  import opened Outcomes
  import opened Definitions
  import opened Statements
  import opened Columns
  import opened Meaning

  ghost predicate Unique(rows: seq<Row>, key: Key) {
    && (forall i :: 0 <= i < |rows| ==> Cell(rows[i], key) != Null)
    && (forall i, j :: 0 <= i < j < |rows| ==> Cell(rows[i], key) != Cell(rows[j], key))
  }

  /** Primary keys are unique and non-null in every table a resource reads. */
  ghost predicate KeysHold(db: Database, resources: Resources) {
    forall k :: k in resources ==> Unique(RowsOf(db, resources[k].table), resources[k].primaryKey)
  }

  /** Every join goes to some resource's key, and nowhere else. */
  ghost predicate JoinsKeys(joins: seq<Join>, db: Database) {
    forall k :: 0 <= k < |joins| ==> Unique(RowsOf(db, joins[k].table), joins[k].key)
  }

  lemma {:induction false} AtMostOneMatch(rows: seq<Row>, key: Key, v: Value)
    requires Unique(rows, key)
    ensures |Matching(rows, key, v)| <= 1
  {
    if rows != [] {
      AtMostOneMatch(rows[1..], key, v);
      if Same(Cell(rows[0], key), v) {
        NoneMatch(rows[1..], key, v);
      }
    }
  }

  lemma {:induction false} NoneMatch(rows: seq<Row>, key: Key, v: Value)
    requires forall i :: 0 <= i < |rows| ==> !Same(Cell(rows[i], key), v)
    ensures Matching(rows, key, v) == []
  {
    if rows != [] {
      NoneMatch(rows[1..], key, v);
    }
  }

  /** What each join of a list finds for one row. */
  function Found(db: Database, row: Row, joins: seq<Join>): (found: seq<Option<Row>>)
    ensures |found| == |joins|
  {
    seq(|joins|, k requires 0 <= k < |joins| =>
      FirstOf(Matching(RowsOf(db, joins[k].table), joins[k].key, Cell(row, joins[k].holder))))
  }

  lemma JoinKeepsTheRow(env: Env, rows: seq<Row>, join: Join)
    requires Unique(rows, join.key)
    ensures JoinOne(env, rows, join) ==
            [Env(env.row, env.joined + [FirstOf(Matching(rows, join.key, Cell(env.row, join.holder)))])]
  {
    AtMostOneMatch(rows, join.key, Cell(env.row, join.holder));
  }

  lemma {:induction false} JoinKeepsEachRow(envs: seq<Env>, rows: seq<Row>, join: Join)
    requires Unique(rows, join.key)
    ensures |JoinEach(envs, rows, join)| == |envs|
    ensures forall i :: 0 <= i < |envs| ==> (
      JoinEach(envs, rows, join)[i] ==
      Env(envs[i].row, envs[i].joined + [FirstOf(Matching(rows, join.key, Cell(envs[i].row, join.holder)))]))
  {
    if envs != [] {
      JoinKeepsTheRow(envs[0], rows, join);
      JoinKeepsEachRow(envs[1..], rows, join);
    }
  }

  /** Joins neither add a row nor drop one: each row comes out once, beside what
      its joins found. */
  lemma {:induction false} JoinsKeepRows(db: Database, envs: seq<Env>, joins: seq<Join>)
    requires JoinsKeys(joins, db)
    ensures var joined := JoinAll(db, envs, joins);
      && |joined| == |envs|
      && forall i :: 0 <= i < |envs| ==> joined[i] == Env(envs[i].row, envs[i].joined + Found(db, envs[i].row, joins))
    decreases |joins|
  {
    if joins == [] {
      forall i | 0 <= i < |envs| ensures envs[i] == Env(envs[i].row, envs[i].joined + Found(db, envs[i].row, [])) {
        assert envs[i].joined + Found(db, envs[i].row, []) == envs[i].joined;
      }
    } else {
      hide Unique, Found, Matching, RowsOf;
      var first, rest := joins[0], joins[1..];
      var rows := RowsOf(db, first.table);
      JoinKeepsEachRow(envs, rows, first);
      var joined := JoinEach(envs, rows, first);
      JoinsKeepRows(db, joined, rest);
      forall i | 0 <= i < |envs|
        ensures JoinAll(db, envs, joins)[i] == Env(envs[i].row, envs[i].joined + Found(db, envs[i].row, joins))
      {
        FoundFirst(db, envs[i], joins);
      }
    }
  }

  lemma FoundFirst(db: Database, env: Env, joins: seq<Join>)
    requires joins != []
    ensures var one := [FirstOf(Matching(RowsOf(db, joins[0].table), joins[0].key, Cell(env.row, joins[0].holder)))];
            (env.joined + one) + Found(db, env.row, joins[1..]) == env.joined + Found(db, env.row, joins)
  {
    hide Matching;
    var one := [FirstOf(Matching(RowsOf(db, joins[0].table), joins[0].key, Cell(env.row, joins[0].holder)))];
    assert Found(db, env.row, joins) == one + Found(db, env.row, joins[1..]);
  }

  /** Rows beside what their joins found. */
  function Labelled(db: Database, rows: seq<Row>, joins: seq<Join>): (envs: seq<Env>)
    ensures |envs| == |rows|
    ensures forall i :: 0 <= i < |rows| ==> envs[i] == Env(rows[i], Found(db, rows[i], joins))
  {
    seq(|rows|, i requires 0 <= i < |rows| => Env(rows[i], Found(db, rows[i], joins)))
  }

  lemma RowsAreLabelled(db: Database, rows: seq<Row>, joins: seq<Join>)
    requires JoinsKeys(joins, db)
    ensures JoinAll(db, Alone(rows), joins) == Labelled(db, rows, joins)
  {
    JoinsKeepRows(db, Alone(rows), joins);
    forall i | 0 <= i < |rows| ensures JoinAll(db, Alone(rows), joins)[i] == Labelled(db, rows, joins)[i] {
      assert [] + Found(db, rows[i], joins) == Found(db, rows[i], joins);
    }
  }

  lemma LabelledIsJoined(db: Database, row: Row, joins: seq<Join>)
    ensures JoinedBy(db, Env(row, Found(db, row, joins)), joins)
  {
  }

  /** A selection joins to its relations' targets by their primary keys. */
  lemma {:induction false} SelectionJoinsKeys(fields: seq<Field>, resources: Resources, db: Database)
    requires KeysHold(db, resources) && Selected(fields, resources).Ok?
    ensures JoinsKeys(Selected(fields, resources).value.joins, db)
  {
    hide Unique;
    if fields != [] {
      var init, last := fields[..|fields| - 1], fields[|fields| - 1];
      SelectionJoinsKeys(init, resources, db);
      if !last.sensitive && last.kind.Relation? {
        assert last.kind.target in resources;
      }
    }
  }

  // ------------------------------------------------------------ what is kept

  /** The rows that meet every condition, in the order the table holds them. */
  function Kept(pg: Postgres, rows: seq<Row>, conditions: seq<Condition>, values: seq<Value>): seq<Row> {
    if rows == [] then []
    else
      (if HoldsAll(pg, rows[0], conditions, values) then [rows[0]] else []) + Kept(pg, rows[1..], conditions, values)
  }

  lemma {:induction false} WhereKeeps(
    pg: Postgres, db: Database, rows: seq<Row>, joins: seq<Join>, conditions: seq<Condition>, values: seq<Value>)
    ensures Where(pg, Labelled(db, rows, joins), conditions, values) ==
            Labelled(db, Kept(pg, rows, conditions, values), joins)
  {
    hide HoldsAll, Found;
    if rows != [] {
      WhereKeeps(pg, db, rows[1..], joins, conditions, values);
      var kept := Kept(pg, rows[1..], conditions, values);
      assert Labelled(db, rows, joins)[1..] == Labelled(db, rows[1..], joins);
      assert Labelled(db, [rows[0]] + kept, joins) == [Labelled(db, rows, joins)[0]] + Labelled(db, kept, joins);
    }
  }

  lemma {:induction false} WhereCounts(
    pg: Postgres, rows: seq<Row>, conditions: seq<Condition>, values: seq<Value>)
    ensures |Where(pg, Alone(rows), conditions, values)| == |Kept(pg, rows, conditions, values)|
  {
    hide HoldsAll;
    if rows != [] {
      assert Alone(rows)[1..] == Alone(rows[1..]);
      WhereCounts(pg, rows[1..], conditions, values);
    }
  }
}
