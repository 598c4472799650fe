/** What a record is, said of its row and the rows it points at, with no statement
    between; and that decoding gives just that. */
module Meaning {
  import opened Outcomes
  import opened Definitions
  import opened Statements
  import opened Columns
  import opened RecordsMapper

  // ------------------------------------------------- the reference reading

  /** The name of the record a key points at, and null when there is none. */
  function NameOf(d: Driver, db: Database, target: Resource, named: Field, key: Value): Value {
    var found := Matching(RowsOf(db, target.table), target.primaryKey, key);
    ToName(d, named.kind, if found == [] then Null else Cell(found[0], named.key))
  }

  function ShownField(d: Driver, db: Database, resources: Resources, row: Row, f: Field): RecordValue {
    var raw := Cell(row, f.key);
    if !f.kind.Relation? then Plain(ToValue(d, f.kind, raw))
    else if f.kind.target !in resources || LabelField(resources[f.kind.target]).Err? then Pointer(ToId(d, raw), Null)
    else
      var target := resources[f.kind.target];
      Pointer(ToId(d, raw), NameOf(d, db, target, LabelField(target).value, raw))
  }

  /** Every field of the list that is not a secret. */
  function Shown(d: Driver, db: Database, resources: Resources, row: Row, fields: seq<Field>): map<Key, RecordValue> {
    if fields == [] then map[]
    else
      var last := fields[|fields| - 1];
      var init := Shown(d, db, resources, row, fields[..|fields| - 1]);
      if last.sensitive then init else init[last.key := ShownField(d, db, resources, row, last)]
  }

  function RecordOf(d: Driver, db: Database, resources: Resources, row: Row, fields: seq<Field>, identity: Key): Record {
    Record(ToId(d, Cell(row, identity)), Shown(d, db, resources, row, fields))
  }

  lemma {:induction false} ShownIsWhatIsNotSecret(
    d: Driver, db: Database, resources: Resources, row: Row, fields: seq<Field>)
    ensures var shown := Shown(d, db, resources, row, fields);
      && (forall k :: k in shown ==>
           exists f :: f in fields && !f.sensitive && f.key == k && shown[k] == ShownField(d, db, resources, row, f))
      && (forall f :: f in fields && !f.sensitive ==> f.key in shown)
  {
    hide ShownField;
    if fields != [] {
      var init, last := fields[..|fields| - 1], fields[|fields| - 1];
      ShownIsWhatIsNotSecret(d, db, resources, row, init);
      assert fields == init + [last];
      var before, shown := Shown(d, db, resources, row, init), Shown(d, db, resources, row, fields);
      forall k | k in shown
        ensures exists f :: f in fields && !f.sensitive && f.key == k && shown[k] == ShownField(d, db, resources, row, f)
      {
        if !last.sensitive && k == last.key {
          assert last in fields;
        } else {
          var f :| f in init && !f.sensitive && f.key == k && before[k] == ShownField(d, db, resources, row, f);
          assert f in fields;
        }
      }
    }
  }

  /** Each field reads its own column as its type has it, and a relation the key it
      holds beside the name of the one row with that key; what is null stays so. */
  lemma EachFieldShowsItsOwnColumn(
    d: Driver, db: Database, resources: Resources, row: Row, fields: seq<Field>, f: Field)
    requires DistinctFields(fields) && f in fields && !f.sensitive
    ensures f.key in Shown(d, db, resources, row, fields)
    ensures var raw, shown := Cell(row, f.key), Shown(d, db, resources, row, fields)[f.key];
      if !f.kind.Relation? then shown == Plain(if raw == Null then Null else d.value(f.kind, raw))
      else
        && shown.Pointer? && shown.id == (if raw == Null then Null else d.id(raw))
        && (f.kind.target in resources && LabelField(resources[f.kind.target]).Ok? ==>
             var target := resources[f.kind.target];
             var named, found :=
               LabelField(target).value, Matching(RowsOf(db, target.table), target.primaryKey, raw);
             shown.name == if found == [] || Cell(found[0], named.key) == Null then Null
                            else d.name(named.kind, Cell(found[0], named.key)))
  {
    ShownIsWhatIsNotSecret(d, db, resources, row, fields);
    hide Shown;
    var g :| g in fields && !g.sensitive && g.key == f.key &&
      Shown(d, db, resources, row, fields)[f.key] == ShownField(d, db, resources, row, g);
    var i :| 0 <= i < |fields| && fields[i] == f;
    var j :| 0 <= j < |fields| && fields[j] == g;
  }

  // ------------------------------------------------------------ selections

  /** Output names number the entries, and every join is one that was made. */
  ghost predicate Aligned(s: Selection, space: char) {
    && |s.items| == |s.entries|
    && (forall i :: 0 <= i < |s.items| ==>
         s.items[i].alias == s.entries[i].alias == Alias(space, i))
    && (forall i :: 0 <= i < |s.items| && s.items[i].from.source.Joined? ==>
         s.items[i].from.source.index < |s.joins|)
    && (forall i :: 0 <= i < |s.items| && !s.entries[i].isLabel ==>
         s.items[i].from == Reference(Base, s.entries[i].key))
  }

  lemma LabelAligns(s: Selection, f: Field, target: Resource, named: Field)
    requires Aligned(s, VALUE_SPACE)
    ensures Aligned(WithLabel(s, f, target, named), VALUE_SPACE)
  {
  }

  lemma FieldAligns(s: Selection, f: Field, resources: Resources)
    requires Aligned(s, VALUE_SPACE) && AddField(s, f, resources).Ok?
    ensures Aligned(AddField(s, f, resources).value, VALUE_SPACE)
  {
    if !f.sensitive {
      if f.kind.Relation? {
        var target := resources[f.kind.target];
        LabelAligns(WithValue(s, f, VALUE_SPACE), f, target, LabelField(target).value);
      }
    }
  }

  lemma {:induction false} SelectionsAlign(fields: seq<Field>, resources: Resources)
    requires Selected(fields, resources).Ok?
    ensures Aligned(Selected(fields, resources).value, VALUE_SPACE)
  {
    if fields != [] {
      var init := fields[..|fields| - 1];
      SelectionsAlign(init, resources);
      FieldAligns(Selected(init, resources).value, fields[|fields| - 1], resources);
    }
  }

  lemma {:induction false} ValuesAlign(fields: seq<Field>, space: char)
    ensures Aligned(Values(fields, space), space)
  {
    if fields != [] {
      ValuesAlign(fields[..|fields| - 1], space);
    }
  }

  /** No output column hides another: each alias reads its own item. */
  lemma {:induction false} EachAliasReadsItsOwn(env: Env, s: Selection, space: char)
    requires Aligned(s, space)
    ensures var row := Project(env, s.items);
      && (forall i :: 0 <= i < |s.items| ==> Column(row, Alias(space, i)) == Read(env, s.items[i].from))
      && (forall a :: a in row <==> a.space == space && a.position < |s.items|)
  {
    ProjectedByPosition(env, s.items, space);
  }

  lemma {:induction false} ProjectedByPosition(env: Env, items: seq<Item>, space: char)
    requires forall i :: 0 <= i < |items| ==> items[i].alias == Alias(space, i)
    ensures var row := Project(env, items);
      && (forall i :: 0 <= i < |items| ==> Alias(space, i) in row && row[Alias(space, i)] == Read(env, items[i].from))
      && (forall a :: a in row <==> a.space == space && a.position < |items|)
  {
    if items != [] {
      ProjectedByPosition(env, items[..|items| - 1], space);
    }
  }

  /** The decoder looks at the aliases its entries name and at no others. */
  lemma {:induction false} DecodingReadsItsAliases(d: Driver, entries: seq<Entry>, a: OutRow, b: OutRow)
    requires forall e :: e in entries ==> Column(a, e.alias) == Column(b, e.alias)
    ensures Decoded(d, entries, a) == Decoded(d, entries, b)
  {
    if entries != [] {
      var init := entries[..|entries| - 1];
      assert forall e :: e in init ==> e in entries;
      DecodingReadsItsAliases(d, init, a, b);
      assert entries[|entries| - 1] in entries;
    }
  }

  /** The first match a join found, for a join that is one of these. */
  function FirstOf(rows: seq<Row>): Option<Row> {
    if rows == [] then None else Some(rows[0])
  }

  ghost predicate JoinedBy(db: Database, env: Env, joins: seq<Join>) {
    && |joins| <= |env.joined|
    && (forall k :: 0 <= k < |joins| ==>
         env.joined[k] == FirstOf(Matching(RowsOf(db, joins[k].table), joins[k].key, Cell(env.row, joins[k].holder))))
  }

  /** Row decoding inverts selection. Read through the generated aliases, a
      joined row decodes to what its fields mean: a relation to its own key and
      its own target's name, any other field to its own column, a secret to
      nothing at all. */
  lemma {:induction false} DecodingInvertsSelection(
    d: Driver, db: Database, resources: Resources, fields: seq<Field>, env: Env)
    requires Selected(fields, resources).Ok?
    requires JoinedBy(db, env, Selected(fields, resources).value.joins)
    ensures var s := Selected(fields, resources).value;
            Decoded(d, s.entries, Project(env, s.items)) == Shown(d, db, resources, env.row, fields)
  {
    if fields != [] {
      var init, last := fields[..|fields| - 1], fields[|fields| - 1];
      var before, after := Selected(init, resources).value, Selected(fields, resources).value;
      SelectionsAlign(init, resources);
      SelectionsAlign(fields, resources);
      SelectionGrows(before, last, resources);
      assert JoinedBy(db, env, before.joins);
      DecodingInvertsSelection(d, db, resources, init, env);
      if !last.sensitive {
        OneMoreField(d, db, resources, before, last, env);
      }
    }
  }

  lemma SelectionGrows(s: Selection, f: Field, resources: Resources)
    requires AddField(s, f, resources).Ok?
    ensures var t := AddField(s, f, resources).value;
            s.items <= t.items && s.joins <= t.joins && s.entries <= t.entries
  {
  }

  lemma DecodedPrefix(d: Driver, s: Selection, t: Selection, env: Env)
    requires Aligned(s, VALUE_SPACE) && Aligned(t, VALUE_SPACE)
    requires s.items <= t.items && s.entries <= t.entries
    ensures Decoded(d, s.entries, Project(env, s.items)) == Decoded(d, s.entries, Project(env, t.items))
  {
    EachAliasReadsItsOwn(env, s, VALUE_SPACE);
    EachAliasReadsItsOwn(env, t, VALUE_SPACE);
    DecodingReadsItsAliases(d, s.entries, Project(env, s.items), Project(env, t.items));
  }

  lemma OneMoreScalar(d: Driver, s: Selection, f: Field, env: Env)
    requires Aligned(s, VALUE_SPACE) && Aligned(WithValue(s, f, VALUE_SPACE), VALUE_SPACE)
    ensures var t := WithValue(s, f, VALUE_SPACE);
            var raw := Cell(env.row, f.key);
            Decoded(d, t.entries, Project(env, t.items)) ==
            Decoded(d, s.entries, Project(env, s.items))[f.key :=
              if f.kind.Relation? then Pointer(ToId(d, raw), Null) else Plain(ToValue(d, f.kind, raw))]
  {
    var t := WithValue(s, f, VALUE_SPACE);
    DecodedPrefix(d, s, t, env);
    EachAliasReadsItsOwn(env, t, VALUE_SPACE);
    var row := Project(env, t.items);
    assert Column(row, Alias(VALUE_SPACE, |s.entries|)) == Read(env, t.items[|s.entries|].from);
  }

  lemma OneMoreRelation(d: Driver, db: Database, s: Selection, f: Field, target: Resource, named: Field, env: Env)
    requires Aligned(s, VALUE_SPACE) && Aligned(WithLabel(s, f, target, named), VALUE_SPACE)
    requires JoinedBy(db, env, WithLabel(s, f, target, named).joins)
    requires var values := Decoded(d, s.entries, Project(env, s.items));
             f.key in values && values[f.key] == Pointer(ToId(d, Cell(env.row, f.key)), Null)
    ensures var t := WithLabel(s, f, target, named);
            var raw := Cell(env.row, f.key);
            Decoded(d, t.entries, Project(env, t.items)) ==
            Decoded(d, s.entries, Project(env, s.items))[f.key :=
              Pointer(ToId(d, raw), NameOf(d, db, target, named, raw))]
  {
    var t := WithLabel(s, f, target, named);
    DecodedPrefix(d, s, t, env);
    EachAliasReadsItsOwn(env, t, VALUE_SPACE);
    var row := Project(env, t.items);
    var n, k := |s.entries|, |s.joins|;
    assert t.joins[k] == Join(target.table, target.primaryKey, f.key);
    var read := Read(env, t.items[n].from);
    assert Column(row, Alias(VALUE_SPACE, n)) == read;
  }

  /** A relation's key and its target's name go in one after the other. */
  lemma OneMorePointer(d: Driver, db: Database, s: Selection, f: Field, target: Resource, named: Field, env: Env)
    requires Aligned(s, VALUE_SPACE) && f.kind.Relation?
    requires JoinedBy(db, env, WithLabel(WithValue(s, f, VALUE_SPACE), f, target, named).joins)
    ensures var t := WithLabel(WithValue(s, f, VALUE_SPACE), f, target, named);
            var raw := Cell(env.row, f.key);
            Decoded(d, t.entries, Project(env, t.items)) ==
            Decoded(d, s.entries, Project(env, s.items))[f.key :=
              Pointer(ToId(d, raw), NameOf(d, db, target, named, raw))]
  {
    hide WithLabel, JoinedBy, NameOf, Project, Decoded;
    var valued := WithValue(s, f, VALUE_SPACE);
    LabelAligns(valued, f, target, named);
    OneMoreScalar(d, s, f, env);
    OneMoreRelation(d, db, valued, f, target, named, env);
  }

  lemma OneMoreField(d: Driver, db: Database, resources: Resources, s: Selection, f: Field, env: Env)
    requires Aligned(s, VALUE_SPACE) && !f.sensitive
    requires AddField(s, f, resources).Ok?
    requires JoinedBy(db, env, AddField(s, f, resources).value.joins)
    ensures var t := AddField(s, f, resources).value;
            Decoded(d, t.entries, Project(env, t.items)) ==
            Decoded(d, s.entries, Project(env, s.items))[f.key := ShownField(d, db, resources, env.row, f)]
  {
    if f.kind.Relation? {
      var target := resources[f.kind.target];
      OneMorePointer(d, db, s, f, target, LabelField(target).value, env);
    } else {
      OneMoreScalar(d, s, f, env);
    }
  }
}
