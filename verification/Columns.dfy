/** Fields by their keys, and selections of them
    (packages/engine/src/query/fields.ts, columns.ts). */
module Columns {
  import opened Outcomes
  import opened Definitions
  import opened Statements

  type Resources = map<Key, Resource>

  function RequireField(resource: Resource, key: Key): Outcome<Field> {
    var fields := IndexFields(resource.fields);
    if key in fields then Ok(fields[key]) else Err(Bug)
  }

  /** The primary key, if it is declared and no secret. */
  function IdentityField(resource: Resource): Outcome<Field> {
    var field :- RequireField(resource, resource.primaryKey);
    if field.sensitive then Err(Unservable) else Ok(field)
  }

  /** The field that `LabelKey` names, on the same terms. */
  function LabelField(resource: Resource): Outcome<Field> {
    var field :- RequireField(resource, resource.LabelKey());
    if field.sensitive then Err(Unservable) else Ok(field)
  }

  /** Why a key or a label will not do: it is a secret, which a definition may be
      rid of, or it is not declared at all, which is a bug of ours. */
  lemma ASecretIsUnservable(resource: Resource, f: Field)
    requires DistinctFields(resource.fields) && f in resource.fields
    ensures f.key == resource.primaryKey ==>
              IdentityField(resource) == if f.sensitive then Err(Unservable) else Ok(f)
    ensures f.key == resource.LabelKey() ==>
              LabelField(resource) == if f.sensitive then Err(Unservable) else Ok(f)
  {
    FieldByKey(resource.fields, f);
  }

  lemma AnUndeclaredFieldIsABug(resource: Resource, key: Key)
    requires forall f :: f in resource.fields ==> f.key != key
    ensures RequireField(resource, key) == Err(Bug)
    ensures key == resource.primaryKey ==> IdentityField(resource) == Err(Bug)
    ensures key == resource.LabelKey() ==> LabelField(resource) == Err(Bug)
  {
    FieldsIndexed(resource.fields);
  }

  function RequireFields(resource: Resource, keys: seq<Key>): Outcome<seq<Field>> {
    if keys == [] then Ok([])
    else
      var init :- RequireFields(resource, keys[..|keys| - 1]);
      var last :- RequireField(resource, keys[|keys| - 1]);
      Ok(init + [last])
  }

  lemma {:induction false} RequiredFields(resource: Resource, keys: seq<Key>)
    ensures var r := RequireFields(resource, keys);
            r.Ok? ==> |r.value| == |keys| &&
                      forall i :: 0 <= i < |keys| ==> RequireField(resource, keys[i]) == Ok(r.value[i])
  {
    if keys != [] {
      RequiredFields(resource, keys[..|keys| - 1]);
    }
  }

  /** What a list selects: the view's columns and, once, the key. */
  function ListFields(resource: Resource): Outcome<seq<Field>> {
    var identity :- IdentityField(resource);
    var columns :- RequireFields(resource, resource.view.columns);
    if exists i :: 0 <= i < |columns| && columns[i].key == identity.key then Ok(columns)
    else Ok(columns + [identity])
  }

  /** The select list, the joins its labels need, and how to read it back. */
  datatype Selection = Selection(items: seq<Item>, joins: seq<Join>, entries: seq<Entry>)

  /** Alias spaces: of a record as it is, and of what an update replaced
      (columns.ts:30, write-statements.ts:31). */
  const VALUE_SPACE: char := 'c'
  const BEFORE_SPACE: char := 'b'

  function WithValue(s: Selection, field: Field, space: char): Selection {
    var alias := Alias(space, |s.entries|);
    Selection(
      s.items + [Item(Reference(Base, field.key), alias)],
      s.joins,
      s.entries + [Entry(alias, field.key, false, field)])
  }

  function WithLabel(s: Selection, field: Field, target: Resource, named: Field): Selection {
    var alias := Alias(VALUE_SPACE, |s.entries|);
    Selection(
      s.items + [Item(Reference(Joined(|s.joins|), named.key), alias)],
      s.joins + [Join(target.table, target.primaryKey, field.key)],
      s.entries + [Entry(alias, field.key, true, named)])
  }

  /** What one more field adds to a selection. */
  function AddField(s: Selection, field: Field, resources: Resources): Outcome<Selection> {
    if field.sensitive then Ok(s)
    else
      var valued := WithValue(s, field, VALUE_SPACE);
      if !field.kind.Relation? then Ok(valued)
      else if field.kind.target !in resources then Err(Bug)
      else
        var target := resources[field.kind.target];
        var named :- LabelField(target);
        Ok(WithLabel(valued, field, target, named))
  }

  function Selected(fields: seq<Field>, resources: Resources): Outcome<Selection> {
    if fields == [] then Ok(Selection([], [], []))
    else
      var init :- Selected(fields[..|fields| - 1], resources);
      AddField(init, fields[|fields| - 1], resources)
  }

  method SelectFields(fields: seq<Field>, resources: Resources) returns (r: Outcome<Selection>)
    ensures r == Selected(fields, resources)
  {
    var entries: seq<Entry> := [];
    var items: seq<Item> := [];
    var joins: seq<Join> := [];
    var i := 0;
    while i < |fields|
      invariant 0 <= i <= |fields|
      invariant Selected(fields[..i], resources) == Ok(Selection(items, joins, entries))
    {
      var field := fields[i];
      assert fields[..i + 1][..i] == fields[..i];
      i := i + 1;
      if field.sensitive { continue; }

      items := items + [Item(Reference(Base, field.key), Alias(VALUE_SPACE, |entries|))];
      entries := entries + [Entry(Alias(VALUE_SPACE, |entries|), field.key, false, field)];
      if !field.kind.Relation? { continue; }

      if field.kind.target !in resources {
        SelectionFailsEarly(fields, i, resources);
        return Err(Bug);
      }
      var target := resources[field.kind.target];
      var named := LabelField(target);
      if named.Err? {
        SelectionFailsEarly(fields, i, resources);
        return Err(named.failure);
      }

      var joinAlias := |joins|;
      joins := joins + [Join(target.table, target.primaryKey, field.key)];
      items := items + [Item(Reference(Joined(joinAlias), named.value.key), Alias(VALUE_SPACE, |entries|))];
      entries := entries + [Entry(Alias(VALUE_SPACE, |entries|), field.key, true, named.value)];
    }
    assert fields[..i] == fields;
    return Ok(Selection(items, joins, entries));
  }

  /** The first field that cannot be selected is the one the caller hears of. */
  lemma {:induction false} SelectionFailsEarly(fields: seq<Field>, n: nat, resources: Resources)
    requires n <= |fields|
    requires Selected(fields[..n], resources).Err?
    ensures Selected(fields, resources) == Selected(fields[..n], resources)
    decreases |fields|
  {
    if n == |fields| {
      assert fields[..n] == fields;
    } else {
      var init := fields[..|fields| - 1];
      assert init[..n] == fields[..n];
      SelectionFailsEarly(init, n, resources);
    }
  }

  /** No joins and no labels: the columns themselves, in an alias space of the
      caller's choosing. */
  function Values(fields: seq<Field>, space: char): (s: Selection)
    ensures s.joins == []
  {
    if fields == [] then Selection([], [], [])
    else
      var init := Values(fields[..|fields| - 1], space);
      var field := fields[|fields| - 1];
      if field.sensitive then init else WithValue(init, field, space)
  }

  method SelectValues(fields: seq<Field>, space: char) returns (items: seq<Item>, entries: seq<Entry>)
    ensures Selection(items, [], entries) == Values(fields, space)
  {
    items, entries := [], [];
    for i := 0 to |fields|
      invariant Selection(items, [], entries) == Values(fields[..i], space)
    {
      assert fields[..i + 1][..i] == fields[..i];
      if fields[i].sensitive { continue; }

      items := items + [Item(Reference(Base, fields[i].key), Alias(space, |entries|))];
      entries := entries + [Entry(Alias(space, |entries|), fields[i].key, false, fields[i])];
    }
    assert fields[..|fields|] == fields;
  }
}
