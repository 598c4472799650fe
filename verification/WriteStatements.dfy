/** Inserts and updates compiled, each with the select that reads its row back
    (packages/engine/src/query/write-statements.ts). */
module WriteStatements {
  import opened Outcomes
  import opened Definitions
  import opened Statements
  import opened Columns
  import opened Conditions
  import opened RecordValues

  /** What `returning` lists: the columns of the row itself, and no joined label. */
  function ReturningList(entries: seq<Entry>): seq<Key> {
    if entries == [] then []
    else
      var last := entries[|entries| - 1];
      ReturningList(entries[..|entries| - 1]) + if last.isLabel then [] else [last.key]
  }

  function FieldsOf(assignments: seq<Assignment>): (fields: seq<Field>)
    ensures |fields| == |assignments|
    ensures forall i :: 0 <= i < |assignments| ==> fields[i] == assignments[i].field
  {
    seq(|assignments|, i requires 0 <= i < |assignments| => assignments[i].field)
  }

  function KeysOf(assignments: seq<Assignment>): (keys: seq<Key>)
    ensures |keys| == |assignments|
    ensures forall i :: 0 <= i < |assignments| ==> keys[i] == assignments[i].field.key
  {
    seq(|assignments|, i requires 0 <= i < |assignments| => assignments[i].field.key)
  }

  function ValuesOf(assignments: seq<Assignment>): (values: seq<Value>)
    ensures |values| == |assignments|
    ensures forall i :: 0 <= i < |assignments| ==> values[i] == assignments[i].value
  {
    seq(|assignments|, i requires 0 <= i < |assignments| => assignments[i].value)
  }

  /** `$1`, `$2`, …: one slot for each assignment, in order. */
  function SlotsFor(n: nat): (slots: seq<nat>)
    ensures |slots| == n
    ensures forall i :: 0 <= i < n ==> slots[i] == i + 1
  {
    seq(n, i => i + 1)
  }

  method BindValues(assignments: seq<Assignment>, parameters: Parameters) returns (slots: seq<nat>)
    requires parameters.bound == []
    modifies parameters
    ensures slots == SlotsFor(|assignments|)
    ensures parameters.bound == ValuesOf(assignments)
  {
    slots := [];
    for i := 0 to |assignments|
      invariant slots == SlotsFor(i)
      invariant parameters.bound == ValuesOf(assignments)[..i]
    {
      var slot := parameters.Bind(assignments[i].value);
      slots := slots + [slot];
    }
  }

  function CompiledInsert(resources: Resources, resource: Resource, assignments: seq<Assignment>)
    : (r: Outcome<Query<Write>>)
    ensures r.Ok? ==> |r.value.statement.columns| == |r.value.statement.slots|
  {
    var _ :- RefuseUnwritable(resource, assignments, Creating);
    var _ :- IdentityField(resource);
    var selection :- Selected(resource.fields, resources);
    var w := Insert(
      resource.table, KeysOf(assignments), SlotsFor(|assignments|),
      ReturningList(selection.entries), selection.items, selection.joins);
    Ok(Query(w, ValuesOf(assignments), selection.entries, []))
  }

  function CompiledUpdate(
    resources: Resources, resource: Resource, assignments: seq<Assignment>, id: Value): (r: Outcome<Query<Write>>)
    ensures r.Ok? ==> |r.value.statement.columns| == |r.value.statement.slots|
  {
    var _ :- RefuseUnwritable(resource, assignments, Updating);
    var identity :- IdentityField(resource);
    var selection :- Selected(resource.fields, resources);
    var before := Values(FieldsOf(assignments), BEFORE_SPACE);
    var w := Update(
      resource.table, KeysOf(assignments), SlotsFor(|assignments|), identity.key, |assignments| + 1,
      before.items, ReturningList(selection.entries), selection.items, selection.joins);
    Ok(Query(w, ValuesOf(assignments) + [id], selection.entries, before.entries))
  }

  method InsertStatement(resources: Resources, resource: Resource, assignments: seq<Assignment>)
    returns (r: Outcome<Query<Write>>)
    ensures r == CompiledInsert(resources, resource, assignments)
  {
    hide RefuseUnwritable, IdentityField, Selected, Values, ReturningList, KeysOf, FieldsOf, SlotsFor, ValuesOf;
    var refused := RefuseUnwritable(resource, assignments, Creating);
    if refused.Err? {
      return Err(refused.failure);
    }
    var identity := IdentityField(resource);
    if identity.Err? {
      return Err(identity.failure);
    }
    var selection := SelectFields(resource.fields, resources);
    if selection.Err? {
      return Err(selection.failure);
    }
    var parameters := new Parameters();
    var slots := BindValues(assignments, parameters);
    var w := Insert(
      resource.table, KeysOf(assignments), slots,
      ReturningList(selection.value.entries), selection.value.items, selection.value.joins);
    return Ok(Query(w, parameters.bound, selection.value.entries, []));
  }

  method UpdateStatement(resources: Resources, resource: Resource, assignments: seq<Assignment>, id: Value)
    returns (r: Outcome<Query<Write>>)
    ensures r == CompiledUpdate(resources, resource, assignments, id)
  {
    hide RefuseUnwritable, IdentityField, Selected, Values, ReturningList, KeysOf, FieldsOf, SlotsFor, ValuesOf;
    var refused := RefuseUnwritable(resource, assignments, Updating);
    if refused.Err? {
      return Err(refused.failure);
    }
    var identity := IdentityField(resource);
    if identity.Err? {
      return Err(identity.failure);
    }
    var selection := SelectFields(resource.fields, resources);
    if selection.Err? {
      return Err(selection.failure);
    }
    var parameters := new Parameters();
    var slots := BindValues(assignments, parameters);
    var key := parameters.Bind(id);
    var items, entries := SelectValues(FieldsOf(assignments), BEFORE_SPACE);
    var w := Update(
      resource.table, KeysOf(assignments), slots, identity.value.key, key,
      items, ReturningList(selection.value.entries), selection.value.items, selection.value.joins);
    return Ok(Query(w, parameters.bound, selection.value.entries, entries));
  }
}
