/** What a picker offers: the records whose names say what was typed, by name and
    then by key, and no more than the ceiling. Each is offered as
    its key and its label, and nothing else of it is read
    (packages/engine/src/query/options.ts:28-58,
    packages/engine/src/read/records.mapper.ts:68-79). */
module Picking {
  import opened Outcomes
  import opened Definitions
  import opened Statements
  import opened Columns
  import opened QueryBuilder
  import opened RecordsMapper
  import opened Validity
  import opened Joins
  import opened Reader
  import Asking
  import Paging
  import Search
  import Servable

  /** A label, as the box somebody types into reads it. */
  ghost predicate SaysIt(pg: Postgres, named: Field, cell: Value, term: string) {
    cell != Null && (named.kind.IsText() ==> cell.Text?) &&
    var text := if named.kind.IsText() then cell.text else pg.text(cell);
    Search.Contains(Search.Folded(pg.fold, text), Search.Folded(pg.fold, term))
  }

  ghost predicate Offerable(pg: Postgres, named: Field, term: Option<string>, row: Row) {
    term.Some? ==> SaysIt(pg, named, Cell(row, named.key), term.value)
  }

  ghost function Matched(pg: Postgres, named: Field, term: Option<string>, rows: seq<Row>): seq<Row> {
    if rows == [] then []
    else
      (if Offerable(pg, named, term, rows[0]) then [rows[0]] else []) + Matched(pg, named, term, rows[1..])
  }

  lemma TermMeans(pg: Postgres, named: Field, term: Option<string>, row: Row, values: seq<Value>)
    requires Search.KeepsMeta(pg.fold)
    requires OptionTerm(named, term).bound <= values
    ensures HoldsAll(pg, row, OptionTerm(named, term).conditions, values) <==> Offerable(pg, named, term, row)
  {
    if term.Some? {
      var c := AnyILike([named.key], !named.kind.IsText(), 1);
      assert Bound(values, 1) == Text(Search.SearchPattern(term.value));
      hide Search.SearchPattern, Search.ILike, Search.Contains, Search.KeepsMeta;
      Asking.HoldsOne(pg, row, c, values);
      var cell := Cell(row, named.key);
      if cell != Null && (named.kind.IsText() ==> cell.Text?) {
        Search.SearchIsSubstringSearch(pg.fold, if named.kind.IsText() then cell.text else pg.text(cell), term.value);
      }
      assert Matches(pg, Cell(row, c.columns[0]), c.asText, Bound(values, 1)) <==>
             SaysIt(pg, named, cell, term.value);
    }
  }

  lemma {:induction false} KeptAreMatched(pg: Postgres, named: Field, term: Option<string>, rows: seq<Row>, values: seq<Value>)
    requires Search.KeepsMeta(pg.fold) && OptionTerm(named, term).bound <= values
    ensures Kept(pg, rows, OptionTerm(named, term).conditions, values) == Matched(pg, named, term, rows)
  {
    hide HoldsAll, Offerable, OptionTerm;
    if rows != [] {
      TermMeans(pg, named, term, rows[0], values);
      KeptAreMatched(pg, named, term, rows[1..], values);
    }
  }

  function OfferFor(d: Driver, r: Resource, named: Field, row: Row): Offer {
    Offer(ToId(d, Cell(row, r.primaryKey)), ToName(d, named.kind, Cell(row, named.key)))
  }

  lemma RowOffers(d: Driver, r: Resource, named: Field, env: Env)
    requires Cell(env.row, r.primaryKey) != Null
    ensures OfferOf(d, named, Project(env, OptionItems(r.primaryKey, named.key))) == Ok(OfferFor(d, r, named, env.row))
  {
    hide ToId, ToName;
    var items := OptionItems(r.primaryKey, named.key);
    assert items[..1] == [items[0]] && [items[0]][..0] == [];
    assert Project(env, [items[0]]) == map[Alias(VALUE_SPACE, 0) := Cell(env.row, r.primaryKey)];
    assert Project(env, items) == Project(env, [items[0]])[Alias(VALUE_SPACE, 1) := Cell(env.row, named.key)];
  }

  lemma {:induction false} EachOffers(d: Driver, named: Field, rows: seq<OutRow>, offers: seq<Offer>)
    requires |offers| == |rows|
    requires forall i :: 0 <= i < |rows| ==> OfferOf(d, named, rows[i]) == Ok(offers[i])
    ensures Offers(d, named, rows) == Ok(offers)
  {
    hide OfferOf;
    if rows != [] {
      EachOffers(d, named, rows[1..], offers[1..]);
      assert offers == [offers[0]] + offers[1..];
    }
  }

  lemma OptionCandidates(c: Context, definition: Definition, db: Database, r: Resource, term: Option<string>)
    requires Paging.Sound(c, db, definition, r, None)
    ensures LabelField(r).Ok? && CompiledOptions(r, term).Ok?
    ensures var named, q := LabelField(r).value, CompiledOptions(r, term).value;
            var rows := Matched(c.pg, named, term, RowsOf(db, r.table));
      && Candidates(c.pg, db, q.statement, q.values) == Labelled(db, rows, [])
      && q.statement.items == OptionItems(r.primaryKey, named.key)
      && q.statement.order == OptionOrder(named.key, r.primaryKey)
      && (forall perm: seq<nat> :: Window(perm, q.statement.limit, q.values) == perm[..Clip(OPTIONS_LIMIT, |perm|)])
      && Unique(rows, r.primaryKey)
  {
    hide Valid, ValidResource, KeysHold, Unique, Kept, Where, LabelField, IdentityField, Matched, TotalOrder, Search.KeepsMeta, Found;
    Servable.ResourceIsIndexed(definition, r);
    Servable.KeyIsServed(r, c.resources);
    Servable.NameIsServed(r, c.resources);
    var named, q := LabelField(r).value, CompiledOptions(r, term).value;
    var all := RowsOf(db, r.table);
    RowsAreLabelled(db, all, []);
    WhereKeeps(c.pg, db, all, [], q.statement.conditions, q.values);
    KeptAreMatched(c.pg, named, term, all, q.values);
    UniqueAt(c, db, r);
    MatchedAreUnique(c.pg, named, term, all, r.primaryKey);
    assert Bound(q.values, |q.values|) == Int(OPTIONS_LIMIT);
  }

  lemma UniqueAt(c: Context, db: Database, r: Resource)
    requires KeysHold(db, c.resources) && r.key in c.resources && c.resources[r.key] == r
    ensures Unique(RowsOf(db, r.table), r.primaryKey)
  {
  }

  lemma {:induction false} MatchedAreUnique(pg: Postgres, named: Field, term: Option<string>, rows: seq<Row>, key: Key)
    requires Unique(rows, key)
    ensures Unique(Matched(pg, named, term, rows), key)
    ensures forall row :: row in Matched(pg, named, term, rows) <==> row in rows && Offerable(pg, named, term, row)
  {
    hide Offerable;
    if rows != [] {
      MatchedAreUnique(pg, named, term, rows[1..], key);
      assert rows == [rows[0]] + rows[1..];
      var rest := Matched(pg, named, term, rows[1..]);
      forall i | 0 <= i < |rest| ensures Cell(rest[i], key) != Cell(rows[0], key) {
        assert rest[i] in rows[1..];
      }
    }
  }

  /** By name, rising; and then, where names tie, by key. */
  function ByName(named: Key, identity: Key): seq<Term> {
    [Term(named, false)] + if named == identity then [] else [Term(identity, false)]
  }

  lemma OptionsAreByName(named: Key, identity: Key)
    ensures OptionOrder(named, identity) == ByName(named, identity)
  {
  }

  /** Whatever a picker may be answered, it is the first of the records whose name
      says the term, by name and then by key, up to the ceiling: each one's key,
      and its own name. */
  lemma APickerOffersTheNamed(
    c: Context, definition: Definition, db: Database, r: Resource, term: Option<string>, answer: Outcome<seq<Offer>>)
    returns (perm: seq<nat>)
    requires Paging.Sound(c, db, definition, r, None)
    requires MayOffer(c, db, r.key, term, answer)
    ensures LabelField(r).Ok? && answer.Ok?
    ensures var named := LabelField(r).value;
            var rows := Matched(c.pg, named, term, RowsOf(db, r.table));
      && Paging.InOrder(c.pg, rows, ByName(named.key, r.primaryKey), perm)
      && |answer.value| == Clip(OPTIONS_LIMIT, |rows|)
      && forall i :: 0 <= i < |answer.value| ==> answer.value[i] == OfferFor(c.driver, r, named, rows[perm[i]])
  {
    hide Paging.Sound, CompiledOptions, Candidates, Matched, LabelField, Unique, TermsLeq, Offers, OptionItems, OptionOrder, ByName, Window, OfferFor, MayOffer, Answers, Output, Paging.InOrder, Permutes, Labelled, TotalOrder;
    OptionCandidates(c, definition, db, r, term);
    IsServedUnderItsKey(c, definition, db, r);
    var named, q := LabelField(r).value, CompiledOptions(r, term).value;
    var rows := Matched(c.pg, named, term, RowsOf(db, r.table));
    var out := ThePicked(c, db, r, term, answer);
    perm := PickedRows(c.pg, db, q, rows, out);
    InOrderIsThere(c.pg, rows, q.statement.order, perm);
    OptionsAreByName(named.key, r.primaryKey);
    OutOffers(c.driver, db, r, named, rows, perm[..Clip(OPTIONS_LIMIT, |rows|)]);
  }

  lemma ThePicked(c: Context, db: Database, r: Resource, term: Option<string>, answer: Outcome<seq<Offer>>)
    returns (out: seq<OutRow>)
    requires r.key in c.resources && c.resources[r.key] == r
    requires CompiledOptions(r, term).Ok? && LabelField(r).Ok? && MayOffer(c, db, r.key, term, answer)
    ensures var q := CompiledOptions(r, term).value;
      && Answers(c.pg, db, q.statement, q.values, out)
      && answer == Offers(c.driver, LabelField(r).value, out)
  {
    hide CompiledOptions, LabelField, Answers, Offers;
    var q := CompiledOptions(r, term).value;
    out :| Answers(c.pg, db, q.statement, q.values, out) && answer == OffersFrom(c, r, out);
  }

  lemma InOrderIsThere(pg: Postgres, rows: seq<Row>, order: seq<Term>, perm: seq<nat>)
    requires Paging.InOrder(pg, rows, order, perm)
    ensures |perm| == |rows| && forall i :: 0 <= i < |rows| ==> perm[i] < |rows|
  {
  }

  lemma IsServedUnderItsKey(c: Context, definition: Definition, db: Database, r: Resource)
    requires Paging.Sound(c, db, definition, r, None)
    ensures r.key in c.resources && c.resources[r.key] == r
  {
    hide Valid, ValidResource, KeysHold;
    Servable.ResourceIsIndexed(definition, r);
  }

  lemma PickedRows(pg: Postgres, db: Database, q: Query<Select>, rows: seq<Row>, out: seq<OutRow>) returns (perm: seq<nat>)
    requires Candidates(pg, db, q.statement, q.values) == Labelled(db, rows, [])
    requires forall p: seq<nat> :: Window(p, q.statement.limit, q.values) == p[..Clip(OPTIONS_LIMIT, |p|)]
    requires Answers(pg, db, q.statement, q.values, out)
    ensures Paging.InOrder(pg, rows, q.statement.order, perm)
    ensures out == Output(Labelled(db, rows, []), perm[..Clip(OPTIONS_LIMIT, |rows|)], q.statement.items)
  {
    hide Candidates, Labelled, Arranges, Output, Window, Paging.InOrder;
    perm := AnAnswersOrder(pg, db, q, Labelled(db, rows, []), out);
    ArrangedIsInOrder(pg, db, rows, q.statement.order, perm);
  }

  /** What is answered came in some order. */
  lemma AnAnswersOrder(pg: Postgres, db: Database, q: Query<Select>, envs: seq<Env>, out: seq<OutRow>) returns (perm: seq<nat>)
    requires Candidates(pg, db, q.statement, q.values) == envs && Answers(pg, db, q.statement, q.values, out)
    ensures Arranges(pg, envs, q.statement.order, perm)
    ensures Within(Window(perm, q.statement.limit, q.values), |envs|)
    ensures out == Output(envs, Window(perm, q.statement.limit, q.values), q.statement.items)
  {
    hide Candidates, TermsLeq, Output;
    perm :| Arranges(pg, envs, q.statement.order, perm) &&
            out == Output(envs, Window(perm, q.statement.limit, q.values), q.statement.items);
  }

  lemma ArrangedIsInOrder(pg: Postgres, db: Database, rows: seq<Row>, order: seq<Term>, perm: seq<nat>)
    requires Arranges(pg, Labelled(db, rows, []), order, perm)
    ensures Paging.InOrder(pg, rows, order, perm) && |perm| == |rows|
  {
    hide TermsLeq, Found;
    var envs := Labelled(db, rows, []);
    assert forall i :: 0 <= i < |rows| ==> envs[i].row == rows[i];
  }

  lemma OutOffers(d: Driver, db: Database, r: Resource, named: Field, rows: seq<Row>, picked: seq<nat>)
    requires Unique(rows, r.primaryKey) && Within(picked, |rows|)
    ensures var out := Output(Labelled(db, rows, []), picked, OptionItems(r.primaryKey, named.key));
            Offers(d, named, out) ==
            Ok(seq(|picked|, i requires 0 <= i < |picked| => OfferFor(d, r, named, rows[picked[i]])))
  {
    hide OfferOf, Offers, OptionItems, OfferFor, Project, Found;
    var envs := Labelled(db, rows, []);
    var out := Output(envs, picked, OptionItems(r.primaryKey, named.key));
    var offers := seq(|picked|, i requires 0 <= i < |picked| => OfferFor(d, r, named, rows[picked[i]]));
    forall i | 0 <= i < |out| ensures OfferOf(d, named, out[i]) == Ok(offers[i]) {
      RowOffers(d, r, named, envs[picked[i]]);
    }
    EachOffers(d, named, out, offers);
  }

  /** A row without a key is no offer, and fails the picker it is in. */
  lemma {:induction false} AnOfferNeedsAKey(d: Driver, named: Field, rows: seq<OutRow>, i: nat)
    requires i < |rows| && RecordsMapper.Column(rows[i], Alias(VALUE_SPACE, 0)) == Null
    ensures Offers(d, named, rows) == Err(Bug)
  {
    if i > 0 {
      assert rows[1..][i - 1] == rows[i];
      AnOfferNeedsAKey(d, named, rows[1..], i - 1);
    }
  }
}
