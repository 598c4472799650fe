/** What the customer's database said of a write, as the caller hears it: a
    category, and the one field it can be about, if there is one
    (packages/engine/src/write/record-writer.ts:214-269, 321-343). */
module Translation {
  import opened Outcomes
  import opened Definitions
  import opened RecordValues
  import opened FrameErrors
  import opened Rungs

  /** SQLSTATE, and the column where the driver was told one. */
  datatype DatabaseError = DatabaseError(code: string, column: Option<Key>, said: string)

  function Matched(assignments: seq<Assignment>, matches: Field -> bool): seq<Assignment> {
    if assignments == [] then []
    else (if matches(assignments[0].field) then [assignments[0]] else []) + Matched(assignments[1..], matches)
  }

  function PathFor(assignments: seq<Assignment>, matches: Field -> bool): Option<Key> {
    var found := Matched(assignments, matches);
    if |found| == 1 then Some(found[0].field.key) else None
  }

  const REFUSED := "This record could not be saved."

  function Refusal(key: Option<Key>): Thrown {
    ValidationFailedError(REFUSED, [if key.Some? then "values." + key.value else "values"])
  }

  function OfColumn(column: Option<Key>): Field -> bool {
    (f: Field) => Some(f.key) == column
  }

  function OfRelation(): Field -> bool {
    (f: Field) => f.kind.Relation?
  }

  function Translated(e: DatabaseError, assignments: seq<Assignment>): Thrown {
    if e.code == "57014" then QueryTimeoutError("The database took too long to answer this write.")
    else if e.code == "23505" then ConflictError("Another record already holds one of these values.")
    else if e.code == "23502" then Refusal(PathFor(assignments, OfColumn(e.column)))
    else if e.code == "23503" then Refusal(PathFor(assignments, OfRelation()))
    else if e.code == "23514" then Refusal(None)
    else if "22" <= e.code then Refusal(None)
    else Foreign(e.said)
  }

  ghost predicate OnlyCandidate(assignments: seq<Assignment>, matches: Field -> bool, i: nat) {
    && i < |assignments| && matches(assignments[i].field)
    && forall j :: 0 <= j < |assignments| && matches(assignments[j].field) ==> j == i
  }

  lemma {:induction false} NoneMatched(assignments: seq<Assignment>, matches: Field -> bool)
    ensures Matched(assignments, matches) == [] <==>
            forall j :: 0 <= j < |assignments| ==> !matches(assignments[j].field)
  {
    if assignments != [] {
      NoneMatched(assignments[1..], matches);
    }
  }

  /** A path is given exactly when one column of the write can have been meant,
      and then it is that one's. */
  lemma {:induction false} APathIsTheOnlyCandidate(assignments: seq<Assignment>, matches: Field -> bool)
    ensures PathFor(assignments, matches).Some? <==> exists i: nat :: OnlyCandidate(assignments, matches, i)
    ensures forall i: nat :: OnlyCandidate(assignments, matches, i) ==>
      PathFor(assignments, matches) == Some(assignments[i].field.key)
  {
    if assignments != [] {
      var rest := assignments[1..];
      APathIsTheOnlyCandidate(rest, matches);
      NoneMatched(rest, matches);
      if matches(assignments[0].field) {
        assert Matched(rest, matches) == [] <==> OnlyCandidate(assignments, matches, 0);
      } else {
        forall i: nat ensures OnlyCandidate(assignments, matches, i) <==> i > 0 && OnlyCandidate(rest, matches, i - 1) {
          assert forall j :: 0 <= j < |rest| ==> rest[j] == assignments[j + 1];
          if i > 0 && OnlyCandidate(rest, matches, i - 1) {
            forall j | 0 <= j < |assignments| && matches(assignments[j].field) ensures j == i {
              assert assignments[j] == rest[j - 1];
            }
          }
        }
        if i: nat :| OnlyCandidate(rest, matches, i) {
          assert OnlyCandidate(assignments, matches, i + 1);
        }
      }
    }
  }

  /** The assignment a refusal can only have been about: of a column that may not
      be null, the one that column is of; of a key that points at nothing, the
      one relation written. */
  ghost predicate Blamed(e: DatabaseError, assignments: seq<Assignment>, i: nat) {
    || (e.code == "23502" && OnlyCandidate(assignments, OfColumn(e.column), i))
    || (e.code == "23503" && OnlyCandidate(assignments, OfRelation(), i))
  }

  /** Of everything the database may say of a write: a caller is told of one field
      exactly when the refusal can only have been about that one, and is so under
      no other code. */
  lemma ARefusalNamesTheOneFieldItIsAbout(e: DatabaseError, assignments: seq<Assignment>, key: Key)
    ensures Translated(e, assignments) == Refusal(Some(key)) <==>
            exists i: nat :: Blamed(e, assignments, i) && assignments[i].field.key == key
  {
    if e.code == "23502" {
      NamesTheCandidate(assignments, OfColumn(e.column), key);
    } else if e.code == "23503" {
      NamesTheCandidate(assignments, OfRelation(), key);
    } else {
      RefusalsDiffer(None, Some(key));
    }
    hide PathFor, OnlyCandidate, OfColumn, OfRelation;
    assert e.code == "23502" ==> forall i: nat :: Blamed(e, assignments, i) <==> OnlyCandidate(assignments, OfColumn(e.column), i);
    assert e.code == "23503" ==> forall i: nat :: Blamed(e, assignments, i) <==> OnlyCandidate(assignments, OfRelation(), i);
  }

  lemma NamesTheCandidate(assignments: seq<Assignment>, matches: Field -> bool, key: Key)
    ensures Refusal(PathFor(assignments, matches)) == Refusal(Some(key)) <==>
            exists i: nat :: OnlyCandidate(assignments, matches, i) && assignments[i].field.key == key
  {
    APathIsTheOnlyCandidate(assignments, matches);
    RefusalsDiffer(PathFor(assignments, matches), Some(key));
    hide PathFor, Refusal;
    if PathFor(assignments, matches) == Some(key) {
      var i: nat :| OnlyCandidate(assignments, matches, i);
    }
  }

  /** A refusal tells which field it names. */
  lemma RefusalsDiffer(a: Option<Key>, b: Option<Key>)
    ensures Refusal(a) == Refusal(b) <==> a == b
  {
    if a.Some? {
      assert ("values." + a.value)[7..] == a.value;
    }
    if b.Some? {
      assert ("values." + b.value)[7..] == b.value;
    }
  }

  /** What the log records of it: a refusal, of the codes the customer's database
      answers a bad value with, and a failure otherwise. */
  lemma OnlyTheDatabasesRefusalsAreRefusals(e: DatabaseError, assignments: seq<Assignment>)
    ensures RecordedAs(Translated(e, assignments)).0 == RefusedIt <==>
            e.code == "23505" || e.code == "23502" || e.code == "23503" || e.code == "23514" || "22" <= e.code
  {
    hide PathFor, RecordedAs;
    Standings();
    assert "57014"[0] == '5' && "22"[0] == '2';
  }

  /** And what the caller is told it as: a conflict for what another record holds
      already, the hop's own status for a write cut short, a submission to mend for
      a bad value, and nothing of any other failure. */
  lemma EachRefusalIsToldAsWhatItIs(e: DatabaseError, assignments: seq<Assignment>)
    ensures var told := EnvelopeOf(Translated(e, assignments));
      if e.code == "23505" then told.status == 409 && told.code == "conflict"
      else if e.code == "57014" then told.status == 504 && told.code == "query_timeout"
      else if e.code == "23502" || e.code == "23503" || e.code == "23514" || "22" <= e.code then
        told.status == 422 && told.code == "validation_failed"
      else told == Envelope(500, "internal_error", "Internal server error", None)
  {
    hide PathFor;
    assert "23505"[1] == '3' && "22"[1] == '2' && "57014"[0] == '5';
    var t := Translated(e, assignments);
    match t
    case ConflictError(_) => assert t.Code() == "conflict";
    case QueryTimeoutError(_) => assert t.Code() == "query_timeout";
    case ValidationFailedError(_, _) => assert t.Code() == "validation_failed";
    case Foreign(_) => assert INTERNAL == "internal_error";
  }

  lemma Standings()
    ensures forall message, details :: RecordedAs(ValidationFailedError(message, details)).0 == RefusedIt
    ensures forall message :: RecordedAs(ConflictError(message)).0 == RefusedIt
    ensures forall message :: RecordedAs(QueryTimeoutError(message)).0 == BrokeDown
    ensures forall text :: RecordedAs(Foreign(text)).0 == BrokeDown
  {
    assert "conflict" in ["conflict", "validation_failed", "write_refused", "not_found", "invalid_query", "action_rejected"];
  }
}
