/** What a submitted write may carry, asked once of the submission and once of
    the columns it became (packages/contracts/src/runtime/values.ts). */
module RecordValues {
  import opened Outcomes
  import opened Definitions

  datatype Mode = Creating | Updating

  /** A JSON object: its keys in the order they arrived, and what each holds. */
  datatype Submission = Submission(keys: seq<Key>, values: map<Key, Value>) {
    ghost predicate WellFormed() {
      && (forall k :: k in keys <==> k in values)
      && (forall i, j :: 0 <= i < j < |keys| ==> keys[i] != keys[j])
    }
  }

  datatype Reason = Secret | IssuedByDatabase | SetWhenMade | NoInputFits | NotEditable

  datatype Problem =
    | NothingSubmitted
    | UnknownField(key: Key)
    | Refused(key: Key, reason: Reason)
    | CannotBeNull(key: Key)
    | CannotBeEmpty(key: Key)
    | WrongType(key: Key)
    | Missing(key: Key)

  /** The first objection to a submission that names the field, in the order the
      objections are raised; `None` when there is none (values.ts:129-186). */
  function RefusalFor(resource: Resource, field: Field, mode: Mode): Option<Reason> {
    if field.sensitive then Some(Secret)
    else if field.key == resource.primaryKey && resource.KeysFrom() == Database then Some(IssuedByDatabase)
    else if field.key == resource.primaryKey && mode == Updating then Some(SetWhenMade)
    else if !field.kind.IsWritable() then Some(NoInputFits)
    else if !field.editable then Some(NotEditable)
    else None
  }

  predicate Writable(resource: Resource, field: Field, mode: Mode) {
    RefusalFor(resource, field, mode) == None
  }

  /** What is wrong with a submitted value, null among them (values.ts:228-261). `fits`
      is what a value of each type is; `ValueTypes.Fits` is the one in use. */
  function ValueProblem(field: Field, value: Value, fits: (Field, Value) -> bool): Option<Problem> {
    if value == Null then
      if field.required then Some(CannotBeNull(field.key)) else None
    else if field.required && field.kind.IsText() && value == Text("") then Some(CannotBeEmpty(field.key))
    else if fits(field, value) then None
    else Some(WrongType(field.key))
  }

  // ------------------------------------------------------- the first wall

  function AsList<T>(o: Option<T>): seq<T> {
    if o.Some? then [o.value] else []
  }

  function SubmittedProblem(
    resource: Resource, mode: Mode, s: Submission, key: Key, fits: (Field, Value) -> bool): Option<Problem>
    requires key in s.values
  {
    var fields := IndexFields(resource.fields);
    if key !in fields then Some(UnknownField(key))
    else
      match RefusalFor(resource, fields[key], mode)
      case Some(reason) => Some(Refused(key, reason))
      case None => ValueProblem(fields[key], s.values[key], fits)
  }

  /** The first n keys of a submission, one problem at most for each. */
  function SubmittedProblems(resource: Resource, mode: Mode, s: Submission, n: nat, fits: (Field, Value) -> bool): seq<Problem>
    requires s.WellFormed() && n <= |s.keys|
  {
    if n == 0 then []
    else
      SubmittedProblems(resource, mode, s, n - 1, fits)
      + AsList(SubmittedProblem(resource, mode, s, s.keys[n - 1], fits))
  }

  predicate LeftOut(resource: Resource, s: Submission, field: Field) {
    Writable(resource, field, Creating) && field.required && field.key !in s.values
  }

  function MissingProblems(resource: Resource, s: Submission, n: nat): seq<Problem>
    requires n <= |resource.fields|
  {
    if n == 0 then []
    else
      var field := resource.fields[n - 1];
      MissingProblems(resource, s, n - 1) + if LeftOut(resource, s, field) then [Missing(field.key)] else []
  }

  function Problems(resource: Resource, mode: Mode, s: Submission, fits: (Field, Value) -> bool): seq<Problem>
    requires s.WellFormed()
  {
    if s.keys == [] then [NothingSubmitted]
    else
      SubmittedProblems(resource, mode, s, |s.keys|, fits)
      + if mode == Creating then MissingProblems(resource, s, |resource.fields|) else []
  }

  method CheckSubmitted(resource: Resource, mode: Mode, s: Submission, fits: (Field, Value) -> bool)
    returns (errors: seq<Problem>)
    requires s.WellFormed()
    ensures errors == SubmittedProblems(resource, mode, s, |s.keys|, fits)
  {
    var fields := IndexFields(resource.fields);
    errors := [];
    for i := 0 to |s.keys|
      invariant errors == SubmittedProblems(resource, mode, s, i, fits)
    {
      var key := s.keys[i];
      var problem := Some(UnknownField(key));
      if key in fields {
        var refusal := RefusalFor(resource, fields[key], mode);
        problem :=
          if refusal.Some? then Some(Refused(key, refusal.value)) else ValueProblem(fields[key], s.values[key], fits);
      }
      assert problem == SubmittedProblem(resource, mode, s, key, fits);
      errors := errors + AsList(problem);
    }
  }

  method CheckMissing(resource: Resource, s: Submission) returns (errors: seq<Problem>)
    ensures errors == MissingProblems(resource, s, |resource.fields|)
  {
    errors := [];
    for i := 0 to |resource.fields|
      invariant errors == MissingProblems(resource, s, i)
    {
      var field := resource.fields[i];
      if Writable(resource, field, Creating) && field.required && field.key !in s.values {
        errors := errors + [Missing(field.key)];
      }
    }
  }

  method CheckRecordValues(resource: Resource, mode: Mode, s: Submission, fits: (Field, Value) -> bool)
    returns (errors: seq<Problem>)
    requires s.WellFormed()
    ensures errors == Problems(resource, mode, s, fits)
  {
    if s.keys == [] {
      return [NothingSubmitted];
    }
    errors := CheckSubmitted(resource, mode, s, fits);
    if mode == Creating {
      var missing := CheckMissing(resource, s);
      errors := errors + missing;
    }
  }

  /** A form may set this field: it was opened, some input fits it, it is no
      secret; and if it is the key, then only as the record is made, and only
      where the database does not issue one. */
  predicate Permitted(resource: Resource, field: Field, mode: Mode) {
    && field.editable && field.kind.IsWritable() && !field.sensitive
    && (field.key == resource.primaryKey ==> resource.KeysFrom() == Client && mode == Creating)
  }

  lemma WritableExactlyWhenPermitted(resource: Resource, field: Field, mode: Mode)
    ensures Writable(resource, field, mode) <==> Permitted(resource, field, mode)
  {
  }

  /** A field may hold this: nothing, if it is not required; otherwise a value of
      its type, and more than empty text if it is. */
  predicate MayHold(field: Field, value: Value, fits: (Field, Value) -> bool) {
    if value == Null then !field.required
    else fits(field, value) && !(field.required && field.kind.IsText() && value == Text(""))
  }

  /** Nothing is wrong with a key submitted. */
  predicate Fine(resource: Resource, mode: Mode, s: Submission, k: Key, fits: (Field, Value) -> bool)
    requires k in s.values
  {
    var fields := IndexFields(resource.fields);
    k in fields && Permitted(resource, fields[k], mode) && MayHold(fields[k], s.values[k], fits)
  }

  /** What an accepted submission is, without saying how one is checked. */
  ghost predicate Acceptable(resource: Resource, mode: Mode, s: Submission, fits: (Field, Value) -> bool) {
    && s.keys != []
    && (forall k :: k in s.values ==> Fine(resource, mode, s, k, fits))
    && (mode == Creating ==>
         forall f :: f in resource.fields && Permitted(resource, f, mode) && f.required ==> f.key in s.values)
  }

  lemma NoneMore(before: seq<Problem>, last: Option<Problem>)
    ensures before + AsList(last) == [] <==> before == [] && last == None
  {
    assert |before + AsList(last)| == |before| + |AsList(last)|;
  }

  lemma {:induction false} NoSubmittedProblems(
    resource: Resource, mode: Mode, s: Submission, n: nat, fits: (Field, Value) -> bool)
    requires s.WellFormed() && n <= |s.keys|
    ensures SubmittedProblems(resource, mode, s, n, fits) == [] <==>
            forall i :: 0 <= i < n ==> SubmittedProblem(resource, mode, s, s.keys[i], fits) == None
  {
    hide SubmittedProblem, AsList;
    if n > 0 {
      NoSubmittedProblems(resource, mode, s, n - 1, fits);
      NoneMore(SubmittedProblems(resource, mode, s, n - 1, fits), SubmittedProblem(resource, mode, s, s.keys[n - 1], fits));
    }
  }

  lemma {:induction false} NothingMissing(resource: Resource, s: Submission, n: nat)
    requires n <= |resource.fields|
    ensures MissingProblems(resource, s, n) == [] <==>
            forall i :: 0 <= i < n ==> !LeftOut(resource, s, resource.fields[i])
  {
    hide LeftOut;
    if n > 0 {
      NothingMissing(resource, s, n - 1);
    }
  }

  lemma FineExactlyWithoutProblem(resource: Resource, mode: Mode, s: Submission, k: Key, fits: (Field, Value) -> bool)
    requires k in s.values
    ensures SubmittedProblem(resource, mode, s, k, fits) == None <==> Fine(resource, mode, s, k, fits)
  {
    hide IndexFields;
  }

  lemma NothingWrongSubmitted(resource: Resource, mode: Mode, s: Submission, fits: (Field, Value) -> bool)
    requires s.WellFormed()
    ensures SubmittedProblems(resource, mode, s, |s.keys|, fits) == [] <==>
            forall k :: k in s.values ==> Fine(resource, mode, s, k, fits)
  {
    NoSubmittedProblems(resource, mode, s, |s.keys|, fits);
    forall k | k in s.values
      ensures SubmittedProblem(resource, mode, s, k, fits) == None <==> Fine(resource, mode, s, k, fits)
    {
      FineExactlyWithoutProblem(resource, mode, s, k, fits);
    }
    hide SubmittedProblem, SubmittedProblems, Fine;
    if forall i :: 0 <= i < |s.keys| ==> SubmittedProblem(resource, mode, s, s.keys[i], fits) == None {
      forall k | k in s.values ensures SubmittedProblem(resource, mode, s, k, fits) == None {
        var i :| 0 <= i < |s.keys| && s.keys[i] == k;
      }
    }
  }

  lemma NothingRequiredMissing(resource: Resource, s: Submission)
    ensures MissingProblems(resource, s, |resource.fields|) == [] <==>
            forall f :: f in resource.fields ==> !LeftOut(resource, s, f)
  {
    NothingMissing(resource, s, |resource.fields|);
    hide LeftOut, MissingProblems;
    if forall i :: 0 <= i < |resource.fields| ==> !LeftOut(resource, s, resource.fields[i]) {
      forall f | f in resource.fields ensures !LeftOut(resource, s, f) {
        var i :| 0 <= i < |resource.fields| && resource.fields[i] == f;
      }
    }
  }

  lemma AcceptedExactlyWhenAcceptable(resource: Resource, mode: Mode, s: Submission, fits: (Field, Value) -> bool)
    requires s.WellFormed()
    ensures Problems(resource, mode, s, fits) == [] <==> Acceptable(resource, mode, s, fits)
  {
    hide SubmittedProblems, MissingProblems, Fine, Permitted, Writable;
    NothingWrongSubmitted(resource, mode, s, fits);
    NothingRequiredMissing(resource, s);
    forall f ensures Writable(resource, f, Creating) <==> Permitted(resource, f, Creating) {
      WritableExactlyWhenPermitted(resource, f, Creating);
    }
    var submitted, missing :=
      SubmittedProblems(resource, mode, s, |s.keys|, fits), MissingProblems(resource, s, |resource.fields|);
    assert |submitted + missing| == |submitted| + |missing|;
  }

  /** The key a problem is about. */
  predicate Names(p: Problem, k: Key) {
    !p.NothingSubmitted? && p.key == k
  }

  /** A key submitted that is not fine, or one left out that a new record needs. */
  ghost predicate AtFault(resource: Resource, mode: Mode, s: Submission, fits: (Field, Value) -> bool, k: Key) {
    || (k in s.values && !Fine(resource, mode, s, k, fits))
    || (s.keys != [] && mode == Creating && k !in s.values &&
        exists f :: f in resource.fields && f.key == k && Permitted(resource, f, mode) && f.required)
  }

  lemma {:induction false} SubmittedAre(
    resource: Resource, mode: Mode, s: Submission, n: nat, fits: (Field, Value) -> bool, p: Problem)
    requires s.WellFormed() && n <= |s.keys|
    ensures p in SubmittedProblems(resource, mode, s, n, fits) <==>
            exists i :: 0 <= i < n && SubmittedProblem(resource, mode, s, s.keys[i], fits) == Some(p)
  {
    hide SubmittedProblem;
    if n > 0 {
      SubmittedAre(resource, mode, s, n - 1, fits, p);
    }
  }

  lemma {:induction false} MissingAre(resource: Resource, s: Submission, n: nat, p: Problem)
    requires n <= |resource.fields|
    ensures p in MissingProblems(resource, s, n) <==>
            exists i :: 0 <= i < n && LeftOut(resource, s, resource.fields[i]) && p == Missing(resource.fields[i].key)
  {
    hide LeftOut;
    if n > 0 {
      MissingAre(resource, s, n - 1, p);
    }
  }

  lemma SubmittedNamesItsKey(resource: Resource, mode: Mode, s: Submission, k: Key, fits: (Field, Value) -> bool)
    requires k in s.values
    ensures var o := SubmittedProblem(resource, mode, s, k, fits); o.Some? ==> Names(o.value, k)
  {
    FieldsIndexed(resource.fields);
    hide RefusalFor;
  }

  /** The problems reported name the keys at fault, and no others. */
  lemma ProblemsNameTheFaulty(resource: Resource, mode: Mode, s: Submission, fits: (Field, Value) -> bool, k: Key)
    requires s.WellFormed()
    ensures (exists p :: p in Problems(resource, mode, s, fits) && Names(p, k)) <==> AtFault(resource, mode, s, fits, k)
  {
    if s.keys == [] {
      assert s.values == map[] by { assert forall x :: x in s.values ==> x in s.keys; }
    } else {
      SubmittedNames(resource, mode, s, fits, k);
      MissingNames(resource, s, k);
      hide SubmittedProblems, MissingProblems, Fine, Permitted;
    }
  }

  lemma SubmittedNames(resource: Resource, mode: Mode, s: Submission, fits: (Field, Value) -> bool, k: Key)
    requires s.WellFormed()
    ensures (exists p :: p in SubmittedProblems(resource, mode, s, |s.keys|, fits) && Names(p, k)) <==>
            k in s.values && !Fine(resource, mode, s, k, fits)
  {
    var problems := SubmittedProblems(resource, mode, s, |s.keys|, fits);
    if p :| p in problems && Names(p, k) {
      SubmittedAre(resource, mode, s, |s.keys|, fits, p);
      var i :| 0 <= i < |s.keys| && SubmittedProblem(resource, mode, s, s.keys[i], fits) == Some(p);
      SubmittedNamesItsKey(resource, mode, s, s.keys[i], fits);
      FineExactlyWithoutProblem(resource, mode, s, k, fits);
    }
    if k in s.values && !Fine(resource, mode, s, k, fits) {
      FineExactlyWithoutProblem(resource, mode, s, k, fits);
      SubmittedNamesItsKey(resource, mode, s, k, fits);
      var p := SubmittedProblem(resource, mode, s, k, fits).value;
      var i :| 0 <= i < |s.keys| && s.keys[i] == k;
      SubmittedAre(resource, mode, s, |s.keys|, fits, p);
    }
  }

  lemma MissingNames(resource: Resource, s: Submission, k: Key)
    ensures (exists p :: p in MissingProblems(resource, s, |resource.fields|) && Names(p, k)) <==>
            k !in s.values && exists f :: f in resource.fields && f.key == k && Permitted(resource, f, Creating) && f.required
  {
    var problems := MissingProblems(resource, s, |resource.fields|);
    if p :| p in problems && Names(p, k) {
      MissingAre(resource, s, |resource.fields|, p);
      var i :| 0 <= i < |resource.fields| && LeftOut(resource, s, resource.fields[i]) && p == Missing(resource.fields[i].key);
      WritableExactlyWhenPermitted(resource, resource.fields[i], Creating);
    }
    if k !in s.values {
      if f :| f in resource.fields && f.key == k && Permitted(resource, f, Creating) && f.required {
        WritableExactlyWhenPermitted(resource, f, Creating);
        var i :| 0 <= i < |resource.fields| && resource.fields[i] == f;
        MissingAre(resource, s, |resource.fields|, Missing(k));
        assert Names(Missing(k), k);
      }
    }
  }

  /** Why a field may not be set: of the reasons there are, the first. */
  predicate Objects(resource: Resource, field: Field, mode: Mode, reason: Reason) {
    var isKey, given := field.key == resource.primaryKey, resource.generation == Some(Client);
    match reason
    case Secret => field.sensitive
    case IssuedByDatabase => !field.sensitive && isKey && !given
    case SetWhenMade => !field.sensitive && isKey && given && mode == Updating
    case NoInputFits => !field.sensitive && (isKey ==> given && mode == Creating) && field.kind.Json?
    case NotEditable =>
      !field.sensitive && (isKey ==> given && mode == Creating) && !field.kind.Json? && !field.editable
  }

  predicate MustSayMore(field: Field, value: Value) {
    && field.required && value == Text("")
    && (field.kind.PlainText? || field.kind.LongText? || field.kind.Email? || field.kind.Url?)
  }

  /** What is wrong with one key that was submitted. */
  predicate DueFor(resource: Resource, mode: Mode, s: Submission, fits: (Field, Value) -> bool, k: Key, p: Problem)
    requires k in s.values
  {
    var fields, value := IndexFields(resource.fields), s.values[k];
    match p
    case UnknownField(key) => key == k && k !in fields
    case Refused(key, reason) => key == k && k in fields && Objects(resource, fields[k], mode, reason)
    case CannotBeNull(key) =>
      key == k && k in fields && Permitted(resource, fields[k], mode) && fields[k].required && value == Null
    case CannotBeEmpty(key) =>
      key == k && k in fields && Permitted(resource, fields[k], mode) && MustSayMore(fields[k], value)
    case WrongType(key) =>
      && key == k && k in fields && Permitted(resource, fields[k], mode)
      && value != Null && !MustSayMore(fields[k], value) && !fits(fields[k], value)
    case _ => false
  }

  /** A submission deserves to be told this. */
  ghost predicate Due(resource: Resource, mode: Mode, s: Submission, fits: (Field, Value) -> bool, p: Problem) {
    match p
    case NothingSubmitted => s.keys == []
    case Missing(k) =>
      && s.keys != [] && mode == Creating && k !in s.values
      && exists f :: f in resource.fields && f.key == k && Permitted(resource, f, Creating) && f.required
    case _ => p.key in s.values && DueFor(resource, mode, s, fits, p.key, p)
  }

  lemma TheReasonIsTheFirst(resource: Resource, field: Field, mode: Mode, reason: Reason)
    ensures RefusalFor(resource, field, mode) == Some(reason) <==> Objects(resource, field, mode, reason)
  {
  }

  lemma OneIsDue(resource: Resource, mode: Mode, s: Submission, fits: (Field, Value) -> bool, k: Key, p: Problem)
    requires k in s.values
    ensures SubmittedProblem(resource, mode, s, k, fits) == Some(p) <==> DueFor(resource, mode, s, fits, k, p)
  {
    FieldsIndexed(resource.fields);
    var fields := IndexFields(resource.fields);
    if k in fields {
      var field := fields[k];
      assert field.key == k;
      hide IndexFields, Objects, RefusalFor, Permitted;
      WritableExactlyWhenPermitted(resource, field, mode);
      forall reason ensures RefusalFor(resource, field, mode) == Some(reason) <==> Objects(resource, field, mode, reason) {
        TheReasonIsTheFirst(resource, field, mode, reason);
      }
      assert MustSayMore(field, s.values[k]) <==> field.required && field.kind.IsText() && s.values[k] == Text("");
    }
  }

  /** A submission is told exactly what it deserves. */
  lemma ToldExactlyWhatIsDue(resource: Resource, mode: Mode, s: Submission, fits: (Field, Value) -> bool, p: Problem)
    requires s.WellFormed()
    ensures p in Problems(resource, mode, s, fits) <==> Due(resource, mode, s, fits, p)
  {
    hide SubmittedProblem, SubmittedProblems, MissingProblems, LeftOut, Permitted, Objects, MustSayMore, IndexFields;
    if s.keys == [] {
      assert s.values == map[] by { assert forall k :: k in s.values ==> k in s.keys; }
    } else {
      SubmittedAreDue(resource, mode, s, fits, p);
      MissingAreDue(resource, s, p);
    }
  }

  lemma SubmittedAreDue(resource: Resource, mode: Mode, s: Submission, fits: (Field, Value) -> bool, p: Problem)
    requires s.WellFormed()
    ensures p in SubmittedProblems(resource, mode, s, |s.keys|, fits) <==>
            !p.NothingSubmitted? && p.key in s.values && DueFor(resource, mode, s, fits, p.key, p)
  {
    hide SubmittedProblem, SubmittedProblems;
    SubmittedAre(resource, mode, s, |s.keys|, fits, p);
    if i: nat :| i < |s.keys| && SubmittedProblem(resource, mode, s, s.keys[i], fits) == Some(p) {
      OneIsDue(resource, mode, s, fits, s.keys[i], p);
    }
    if !p.NothingSubmitted? && p.key in s.values {
      OneIsDue(resource, mode, s, fits, p.key, p);
      var i :| 0 <= i < |s.keys| && s.keys[i] == p.key;
    }
  }

  lemma MissingAreDue(resource: Resource, s: Submission, p: Problem)
    ensures p in MissingProblems(resource, s, |resource.fields|) <==>
            p.Missing? && p.key !in s.values &&
            exists f :: f in resource.fields && f.key == p.key && Permitted(resource, f, Creating) && f.required
  {
    hide MissingProblems, Permitted, Writable;
    MissingAre(resource, s, |resource.fields|, p);
    forall f ensures Writable(resource, f, Creating) <==> Permitted(resource, f, Creating) {
      WritableExactlyWhenPermitted(resource, f, Creating);
    }
    if i: nat :| i < |resource.fields| && LeftOut(resource, s, resource.fields[i]) && p == Missing(resource.fields[i].key) {
      assert resource.fields[i] in resource.fields;
    }
    if p.Missing? && p.key !in s.values {
      if f :| f in resource.fields && f.key == p.key && Permitted(resource, f, Creating) && f.required {
        var i :| 0 <= i < |resource.fields| && resource.fields[i] == f;
        assert LeftOut(resource, s, resource.fields[i]);
      }
    }
  }

  // ------------------------------------------------------ the second wall

  /** `value` goes into the column of `field`. */
  datatype Assignment = Assignment(field: Field, value: Value)

  /** The submitted keys that are fields, in declaration order, each beside its
      value (packages/engine/src/write/record-writer.ts:312-319). */
  function AssignmentsFor(fields: seq<Field>, values: map<Key, Value>): seq<Assignment> {
    if fields == [] then []
    else
      var last := fields[|fields| - 1];
      AssignmentsFor(fields[..|fields| - 1], values)
      + if last.key in values then [Assignment(last, values[last.key])] else []
  }

  function RefusedKeys(resource: Resource, assignments: seq<Assignment>, mode: Mode): seq<Key> {
    if assignments == [] then []
    else
      var last := assignments[|assignments| - 1];
      RefusedKeys(resource, assignments[..|assignments| - 1], mode)
      + if Writable(resource, last.field, mode) then [] else [last.field.key]
  }

  /** packages/engine/src/query/write-statements.ts:217-231 */
  function RefuseUnwritable(resource: Resource, assignments: seq<Assignment>, mode: Mode): Outcome<()> {
    if assignments == [] then Err(Bug)
    else if RefusedKeys(resource, assignments, mode) != [] then
      Err(ValidationFailed(RefusedKeys(resource, assignments, mode)))
    else Ok(())
  }

  lemma {:induction false} RefusesExactlyTheUnwritable(resource: Resource, assignments: seq<Assignment>, mode: Mode)
    ensures RefusedKeys(resource, assignments, mode) == [] <==>
            forall a :: a in assignments ==> Writable(resource, a.field, mode)
  {
    if assignments != [] {
      var init := assignments[..|assignments| - 1];
      RefusesExactlyTheUnwritable(resource, init, mode);
      assert assignments == init + [assignments[|assignments| - 1]];
    }
  }

  /** The second wall lets through what sets something, and nothing but what may be
      set; it is a fault of ours to ask it of nothing, and what it refuses it names. */
  lemma TheSecondWallRefuses(resource: Resource, assignments: seq<Assignment>, mode: Mode)
    ensures RefuseUnwritable(resource, assignments, mode) == Err(Bug) <==> assignments == []
    ensures RefuseUnwritable(resource, assignments, mode) == Ok(()) <==>
            assignments != [] && forall a :: a in assignments ==> Permitted(resource, a.field, mode)
    ensures var r := RefuseUnwritable(resource, assignments, mode);
            r.Ok? || r == Err(Bug) || r == Err(ValidationFailed(RefusedKeys(resource, assignments, mode)))
  {
    hide RefusedKeys, Writable, Permitted;
    RefusesExactlyTheUnwritable(resource, assignments, mode);
    forall field ensures Writable(resource, field, mode) <==> Permitted(resource, field, mode) {
      WritableExactlyWhenPermitted(resource, field, mode);
    }
  }

  lemma {:induction false} RefusedKeysAre(resource: Resource, assignments: seq<Assignment>, mode: Mode, k: Key)
    ensures k in RefusedKeys(resource, assignments, mode) <==>
            exists a :: a in assignments && a.field.key == k && !Permitted(resource, a.field, mode)
  {
    hide Writable, Permitted;
    if assignments != [] {
      var init, last := assignments[..|assignments| - 1], assignments[|assignments| - 1];
      RefusedKeysAre(resource, init, mode, k);
      WritableExactlyWhenPermitted(resource, last.field, mode);
      assert assignments == init + [last];
    }
  }

  /** Where each assignment's field is declared: strictly in order. */
  ghost predicate InDeclarationOrder(fields: seq<Field>, assignments: seq<Assignment>, at: seq<nat>) {
    && |at| == |assignments|
    && (forall i :: 0 <= i < |at| ==> at[i] < |fields| && fields[at[i]] == assignments[i].field)
    && (forall i, j :: 0 <= i < j < |at| ==> at[i] < at[j])
  }

  lemma {:induction false} AssignsInOrder(fields: seq<Field>, values: map<Key, Value>) returns (at: seq<nat>)
    ensures InDeclarationOrder(fields, AssignmentsFor(fields, values), at)
  {
    at := [];
    if fields != [] {
      at := AssignsInOrder(fields[..|fields| - 1], values);
      if fields[|fields| - 1].key in values {
        at := at + [|fields| - 1];
      }
    }
  }

  lemma {:induction false} AssignsExactly(fields: seq<Field>, values: map<Key, Value>)
    ensures forall a :: a in AssignmentsFor(fields, values) <==>
              a.field in fields && a.field.key in values && a.value == values[a.field.key]
  {
    if fields != [] {
      var init, last := fields[..|fields| - 1], fields[|fields| - 1];
      AssignsExactly(init, values);
      assert fields == init + [last];
    }
  }

  lemma AssignsWhatWasSubmitted(fields: seq<Field>, values: map<Key, Value>) returns (at: seq<nat>)
    ensures var assignments := AssignmentsFor(fields, values);
      && InDeclarationOrder(fields, assignments, at)
      && (forall a :: a in assignments ==>
           a.field in fields && a.field.key in values && a.value == values[a.field.key])
      && (forall f :: f in fields && f.key in values ==> Assignment(f, values[f.key]) in assignments)
  {
    hide InDeclarationOrder, AssignmentsFor;
    at := AssignsInOrder(fields, values);
    AssignsExactly(fields, values);
  }

  lemma AcceptedIsWritable(resource: Resource, mode: Mode, s: Submission, fits: (Field, Value) -> bool, f: Field)
    requires s.WellFormed() && DistinctFields(resource.fields)
    requires Acceptable(resource, mode, s, fits)
    requires f in resource.fields && f.key in s.values
    ensures Writable(resource, f, mode)
    ensures !f.sensitive
    ensures f.key == resource.primaryKey ==> resource.KeysFrom() == Client && mode == Creating
  {
    FieldByKey(resource.fields, f);
  }

  /** If the first wall accepts a submission, the second accepts what became of
      it: exactly the submitted keys, in declaration order, with no secret, no
      key the database issues, and no key at all in an update. */
  lemma TheTwoWallsAgree(resource: Resource, mode: Mode, s: Submission, fits: (Field, Value) -> bool)
    returns (at: seq<nat>)
    requires s.WellFormed() && DistinctFields(resource.fields)
    requires Problems(resource, mode, s, fits) == []
    ensures var assignments := AssignmentsFor(resource.fields, s.values);
      && RefuseUnwritable(resource, assignments, mode) == Ok(())
      && InDeclarationOrder(resource.fields, assignments, at)
      && (forall a :: a in assignments ==> a.field.key in s.values && a.value == s.values[a.field.key])
      && (forall k :: k in s.values ==> exists a :: a in assignments && a.field.key == k)
      && (forall a :: a in assignments ==>
           && !a.field.sensitive
           && (a.field.key == resource.primaryKey ==> resource.KeysFrom() == Client && mode == Creating))
  {
    AcceptedExactlyWhenAcceptable(resource, mode, s, fits);
    FieldsIndexed(resource.fields);
    at := AssignsWhatWasSubmitted(resource.fields, s.values);
    var assignments := AssignmentsFor(resource.fields, s.values);
    forall a | a in assignments
      ensures Writable(resource, a.field, mode) && !a.field.sensitive
      ensures a.field.key == resource.primaryKey ==> resource.KeysFrom() == Client && mode == Creating
    {
      AcceptedIsWritable(resource, mode, s, fits, a.field);
    }
    forall k | k in s.values
      ensures exists a :: a in assignments && a.field.key == k
    {
      assert Assignment(IndexFields(resource.fields)[k], s.values[k]) in assignments;
    }
    RefusesExactlyTheUnwritable(resource, assignments, mode);
    assert s.keys[0] in s.values;
  }
}
