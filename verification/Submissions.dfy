/** Whether a resource that offers a write has any write to offer
    (packages/contracts/src/definition/write-checks.ts). */
module Submissions {
  import opened Outcomes
  import opened Definitions
  import opened RecordValues
  import opened ValueTypes
  import opened Validity
  import Servable

  /** `z.array(z.string().min(1)).min(1)` (packages/contracts/src/definition/fields.ts:56) */
  predicate Structural(field: Field) {
    field.kind.Enum? ==> field.kind.values != []
  }

  /** A value the field takes, whatever field it is; `email` is any address. */
  function Sample(field: Field, email: string): Value {
    match field.kind
    case PlainText => Text("x")
    case LongText => Text("x")
    case Email => Text(email)
    case Url => Text("http://x")
    case Number => Int(0)
    case Boolean => Bool(true)
    case Date => Text("2024-02-29")
    case DateTime => Text("2024-02-29T23:59Z")
    case Enum(values, _) => if values == [] then Null else Text(values[0])
    case Relation(_) => Int(1)
    case Json => Null
  }

  lemma SampleUrl()
    ensures IsUrl("http://x")
  {
    var prefix := "http://";
    assert prefix < "http://x" && "http://x"[|prefix|..] == "x";
    assert prefix in ["http://", "https://"];
  }

  lemma DigitPair(s: string)
    requires |s| == 2 && IsDigit(s[0]) && IsDigit(s[1])
    ensures AllDigits(s)
    ensures Numeral(s) == 10 * (s[0] as int - '0' as int) + (s[1] as int - '0' as int)
  {
    assert Digits(s[1..]) == 1;
    assert Digits(s) == 2;
    assert s[..1] == [s[0]];
    assert Numeral(s[..1]) == s[0] as int - '0' as int;
  }

  lemma LeapDay(s: string)
    requires "2024-02-29" <= s
    ensures StartsWithDay(s)
  {
    assert s[0..4] == "2024" && s[5..7] == "02" && s[8..10] == "29";
    assert "2024"[1..] == "024" && "024"[1..] == "24" && "24"[1..] == "4";
    assert Digits("24") == 2 && Digits("024") == 3 && Digits("2024") == 4;
    assert "2024"[..3] == "202" && "202"[..2] == "20";
    DigitPair("02");
    DigitPair("29");
    DigitPair("20");
    assert "202"[1..] == "02" && Digits("02") == 2;
    assert Numeral("202") == 202;
    assert Numeral("2024") == 2024;
    assert IsLeap(2024);
    assert s[4] == "2024-02-29"[4] && s[7] == "2024-02-29"[7];
  }

  lemma SampleMoment()
    ensures IsTimestamp("2024-02-29T23:59Z")
  {
    var s := "2024-02-29T23:59Z";
    LeapDay(s);
    assert s[11..13] == "23" && s[14..16] == "59" && s[16..] == "Z";
    DigitPair("23");
    DigitPair("59");
    assert IsZone("Z");
  }

  lemma SampleFits(field: Field, email: string, isEmail: string -> bool)
    requires field.kind.IsWritable() && Structural(field)
    requires email != "" && isEmail(email)
    ensures MayHold(field, Sample(field, email), (f, v) => Fits(f, v, isEmail))
  {
    hide IsTimestamp, IsUrl, IsNumeral, StartsWithDay;
    match field.kind
    case Url => SampleUrl();
    case Date => LeapDay("2024-02-29");
    case DateTime => SampleMoment();
    case _ =>
  }

  /** One value for each field a form may carry, in the order they are declared. */
  function Everything(r: Resource, fields: seq<Field>, mode: Mode, email: string): Submission {
    if fields == [] then Submission([], map[])
    else
      var init, last := Everything(r, fields[..|fields| - 1], mode, email), fields[|fields| - 1];
      if Writable(r, last, mode)
      then Submission(init.keys + [last.key], init.values[last.key := Sample(last, email)])
      else init
  }

  ghost predicate Samples(r: Resource, fields: seq<Field>, mode: Mode, email: string, s: Submission) {
    && s.WellFormed()
    && (forall k :: k in s.values ==>
         exists f :: f in fields && f.key == k && Writable(r, f, mode) && s.values[k] == Sample(f, email))
    && (forall f :: f in fields && Writable(r, f, mode) ==> f.key in s.values)
  }

  lemma {:induction false} EverythingIsSubmitted(r: Resource, fields: seq<Field>, mode: Mode, email: string)
    requires DistinctFields(fields)
    ensures Samples(r, fields, mode, email, Everything(r, fields, mode, email))
  {
    if fields != [] {
      hide Samples, Sample, Writable;
      var init := fields[..|fields| - 1];
      EverythingIsSubmitted(r, init, mode, email);
      OneMoreSample(r, fields, mode, email, Everything(r, init, mode, email));
    }
  }

  lemma OneMoreSample(r: Resource, fields: seq<Field>, mode: Mode, email: string, before: Submission)
    requires fields != [] && DistinctFields(fields)
    requires Samples(r, fields[..|fields| - 1], mode, email, before)
    ensures var last := fields[|fields| - 1];
            Samples(r, fields, mode, email,
              if Writable(r, last, mode)
              then Submission(before.keys + [last.key], before.values[last.key := Sample(last, email)])
              else before)
  {
    hide Sample, Writable;
    var init, last := fields[..|fields| - 1], fields[|fields| - 1];
    assert fields == init + [last];
    var s := if Writable(r, last, mode)
             then Submission(before.keys + [last.key], before.values[last.key := Sample(last, email)])
             else before;
    assert last.key !in before.values;
    forall k | k in s.values
      ensures exists f :: f in fields && f.key == k && Writable(r, f, mode) && s.values[k] == Sample(f, email)
    {
      if k in before.values {
        var f :| f in init && f.key == k && Writable(r, f, mode) && before.values[k] == Sample(f, email);
        assert f in fields;
      } else {
        assert last in fields;
      }
    }
  }

  lemma WritableTakesInput(r: Resource, f: Field, mode: Mode)
    requires Writable(r, f, mode)
    ensures f.kind.IsWritable()
  {
  }

  /** If any field may be written at all, writing all of them is accepted. */
  lemma EverythingIsAccepted(r: Resource, resources: map<Key, Resource>, mode: Mode, email: string, isEmail: string -> bool)
    requires ValidResource(r, resources) && forall f :: f in r.fields ==> Structural(f)
    requires email != "" && isEmail(email)
    requires exists f :: f in r.fields && Writable(r, f, mode)
    ensures var s := Everything(r, r.fields, mode, email);
            s.WellFormed() && Problems(r, mode, s, (f, v) => Fits(f, v, isEmail)) == []
  {
    hide ValidResource, Problems, Sample, Fits, Writable, Permitted, MayHold, Everything, DistinctFields;
    Servable.FieldsDiffer(r, resources);
    var s, fits := Everything(r, r.fields, mode, email), (f, v) => Fits(f, v, isEmail);
    EverythingIsSubmitted(r, r.fields, mode, email);
    FieldsIndexed(r.fields);
    forall k | k in s.values ensures Fine(r, mode, s, k, fits) {
      var f :| f in r.fields && f.key == k && Writable(r, f, mode) && s.values[k] == Sample(f, email);
      FieldByKey(r.fields, f);
      WritableExactlyWhenPermitted(r, f, mode);
      WritableTakesInput(r, f, mode);
      SampleFits(f, email, isEmail);
    }
    forall f | f in r.fields && Permitted(r, f, mode) ensures f.key in s.values {
      WritableExactlyWhenPermitted(r, f, mode);
    }
    AcceptedExactlyWhenAcceptable(r, mode, s, fits);
  }

  /** A valid resource offering create has a submission it accepts. */
  lemma SomeCreateIsAccepted(r: Resource, resources: map<Key, Resource>, email: string, isEmail: string -> bool)
    requires ValidResource(r, resources) && forall f :: f in r.fields ==> Structural(f)
    requires email != "" && isEmail(email)
    requires r.creates
    ensures exists s: Submission :: s.WellFormed() && Problems(r, Creating, s, (f, v) => Fits(f, v, isEmail)) == []
  {
    hide ValidTable, ValidLabel, ValidAction, ValidRelationship, DistinctKeys, DistinctFields, Problems, Fits;
    var i :| 0 <= i < |r.fields| && r.fields[i].editable;
    assert ValidEditing(r, r.fields[i]);
    assert r.fields[i] in r.fields && Writable(r, r.fields[i], Creating);
    EverythingIsAccepted(r, resources, Creating, email, isEmail);
  }

  /** One offering update has one exactly when some field besides the key is
      editable: that much the referential pass does not ask. */
  lemma SomeUpdateIsAcceptedUnlessOnlyTheKeyIsEditable(
    r: Resource, resources: map<Key, Resource>, email: string, isEmail: string -> bool)
    requires ValidResource(r, resources) && forall f :: f in r.fields ==> Structural(f)
    requires email != "" && isEmail(email)
    requires r.updates
    ensures (exists s: Submission :: s.WellFormed() && Problems(r, Updating, s, (f, v) => Fits(f, v, isEmail)) == [])
            <==> exists f :: f in r.fields && f.editable && f.key != r.primaryKey
  {
    hide ValidTable, ValidDetail, ValidTones, ValidLabel, ValidKey, ValidDeclarations, PointsSomewhere, ValidAction, ValidRelationship, DistinctKeys, Problems, Fits;
    var fits := (f, v) => Fits(f, v, isEmail);
    if f :| f in r.fields && f.editable && f.key != r.primaryKey {
      var i :| 0 <= i < |r.fields| && r.fields[i] == f;
      assert ValidEditing(r, r.fields[i]);
      assert Writable(r, f, Updating);
      EverythingIsAccepted(r, resources, Updating, email, isEmail);
    }
    forall s: Submission | s.WellFormed() && Problems(r, Updating, s, fits) == []
      ensures exists f :: f in r.fields && f.editable && f.key != r.primaryKey
    {
      AcceptedExactlyWhenAcceptable(r, Updating, s, fits);
      FieldsIndexed(r.fields);
      assert s.keys[0] in s.values;
      var f := IndexFields(r.fields)[s.keys[0]];
      assert f in r.fields && Writable(r, f, Updating);
    }
  }

  /** A definition the pass accepts whose one offered update nothing can fill:
      the only editable field is a key the client issues. */
  lemma AnUpdateOfferedInVain()
    ensures var key := Field("id", PlainText, false, false, true, true);
            var table := TableView(["id"], "id", false, [], []);
            var r := Resource("notes", "notes", "id", Some(Client), None, None, [key], true, true, [], table, DetailView([["id"]], false, []), []);
            Valid(Definition([["notes"]], [r])) && forall f :: f in r.fields && f.editable ==> f.key == r.primaryKey
  {
    var key := Field("id", PlainText, false, false, true, true);
    var table := TableView(["id"], "id", false, [], []);
    var r := Resource("notes", "notes", "id", Some(Client), None, None, [key], true, true, [], table, DetailView([["id"]], false, []), []);
    var definition := Definition([["notes"]], [r]);
    FieldByKey([key], key);
    ResourceByKey([r], r);
    ResourcesIndexed([r]);
    FieldsIndexed([key]);
    assert Listed(definition.navigation) == ["notes"] by {
      assert definition.navigation[..0] == [];
    }
    assert r.fields[0].editable;
    assert ValidResource(r, IndexResources([r]));
  }
}
