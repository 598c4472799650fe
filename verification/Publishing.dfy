/** A project's published versions: numbered, never changed, and only ever of
    payloads that passed (apps/api/src/definitions/definition-versions.repository.ts,
    apps/api/src/definitions/definitions.service.ts). */
module Publishing {
  import opened Outcomes

  type Project = nat
  type Payload = nat

  datatype Version = Version(project: Project, number: nat, payload: Payload)
  datatype Draft = Draft(payload: Payload, valid: bool)

  function Later(a: Option<Version>, b: Version): Option<Version> {
    if a.None? || a.value.number < b.number then Some(b) else a
  }

  /** The highest version a project has: the one its admin serves. */
  function Latest(rows: seq<Version>, project: Project): Option<Version> {
    if rows == [] then None
    else
      var last := rows[|rows| - 1];
      var before := Latest(rows[..|rows| - 1], project);
      if last.project == project then Later(before, last) else before
  }

  function NextNumber(rows: seq<Version>, project: Project): nat {
    var latest := Latest(rows, project);
    (if latest.Some? then latest.value.number else 0) + 1
  }

  /** `(project, version)` is unique: a row that would repeat one is refused. */
  predicate Taken(rows: seq<Version>, project: Project, number: nat) {
    exists i :: 0 <= i < |rows| && rows[i].project == project && rows[i].number == number
  }

  function Inserted(rows: seq<Version>, version: Version): seq<Version> {
    if Taken(rows, version.project, version.number) then rows else rows + [version]
  }

  /** The table of versions: it is read and inserted into, and nothing else. */
  class VersionsTable {
    var rows: seq<Version>

    constructor ()
      ensures rows == []
    {
      rows := [];
    }

    method FindLatest(project: Project) returns (latest: Option<Version>)
      ensures latest == Latest(rows, project)
    {
      latest := Latest(rows, project);
    }

    method Insert(version: Version) returns (ok: bool)
      modifies this
      ensures rows == Inserted(old(rows), version)
      ensures ok <==> !Taken(old(rows), version.project, version.number)
    {
      ok := !Taken(rows, version.project, version.number);
      if ok {
        rows := rows + [version];
      }
    }
  }

  // --------------------------------------------------------- many publishers

  /** Where a submission or a publish has got to, between its awaits. */
  datatype Task =
    | Submitting(project: Project, payload: Payload, publish: bool)
    | Reading(project: Project)
    | Publishing(project: Project, payload: Payload)
    | Numbered(version: Version)
    | Published(version: Version)
    | Conflicted
    | Held
    | Invalid
    | NothingThere

  datatype World = World(rows: seq<Version>, drafts: map<Project, Draft>, tasks: map<nat, Task>)

  datatype Step =
    | Submit(task: nat, project: Project, payload: Payload, publish: bool)
    | Publish(task: nat, project: Project)
    | GoOn(task: nat)

  /** What a task does next. `passes` is whether a payload validates. */
  function Onward(w: World, task: Task, passes: Payload -> bool): (World, Task) {
    match task
    case Submitting(project, payload, publish) =>
      (w.(drafts := w.drafts[project := Draft(payload, passes(payload))]),
       if !passes(payload) then Invalid else if !publish then Held else Publishing(project, payload))
    case Reading(project) =>
      (w,
       if project !in w.drafts then NothingThere
       else if !w.drafts[project].valid then Invalid
       else Publishing(project, w.drafts[project].payload))
    case Publishing(project, payload) => (w, Numbered(Version(project, NextNumber(w.rows, project), payload)))
    case Numbered(version) =>
      (w.(rows := Inserted(w.rows, version)),
       if Taken(w.rows, version.project, version.number) then Conflicted else Published(version))
    case _ => (w, task)
  }

  predicate Enabled(w: World, step: Step) {
    match step
    case Submit(task, _, _, _) => task !in w.tasks
    case Publish(task, _) => task !in w.tasks
    case GoOn(task) => task in w.tasks
  }

  function Next(w: World, step: Step, passes: Payload -> bool): World
    requires Enabled(w, step)
  {
    match step
    case Submit(task, project, payload, publish) =>
      w.(tasks := w.tasks[task := Submitting(project, payload, publish)])
    case Publish(task, project) => w.(tasks := w.tasks[task := Reading(project)])
    case GoOn(task) =>
      var (after, stage) := Onward(w, w.tasks[task], passes);
      after.(tasks := after.tasks[task := stage])
  }

  ghost predicate Run(worlds: seq<World>, steps: seq<Step>, passes: Payload -> bool) {
    && |worlds| == |steps| + 1
    && worlds[0] == World([], map[], map[])
    && forall i :: 0 <= i < |steps| ==>
         Enabled(worlds[i], steps[i]) && worlds[i + 1] == Next(worlds[i], steps[i], passes)
  }

  // ------------------------------------------------------------ what is kept

  /** How many versions a project has. */
  function CountOf(rows: seq<Version>, project: Project): nat {
    if rows == [] then 0
    else CountOf(rows[..|rows| - 1], project) + if rows[|rows| - 1].project == project then 1 else 0
  }

  /** Row by row: each is its project's next. */
  ghost predicate InSequence(rows: seq<Version>) {
    forall i :: 0 <= i < |rows| ==> rows[i].number == CountOf(rows[..i], rows[i].project) + 1
  }

  ghost predicate AllPassed(w: World, passes: Payload -> bool) {
    && (forall i :: 0 <= i < |w.rows| ==> passes(w.rows[i].payload))
    && (forall p :: p in w.drafts && w.drafts[p].valid ==> passes(w.drafts[p].payload))
    && (forall t :: t in w.tasks ==>
         && (w.tasks[t].Publishing? ==> passes(w.tasks[t].payload))
         && (w.tasks[t].Numbered? ==> passes(w.tasks[t].version.payload)))
  }

  /** A number in hand was the next one when it was read, so it is the next one
      still, or it has been taken. */
  ghost predicate NumbersInReach(w: World) {
    forall t :: t in w.tasks && w.tasks[t].Numbered? ==>
      1 <= w.tasks[t].version.number <= CountOf(w.rows, w.tasks[t].version.project) + 1
  }

  ghost predicate Kept(w: World, passes: Payload -> bool) {
    InSequence(w.rows) && AllPassed(w, passes) && NumbersInReach(w)
  }

  lemma {:induction false} LatestIsTheCount(rows: seq<Version>, project: Project)
    requires InSequence(rows)
    ensures NextNumber(rows, project) == CountOf(rows, project) + 1
    ensures Latest(rows, project).Some? ==> Latest(rows, project).value in rows && Latest(rows, project).value.project == project
  {
    if rows != [] {
      var n := |rows| - 1;
      var init := rows[..n];
      forall i | 0 <= i < n ensures init[i].number == CountOf(init[..i], init[i].project) + 1 {
        assert init[..i] == rows[..i];
      }
      LatestIsTheCount(init, project);
      assert rows[n].number == CountOf(rows[..n], rows[n].project) + 1;
    }
  }

  /** With the rows in sequence, the numbers taken are exactly 1 to the count. */
  lemma {:induction false} TakenUpToTheCount(rows: seq<Version>, project: Project, number: nat)
    requires InSequence(rows)
    ensures Taken(rows, project, number) <==> 1 <= number <= CountOf(rows, project)
  {
    if rows != [] {
      var n := |rows| - 1;
      var init := rows[..n];
      forall i | 0 <= i < n ensures init[i].number == CountOf(init[..i], init[i].project) + 1 {
        assert init[..i] == rows[..i];
      }
      TakenUpToTheCount(init, project, number);
      assert rows[n].number == CountOf(rows[..n], rows[n].project) + 1;
      TakenByTheLast(rows, project, number);
      hide Taken, InSequence;
    }
  }

  lemma TakenByTheLast(rows: seq<Version>, project: Project, number: nat)
    requires rows != []
    ensures var n := |rows| - 1;
      Taken(rows, project, number) <==>
        Taken(rows[..n], project, number) || (rows[n].project == project && rows[n].number == number)
  {
    var n := |rows| - 1;
    var init := rows[..n];
    if Taken(init, project, number) {
      var i :| 0 <= i < |init| && init[i].project == project && init[i].number == number;
      assert rows[i] == init[i];
    }
    if i :| 0 <= i < |rows| && rows[i].project == project && rows[i].number == number {
      assert i == n || init[i] == rows[i];
    }
  }

  lemma InsertingKeepsSequence(rows: seq<Version>, version: Version)
    requires InSequence(rows) && 1 <= version.number <= CountOf(rows, version.project) + 1
    ensures InSequence(Inserted(rows, version))
    ensures forall p :: CountOf(Inserted(rows, version), p) >= CountOf(rows, p)
    ensures rows <= Inserted(rows, version)
  {
    TakenUpToTheCount(rows, version.project, version.number);
    var after := Inserted(rows, version);
    if after != rows {
      assert after[..|rows|] == rows;
      forall i | 0 <= i < |after| ensures after[i].number == CountOf(after[..i], after[i].project) + 1 {
        if i < |rows| {
          assert after[..i] == rows[..i];
        }
      }
    }
  }

  lemma StepKeeps(w: World, step: Step, passes: Payload -> bool)
    requires Kept(w, passes) && Enabled(w, step)
    ensures Kept(Next(w, step, passes), passes)
    ensures w.rows <= Next(w, step, passes).rows
  {
    hide InSequence, CountOf, Inserted, Taken, Latest, NextNumber;
    if step.GoOn? && w.tasks[step.task].Numbered? {
      InsertKeeps(w, step, passes);
    } else {
      RowsStand(w, step, passes);
      if step.GoOn? && w.tasks[step.task].Publishing? {
        LatestIsTheCount(w.rows, w.tasks[step.task].project);
      }
    }
  }

  lemma RowsStand(w: World, step: Step, passes: Payload -> bool)
    requires Enabled(w, step) && !(step.GoOn? && w.tasks[step.task].Numbered?)
    ensures Next(w, step, passes).rows == w.rows
  {
  }

  lemma InsertKeeps(w: World, step: Step, passes: Payload -> bool)
    requires Kept(w, passes) && Enabled(w, step)
    requires step.GoOn? && w.tasks[step.task].Numbered?
    ensures Kept(Next(w, step, passes), passes)
    ensures w.rows <= Next(w, step, passes).rows
  {
    hide InSequence, CountOf, Inserted, Taken;
    var version, after := w.tasks[step.task].version, Next(w, step, passes);
    InsertingKeepsSequence(w.rows, version);
    InsertedPasses(w.rows, version, passes);
    assert after.drafts == w.drafts;
    assert forall t :: t in after.tasks && (after.tasks[t].Numbered? || after.tasks[t].Publishing?) ==>
      t in w.tasks && after.tasks[t] == w.tasks[t];
  }

  lemma InsertedPasses(rows: seq<Version>, version: Version, passes: Payload -> bool)
    requires passes(version.payload) && forall i :: 0 <= i < |rows| ==> passes(rows[i].payload)
    ensures var after := Inserted(rows, version); forall i :: 0 <= i < |after| ==> passes(after[i].payload)
  {
  }

  lemma {:induction false} EveryRunIsKept(worlds: seq<World>, steps: seq<Step>, passes: Payload -> bool, k: nat)
    requires Run(worlds, steps, passes) && k < |worlds|
    ensures Kept(worlds[k], passes)
  {
    if k > 0 {
      EveryRunIsKept(worlds, steps, passes, k - 1);
      StepKeeps(worlds[k - 1], steps[k - 1], passes);
    }
  }

  /** Under any interleaving: a project's versions are exactly 1 to however many
      it has, each once; every one of them passed; and what is served is the
      last. */
  lemma VersionsAreInSequence(
    worlds: seq<World>, steps: seq<Step>, passes: Payload -> bool, k: nat, project: Project, number: nat)
    requires Run(worlds, steps, passes) && k < |worlds|
    ensures var rows := worlds[k].rows;
      && (Taken(rows, project, number) <==> 1 <= number <= CountOf(rows, project))
      && (forall i, j :: 0 <= i < j < |rows| ==> rows[i].project != rows[j].project || rows[i].number < rows[j].number)
      && (Latest(rows, project).Some? ==>
           passes(Latest(rows, project).value.payload) &&
           Latest(rows, project).value.number == CountOf(rows, project))
  {
    hide Next, Enabled;
    EveryRunIsKept(worlds, steps, passes, k);
    var rows := worlds[k].rows;
    TakenUpToTheCount(rows, project, number);
    LatestIsTheCount(rows, project);
    forall i, j | 0 <= i < j < |rows| ensures rows[i].project != rows[j].project || rows[i].number < rows[j].number {
      CountsGrow(rows, i, j);
    }
  }

  lemma {:induction false} CountsGrow(rows: seq<Version>, i: nat, j: nat)
    requires i < j <= |rows|
    ensures CountOf(rows[..j], rows[i].project) > CountOf(rows[..i], rows[i].project)
    decreases j
  {
    assert rows[..j][..j - 1] == rows[..j - 1];
    if i < j - 1 {
      CountsGrow(rows, i, j - 1);
    }
  }

  /** A version once published is there for good, as it was. */
  lemma {:induction false} NoVersionIsAltered(worlds: seq<World>, steps: seq<Step>, passes: Payload -> bool, j: nat, k: nat)
    requires Run(worlds, steps, passes) && j <= k < |worlds|
    ensures worlds[j].rows <= worlds[k].rows
  {
    hide Kept, Next, Enabled;
    if j < k {
      NoVersionIsAltered(worlds, steps, passes, j, k - 1);
      EveryRunIsKept(worlds, steps, passes, k - 1);
      StepKeeps(worlds[k - 1], steps[k - 1], passes);
    }
  }

  /** A submission that does not validate goes no further than being filed: at no
      moment of any run is it being published, and no step it takes changes what
      any project serves. */
  lemma {:induction false} AnInvalidSubmissionChangesNothingServed(
    worlds: seq<World>, steps: seq<Step>, passes: Payload -> bool, task: nat, j: nat, k: nat)
    requires Run(worlds, steps, passes) && j <= k < |worlds|
    requires task in worlds[j].tasks && worlds[j].tasks[task].Submitting? && !passes(worlds[j].tasks[task].payload)
    ensures task in worlds[k].tasks
    ensures worlds[k].tasks[task] == worlds[j].tasks[task] || worlds[k].tasks[task] == Invalid
    ensures k < |steps| && steps[k] == GoOn(task) ==>
              worlds[k + 1].rows == worlds[k].rows && worlds[k + 1].tasks[task] == Invalid
  {
    hide Inserted, Taken, NextNumber;
    if j < k {
      AnInvalidSubmissionChangesNothingServed(worlds, steps, passes, task, j, k - 1);
      assert Enabled(worlds[k - 1], steps[k - 1]) && worlds[k] == Next(worlds[k - 1], steps[k - 1], passes);
    }
  }

  // ------------------------------------------------------ one task, to its end

  /** How many times a task has gone on between two moments of a run. */
  function Turns(steps: seq<Step>, task: nat, j: nat, k: nat): nat
    requires j <= k <= |steps|
  {
    if j == k then 0 else Turns(steps, task, j, k - 1) + if steps[k - 1] == GoOn(task) then 1 else 0
  }

  lemma LengthOfARun(worlds: seq<World>, steps: seq<Step>, passes: Payload -> bool)
    requires Run(worlds, steps, passes)
    ensures |worlds| == |steps| + 1
  {
    hide Next, Enabled;
  }

  lemma OneStep(worlds: seq<World>, steps: seq<Step>, passes: Payload -> bool, i: nat)
    requires Run(worlds, steps, passes) && i < |steps|
    ensures |worlds| == |steps| + 1 && Enabled(worlds[i], steps[i])
    ensures worlds[i + 1] == Next(worlds[i], steps[i], passes)
  {
    hide Next, Enabled;
  }

  /** A task moves when it goes on, and at no other time; no row is lost. */
  lemma ATaskMoves(w: World, step: Step, passes: Payload -> bool, task: nat)
    requires task in w.tasks && Enabled(w, step)
    ensures var after := Next(w, step, passes);
      && task in after.tasks
      && after.tasks[task] == (if step == GoOn(task) then Onward(w, w.tasks[task], passes).1 else w.tasks[task])
      && w.rows <= after.rows
      && (step == GoOn(task) ==> after.rows == Onward(w, w.tasks[task], passes).0.rows)
  {
    hide Taken, NextNumber;
  }

  /** A submission that does not ask to be published is filed and held, or filed
      and found invalid, at its first turn; it changes no version, and comes to
      nothing else. */
  lemma {:induction false} AHeldSubmissionIsOnlyFiled(
    worlds: seq<World>, steps: seq<Step>, passes: Payload -> bool, task: nat, project: Project, payload: Payload,
    j: nat, k: nat)
    requires Run(worlds, steps, passes) && j < k < |worlds|
    requires steps[j] == Submit(task, project, payload, false)
    ensures task in worlds[k].tasks
    ensures worlds[k].tasks[task] ==
            if Turns(steps, task, j, k) == 0 then Submitting(project, payload, false)
            else if passes(payload) then Held else Invalid
    ensures k < |steps| && steps[k] == GoOn(task) ==> worlds[k + 1].rows == worlds[k].rows
  {
    hide Inserted, Taken, NextNumber, Enabled;
    OneStep(worlds, steps, passes, k - 1);
    if k - 1 > j {
      AHeldSubmissionIsOnlyFiled(worlds, steps, passes, task, project, payload, j, k - 1);
      ATaskMoves(worlds[k - 1], steps[k - 1], passes, task);
      hide Next;
    } else {
      assert Turns(steps, task, j, j) == 0;
    }
    if k < |steps| {
      OneStep(worlds, steps, passes, k);
      hide Run, Next;
      if steps[k] == GoOn(task) {
        ATaskMoves(worlds[k], steps[k], passes, task);
      }
    }
  }

  lemma InsertedIsThere(rows: seq<Version>)
    ensures forall v: Version :: !Taken(rows, v.project, v.number) ==> v in Inserted(rows, v)
  {
  }

  /** Where a submission that asks to be published has got to. */
  ghost predicate OnItsWay(w: World, passes: Payload -> bool, stage: Task, project: Project, payload: Payload, turns: nat) {
    if turns == 0 then stage == Submitting(project, payload, true)
    else if !passes(payload) then stage == Invalid
    else if turns == 1 then stage == Publishing(project, payload)
    else if turns == 2 then stage.Numbered? && stage.version.project == project && stage.version.payload == payload
    else
      || stage == Conflicted
      || (stage.Published? && stage.version in w.rows && stage.version.project == project && stage.version.payload == payload)
  }

  /** One that does, and validates, is filed at its first turn, numbered at its
      second, and over at its third: it is a version of its own project, of the
      very payload submitted, or its number had been taken. */
  lemma {:induction false} ASubmissionIsPublishedOrConflicts(
    worlds: seq<World>, steps: seq<Step>, passes: Payload -> bool, task: nat, project: Project, payload: Payload,
    j: nat, k: nat)
    requires Run(worlds, steps, passes) && j < k < |worlds|
    requires steps[j] == Submit(task, project, payload, true)
    ensures task in worlds[k].tasks
    ensures OnItsWay(worlds[k], passes, worlds[k].tasks[task], project, payload, Turns(steps, task, j, k))
  {
    hide Run, Inserted, NextNumber, Taken;
    LengthOfARun(worlds, steps, passes);
    OneStep(worlds, steps, passes, k - 1);
    if k - 1 > j {
      ASubmissionIsPublishedOrConflicts(worlds, steps, passes, task, project, payload, j, k - 1);
      ATaskMoves(worlds[k - 1], steps[k - 1], passes, task);
      InsertedIsThere(worlds[k - 1].rows);
      hide Enabled, Next;
    } else {
      assert Turns(steps, task, j, j) == 0;
    }
  }

  /** The third turn: exactly when no row of its project has its number is it
      published, and then the row is added. */
  lemma ItConflictsExactlyWhenTaken(w: World, task: nat, passes: Payload -> bool)
    requires task in w.tasks && w.tasks[task].Numbered?
    ensures var v, after := w.tasks[task].version, Next(w, GoOn(task), passes);
      if exists i :: 0 <= i < |w.rows| && w.rows[i].project == v.project && w.rows[i].number == v.number
      then after.tasks[task] == Conflicted && after.rows == w.rows
      else after.tasks[task] == Published(v) && after.rows == w.rows + [v]
  {
  }

  // ------------------------------------------------- where payloads come from

  /** Some step so far submitted this payload to this project. */
  ghost predicate WasSubmitted(steps: seq<Step>, k: nat, project: Project, payload: Payload)
    requires k <= |steps|
  {
    exists i :: 0 <= i < k && steps[i].Submit? && steps[i].project == project && steps[i].payload == payload
  }

  /** The draft a project has: the last one filed. */
  function LastFiled(worlds: seq<World>, steps: seq<Step>, k: nat, project: Project): Option<Payload>
    requires k <= |steps| && |worlds| == |steps| + 1
  {
    if k == 0 then None
    else
      var w, step := worlds[k - 1], steps[k - 1];
      if step.GoOn? && step.task in w.tasks && w.tasks[step.task].Submitting? && w.tasks[step.task].project == project
      then Some(w.tasks[step.task].payload)
      else LastFiled(worlds, steps, k - 1, project)
  }

  ghost predicate AllSubmitted(w: World, steps: seq<Step>, k: nat)
    requires k <= |steps|
  {
    && (forall i :: 0 <= i < |w.rows| ==> WasSubmitted(steps, k, w.rows[i].project, w.rows[i].payload))
    && (forall p :: p in w.drafts ==> WasSubmitted(steps, k, p, w.drafts[p].payload))
    && (forall t :: t in w.tasks ==>
         && (w.tasks[t].Submitting? || w.tasks[t].Publishing? ==>
              WasSubmitted(steps, k, w.tasks[t].project, w.tasks[t].payload))
         && (w.tasks[t].Numbered? ==>
              WasSubmitted(steps, k, w.tasks[t].version.project, w.tasks[t].version.payload)))
  }

  lemma {:induction false} SubmittedStays(steps: seq<Step>, k: nat)
    requires k < |steps|
    ensures forall p, q :: WasSubmitted(steps, k, p, q) ==> WasSubmitted(steps, k + 1, p, q)
    ensures steps[k].Submit? ==> WasSubmitted(steps, k + 1, steps[k].project, steps[k].payload)
  {
  }

  /** Every version is of a payload somebody submitted to its project. */
  lemma {:induction false} EveryVersionWasSubmitted(worlds: seq<World>, steps: seq<Step>, passes: Payload -> bool, k: nat)
    requires Run(worlds, steps, passes) && k < |worlds|
    ensures AllSubmitted(worlds[k], steps, k)
  {
    if k > 0 {
      EveryVersionWasSubmitted(worlds, steps, passes, k - 1);
      OneStep(worlds, steps, passes, k - 1);
      hide AllSubmitted, Run, Next, Enabled;
      SubmittedKept(worlds[k - 1], steps, passes, k - 1);
    }
  }

  lemma SubmittedKept(w: World, steps: seq<Step>, passes: Payload -> bool, k: nat)
    requires k < |steps| && Enabled(w, steps[k]) && AllSubmitted(w, steps, k)
    ensures AllSubmitted(Next(w, steps[k], passes), steps, k + 1)
  {
    hide WasSubmitted, NextNumber, Taken, Inserted;
    SubmittedStays(steps, k);
    if steps[k].GoOn? && w.tasks[steps[k].task].Numbered? {
      InsertedAreFrom(w.rows, w.tasks[steps[k].task].version);
    }
  }

  lemma InsertedAreFrom(rows: seq<Version>, version: Version)
    ensures forall i :: 0 <= i < |Inserted(rows, version)| ==>
              Inserted(rows, version)[i] == version || (i < |rows| && Inserted(rows, version)[i] == rows[i])
  {
    hide Taken;
  }

  /** A project's draft is the last payload filed for it, with whether it passed. */
  lemma {:induction false} TheDraftIsTheLastFiled(
    worlds: seq<World>, steps: seq<Step>, passes: Payload -> bool, k: nat, project: Project)
    requires Run(worlds, steps, passes) && k < |worlds|
    ensures |worlds| == |steps| + 1
    ensures var filed := LastFiled(worlds, steps, k, project);
      if filed.None? then project !in worlds[k].drafts
      else project in worlds[k].drafts && worlds[k].drafts[project] == Draft(filed.value, passes(filed.value))
  {
    if k > 0 {
      TheDraftIsTheLastFiled(worlds, steps, passes, k - 1, project);
      OneStep(worlds, steps, passes, k - 1);
      hide Run, NextNumber, Taken, Inserted;
    }
  }

  /** A draft asked to be published is the last one filed, if there is one and it
      passed. */
  lemma PublishingTakesTheLastFiled(worlds: seq<World>, steps: seq<Step>, passes: Payload -> bool, k: nat, task: nat)
    requires Run(worlds, steps, passes) && k < |steps| && steps[k] == GoOn(task)
    requires task in worlds[k].tasks && worlds[k].tasks[task].Reading?
    ensures |worlds| == |steps| + 1 && task in worlds[k + 1].tasks
    ensures var project := worlds[k].tasks[task].project;
            var filed := LastFiled(worlds, steps, k, project);
      worlds[k + 1].tasks[task] ==
        if filed.None? then NothingThere else if passes(filed.value) then Publishing(project, filed.value) else Invalid
    ensures worlds[k + 1].rows == worlds[k].rows
  {
    TheDraftIsTheLastFiled(worlds, steps, passes, k, worlds[k].tasks[task].project);
    OneStep(worlds, steps, passes, k);
    hide Run, NextNumber, Taken, Inserted;
  }

  /** Where a publish of a project's draft has got to. */
  ghost predicate OnItsWayFromTheDraft(w: World, passes: Payload -> bool, stage: Task, project: Project, turns: nat) {
    if turns == 0 then stage == Reading(project)
    else if stage == NothingThere || stage == Invalid then true
    else if turns == 1 then stage.Publishing? && stage.project == project && passes(stage.payload)
    else if turns == 2 then stage.Numbered? && stage.version.project == project && passes(stage.version.payload)
    else
      || stage == Conflicted
      || (stage.Published? && stage.version in w.rows && stage.version.project == project)
  }

  lemma OneTurnFromTheDraft(w: World, passes: Payload -> bool, task: nat, project: Project, turns: nat)
    requires AllPassed(w, passes) && task in w.tasks
    requires OnItsWayFromTheDraft(w, passes, w.tasks[task], project, turns)
    ensures var (after, stage) := Onward(w, w.tasks[task], passes);
            OnItsWayFromTheDraft(after, passes, stage, project, turns + 1)
  {
    hide NextNumber, Taken;
  }

  lemma RowsGrowOnItsWay(w: World, w': World, passes: Payload -> bool, stage: Task, project: Project, turns: nat)
    requires w.rows <= w'.rows && OnItsWayFromTheDraft(w, passes, stage, project, turns)
    ensures OnItsWayFromTheDraft(w', passes, stage, project, turns)
  {
  }

  lemma ReadingIsTheStart(w: World, passes: Payload -> bool, task: nat, project: Project)
    requires Enabled(w, Publish(task, project))
    ensures var after := Next(w, Publish(task, project), passes);
            task in after.tasks && OnItsWayFromTheDraft(after, passes, after.tasks[task], project, 0)
  {
  }

  /** One asked for on its own reads the draft at its first turn, as
      PublishingTakesTheLastFiled has it, and is over by its third. */
  lemma {:induction false} APublishIsPublishedOrConflicts(
    worlds: seq<World>, steps: seq<Step>, passes: Payload -> bool, task: nat, project: Project, j: nat, k: nat)
    requires Run(worlds, steps, passes) && j < k < |worlds|
    requires steps[j] == Publish(task, project)
    ensures task in worlds[k].tasks
    ensures OnItsWayFromTheDraft(worlds[k], passes, worlds[k].tasks[task], project, Turns(steps, task, j, k))
  {
    hide Run, Enabled, Next, Onward, OnItsWayFromTheDraft, InSequence, NumbersInReach, AllPassed;
    LengthOfARun(worlds, steps, passes);
    OneStep(worlds, steps, passes, k - 1);
    var w, step := worlds[k - 1], steps[k - 1];
    if k - 1 > j {
      APublishIsPublishedOrConflicts(worlds, steps, passes, task, project, j, k - 1);
      EveryRunIsKept(worlds, steps, passes, k - 1);
      ATaskMoves(w, step, passes, task);
      var turns := Turns(steps, task, j, k - 1);
      if step == GoOn(task) {
        OneTurnFromTheDraft(w, passes, task, project, turns);
        var (after, stage) := Onward(w, w.tasks[task], passes);
        RowsGrowOnItsWay(after, worlds[k], passes, stage, project, turns + 1);
      } else {
        RowsGrowOnItsWay(w, worlds[k], passes, w.tasks[task], project, turns);
      }
    } else {
      assert Turns(steps, task, j, j) == 0;
      ReadingIsTheStart(w, passes, task, project);
    }
  }
}
