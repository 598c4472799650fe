/** What a connector serves a request out of, and which version that is
    (packages/cli/src/connector/session.ts, client.ts:193-256). */
module Sessions {
  import opened Outcomes

  type Payload = nat

  /** A definition as Cloud hands it over: `null` while nothing is published. */
  datatype Published = Published(version: nat, payload: Payload)

  /** 0 before there is one. */
  function VersionOf(held: Option<Published>): nat {
    if held.Some? then held.value.version else 0
  }

  /** What is held once a definition has come: the new one, unless it does not
      validate here, or nothing when there is none. */
  function Taken(held: Option<Published>, came: Option<Published>, passes: Payload -> bool): Option<Published> {
    if came.Some? && !passes(came.value.payload) then held else came
  }

  class ConnectorSession {
    var served: Option<Published>
    var signing: string

    constructor ()
      ensures served == None && signing == ""
    {
      served, signing := None, "";
    }

    method Open(secret: string, published: Option<Published>, passes: Payload -> bool) returns (ok: bool)
      modifies this
      ensures signing == secret && served == Taken(old(served), published, passes)
      ensures ok <==> published.None? || passes(published.value.payload)
    {
      signing := secret;
      ok := Serve(published, passes);
    }

    method Serve(published: Option<Published>, passes: Payload -> bool) returns (ok: bool)
      modifies this`served
      ensures served == Taken(old(served), published, passes)
      ensures ok <==> published.None? || passes(published.value.payload)
    {
      if published.None? {
        served := None;
        return true;
      }
      if !passes(published.value.payload) {
        return false;
      }
      served := published;
      return true;
    }

    method Close()
      modifies this
      ensures served == None && signing == ""
    {
      served, signing := None, "";
    }
  }

  // ---------------------------------------------------- requests and pulls

  /** A question for the definition, and what Cloud said to it once it has. */
  datatype Pull = Asked | Answered(came: Option<Published>)

  /** A request that had to pull first. `brought` is the version its pull left in
      the session, for as long as the channel it came over lasts. */
  datatype Task = Pulling(requested: nat, pull: nat) | Pulled(requested: nat, brought: Option<nat>)

  /** A request and what it was served out of; nothing, and it was refused. */
  datatype Service = Service(requested: nat, out: Option<Published>) {
    predicate Own() {
      VersionOf(out) == requested
    }
  }

  datatype World = World(
    published: seq<Payload>,
    held: Option<Published>,
    pulls: map<nat, Pull>,
    nextPull: nat,
    tasks: map<nat, Task>,
    services: seq<Service>)

  datatype Step =
    | Publishes(payload: Payload)
    | Asks
    | CloudAnswers(pull: nat)
    | Delivers(pull: nat)
    | Fails(pull: nat)
    | Executes(task: nat, requested: nat)
    | GoesOn(task: nat)
    | Closes

  const BLANK := World([], None, map[], 1, map[], [])

  /** What Cloud would hand over now: the last version published. */
  function Latest(published: seq<Payload>): Option<Published> {
    if published == [] then None else Some(Published(|published|, published[|published| - 1]))
  }

  /** Cloud resolves a request against a version it has published. */
  predicate Enabled(w: World, step: Step) {
    match step
    case CloudAnswers(pull) => pull in w.pulls && w.pulls[pull].Asked?
    case Delivers(pull) => pull in w.pulls && w.pulls[pull].Answered?
    case Fails(pull) => pull in w.pulls
    case Executes(task, requested) => task !in w.tasks && 1 <= requested <= |w.published|
    case GoesOn(task) => task in w.tasks && w.tasks[task].Pulled?
    case _ => true
  }

  /** Whoever waited for a pull waits no more. */
  function Woken(task: Task, pull: nat, brought: Option<nat>): Task {
    if task.Pulling? && task.pull == pull then Pulled(task.requested, brought) else task
  }

  function Woke(tasks: map<nat, Task>, pull: nat, brought: Option<nat>): map<nat, Task> {
    map t | t in tasks :: Woken(tasks[t], pull, brought)
  }

  /** What a pull left behind, if it is what Cloud handed over. */
  function Brought(came: Option<Published>, passes: Payload -> bool): Option<nat> {
    if came.Some? && passes(came.value.payload) then Some(came.value.version) else None
  }

  function Pulls(w: World): World {
    w.(pulls := w.pulls[w.nextPull := Asked], nextPull := w.nextPull + 1)
  }

  /** A request older or newer than the session is told apart one way only: an
      older session pulls, and whatever is held after that is what serves. */
  function Executing(w: World, task: nat, requested: nat): World {
    if VersionOf(w.held) < requested
    then Pulls(w).(tasks := w.tasks[task := Pulling(requested, w.nextPull)])
    else w.(services := w.services + [Service(requested, w.held)])
  }

  function Next(w: World, step: Step, passes: Payload -> bool): World
    requires Enabled(w, step)
  {
    match step
    case Publishes(payload) => w.(published := w.published + [payload])
    case Asks => Pulls(w)
    case CloudAnswers(pull) => w.(pulls := w.pulls[pull := Answered(Latest(w.published))])
    case Delivers(pull) =>
      var came := w.pulls[pull].came;
      w.(held := Taken(w.held, came, passes), pulls := w.pulls - {pull},
         tasks := Woke(w.tasks, pull, Brought(came, passes)))
    case Fails(pull) => w.(pulls := w.pulls - {pull}, tasks := Woke(w.tasks, pull, None))
    case Executes(task, requested) => Executing(w, task, requested)
    case GoesOn(task) =>
      w.(tasks := w.tasks - {task}, services := w.services + [Service(w.tasks[task].requested, w.held)])
    case Closes =>
      w.(held := None, pulls := map[], tasks := map t | t in w.tasks :: Pulled(w.tasks[t].requested, None))
  }

  ghost predicate Run(worlds: seq<World>, steps: seq<Step>, passes: Payload -> bool) {
    && |worlds| == |steps| + 1
    && worlds[0] == BLANK
    && forall i :: 0 <= i < |steps| ==>
         Enabled(worlds[i], steps[i]) && worlds[i + 1] == Next(worlds[i], steps[i], passes)
  }

  // ------------------------------------------------------------ what is kept

  /** A version is the payload Cloud published under it. */
  predicate IsPublished(published: seq<Payload>, p: Option<Published>) {
    p.Some? ==> 1 <= p.value.version <= |published| && published[p.value.version - 1] == p.value.payload
  }

  ghost predicate Servable(published: seq<Payload>, p: Option<Published>, passes: Payload -> bool) {
    IsPublished(published, p) && (p.Some? ==> passes(p.value.payload))
  }

  /** What is held, and whatever was served out of, was published and validates. */
  ghost predicate HeldKept(w: World, passes: Payload -> bool) {
    && Servable(w.published, w.held, passes)
    && (forall p :: p in w.pulls && w.pulls[p].Answered? ==> IsPublished(w.published, w.pulls[p].came))
    && (forall i :: 0 <= i < |w.services| ==> Servable(w.published, w.services[i].out, passes))
  }

  /** A request's own pull is asked once Cloud has its version, so what it brings
      is that version or a later one. */
  ghost predicate TasksKept(w: World) {
    && (forall p :: p in w.pulls ==> p < w.nextPull)
    && (forall t :: t in w.tasks ==> 1 <= w.tasks[t].requested <= |w.published|)
    && (forall t :: t in w.tasks && w.tasks[t].Pulling? ==>
         w.tasks[t].pull in w.pulls &&
         (w.pulls[w.tasks[t].pull].Answered? ==> VersionOf(w.pulls[w.tasks[t].pull].came) >= w.tasks[t].requested))
    && (forall t :: t in w.tasks && w.tasks[t].Pulled? && w.tasks[t].brought.Some? ==>
         w.tasks[t].brought.value >= w.tasks[t].requested)
  }

  ghost predicate Kept(w: World, passes: Payload -> bool) {
    HeldKept(w, passes) && TasksKept(w)
  }

  lemma StepKeepsHeld(w: World, step: Step, passes: Payload -> bool)
    requires HeldKept(w, passes) && Enabled(w, step)
    ensures HeldKept(Next(w, step, passes), passes)
  {
    hide Woke;
  }

  /** Whoever waited is woken, and told of nothing older than they asked for. */
  lemma WakingKeepsTasks(w: World, t: World, pull: nat, brought: Option<nat>)
    requires TasksKept(w) && pull in w.pulls
    requires t == w.(held := t.held, pulls := w.pulls - {pull}, tasks := Woke(w.tasks, pull, brought))
    requires brought.Some? ==> w.pulls[pull].Answered? && VersionOf(w.pulls[pull].came) == brought.value
    ensures TasksKept(t)
  {
  }

  lemma AskingKeepsTasks(w: World)
    requires TasksKept(w)
    ensures TasksKept(Pulls(w))
  {
  }

  lemma ExecutingKeepsTasks(w: World, task: nat, requested: nat)
    requires TasksKept(w) && 1 <= requested <= |w.published|
    ensures TasksKept(Executing(w, task, requested))
  {
    AskingKeepsTasks(w);
  }

  lemma RestKeepsTasks(w: World, step: Step, passes: Payload -> bool)
    requires TasksKept(w) && Enabled(w, step) && (step.Publishes? || step.GoesOn? || step.Closes?)
    ensures TasksKept(Next(w, step, passes))
  {
  }

  lemma StepKeepsTasks(w: World, step: Step, passes: Payload -> bool)
    requires TasksKept(w) && Enabled(w, step)
    ensures TasksKept(Next(w, step, passes))
  {
    hide TasksKept, Woke, Executing;
    match step {
      case Delivers(pull) =>
        WakingKeepsTasks(w, Next(w, step, passes), pull, Brought(w.pulls[pull].came, passes));
      case Fails(pull) => WakingKeepsTasks(w, Next(w, step, passes), pull, None);
      case Asks => AskingKeepsTasks(w);
      case Executes(task, requested) => ExecutingKeepsTasks(w, task, requested);
      case CloudAnswers(pull) => AnsweringKeepsTasks(w, pull);
      case _ => RestKeepsTasks(w, step, passes);
    }
  }

  lemma AnsweringKeepsTasks(w: World, pull: nat)
    requires TasksKept(w) && pull in w.pulls && w.pulls[pull].Asked?
    ensures TasksKept(w.(pulls := w.pulls[pull := Answered(Latest(w.published))]))
  {
  }

  lemma {:induction false} EveryRunIsKept(worlds: seq<World>, steps: seq<Step>, passes: Payload -> bool, k: nat)
    requires Run(worlds, steps, passes) && k < |worlds|
    ensures Kept(worlds[k], passes)
  {
    if k > 0 {
      EveryRunIsKept(worlds, steps, passes, k - 1);
      hide HeldKept, TasksKept, Next, Enabled;
      StepKeepsHeld(worlds[k - 1], steps[k - 1], passes);
      StepKeepsTasks(worlds[k - 1], steps[k - 1], passes);
    } else {
      assert worlds[0] == BLANK;
    }
  }

  // ------------------------------------------- which version serves a request

  /** Over every run: a request is served out of its own version, which is the
      very definition Cloud resolved it against, exactly when that version is
      what the session holds once any pull is over. It is refused exactly when
      nothing is held, and never for holding something newer. */
  lemma ServedOutOfItsOwnVersionExactlyWhenHeld(worlds: seq<World>, steps: seq<Step>, passes: Payload -> bool, k: nat)
    requires Run(worlds, steps, passes) && k < |steps|
    requires worlds[k + 1].services != worlds[k].services
    ensures |worlds[k + 1].services| == |worlds[k].services| + 1
    ensures var w, s := worlds[k], worlds[k + 1].services[|worlds[k].services|];
      && 1 <= s.requested <= |w.published|
      && (VersionOf(w.held) == s.requested <==> s.out == Some(Published(s.requested, w.published[s.requested - 1])))
      && (s.out == None <==> VersionOf(w.held) == 0)
      && (VersionOf(w.held) > s.requested ==> VersionOf(s.out) > s.requested)
      && (steps[k].Executes? ==> VersionOf(w.held) >= s.requested)
  {
    EveryRunIsKept(worlds, steps, passes, k);
    assert Enabled(worlds[k], steps[k]) && worlds[k + 1] == Next(worlds[k], steps[k], passes);
    hide Woke, Taken, Brought, Latest;
  }

  /** Nobody asks for the definition while somebody else does. */
  ghost predicate OneAtATime(w: World) {
    forall p, q :: p in w.pulls && q in w.pulls ==> p == q
  }

  /** What comes is no older than what is held, which is no older than anything a
      pull is known to have brought. */
  ghost predicate Rising(w: World) {
    && (forall p :: p in w.pulls && w.pulls[p].Answered? ==> VersionOf(w.held) <= VersionOf(w.pulls[p].came))
    && (forall t :: t in w.tasks && w.tasks[t].Pulled? && w.tasks[t].brought.Some? ==>
         w.tasks[t].brought.value <= VersionOf(w.held))
  }

  lemma StepRises(w: World, step: Step, passes: Payload -> bool)
    requires Kept(w, passes) && Enabled(w, step) && OneAtATime(w) && Rising(w)
    ensures Rising(Next(w, step, passes))
    ensures VersionOf(Next(w, step, passes).held) >= VersionOf(w.held) || step.Closes?
  {
    hide TasksKept;
  }

  lemma {:induction false} PullsOneAtATimeRise(worlds: seq<World>, steps: seq<Step>, passes: Payload -> bool, k: nat)
    requires Run(worlds, steps, passes) && k < |worlds|
    requires forall i :: 0 <= i < |worlds| ==> OneAtATime(worlds[i])
    ensures Rising(worlds[k])
  {
    if k > 0 {
      PullsOneAtATimeRise(worlds, steps, passes, k - 1);
      EveryRunIsKept(worlds, steps, passes, k - 1);
      hide Rising, Kept, Next, Enabled;
      StepRises(worlds[k - 1], steps[k - 1], passes);
    } else {
      assert worlds[0] == BLANK;
    }
  }

  /** In every run whose pulls do not overlap: the version held never goes back
      while a channel lasts, and a request is served out of an older version than
      its own only when its pull brought nothing. */
  lemma OlderOnlyWhenThePullBringsNothing(worlds: seq<World>, steps: seq<Step>, passes: Payload -> bool, k: nat)
    requires Run(worlds, steps, passes) && k < |steps|
    requires forall i :: 0 <= i < |worlds| ==> OneAtATime(worlds[i])
    ensures VersionOf(worlds[k + 1].held) >= VersionOf(worlds[k].held) || steps[k].Closes?
    ensures steps[k].GoesOn? && VersionOf(worlds[k].held) < worlds[k].tasks[steps[k].task].requested ==>
              worlds[k].tasks[steps[k].task].brought == None
  {
    PullsOneAtATimeRise(worlds, steps, passes, k);
    EveryRunIsKept(worlds, steps, passes, k);
    var w, step := worlds[k], steps[k];
    assert Enabled(w, step) && worlds[k + 1] == Next(w, step, passes);
    StepRises(w, step, passes);
    hide Next, HeldKept;
  }

  /** With pulls that do: a delivery takes the version back exactly when it was
      answered before what is held was, and validates or is nothing at all. */
  lemma ADeliveryGoesBackExactlyWhenItIsOlder(w: World, step: Step, passes: Payload -> bool)
    requires Kept(w, passes) && Enabled(w, step) && !step.Closes?
    ensures VersionOf(Next(w, step, passes).held) < VersionOf(w.held) <==>
            step.Delivers? && var came := w.pulls[step.pull].came;
              VersionOf(came) < VersionOf(w.held) && (came.Some? ==> passes(came.value.payload))
  {
    hide TasksKept, Woke;
  }

  // ---------------------------------------------------------------- bad runs

  lemma OneStepMore(worlds: seq<World>, steps: seq<Step>, passes: Payload -> bool, step: Step)
    returns (worlds': seq<World>, steps': seq<Step>, w: World)
    requires Run(worlds, steps, passes) && Enabled(worlds[|steps|], step)
    ensures w == Next(worlds[|steps|], step, passes)
    ensures worlds' == worlds + [w] && steps' == steps + [step]
    ensures Run(worlds', steps', passes) && |worlds'| == |steps'| + 1
  {
    hide Next, Enabled;
    w := Next(worlds[|steps|], step, passes);
    worlds', steps' := worlds + [w], steps + [step];
    forall i | 0 <= i < |steps'|
      ensures Enabled(worlds'[i], steps'[i]) && worlds'[i + 1] == Next(worlds'[i], steps'[i], passes)
    {
      if i < |steps| {
        assert steps'[i] == steps[i] && worlds'[i] == worlds[i] && worlds'[i + 1] == worlds[i + 1];
      }
    }
  }

  /** Wherever a run has got to with something older than a request held: the
      request's pull may fail, and then the older version serves it. */
  lemma AFailedPullServesTheOlder(
    worlds: seq<World>, steps: seq<Step>, passes: Payload -> bool, task: nat, requested: nat)
    returns (worlds': seq<World>, steps': seq<Step>)
    requires Run(worlds, steps, passes)
    requires var w := worlds[|steps|];
      task !in w.tasks && VersionOf(w.held) < requested <= |w.published|
    ensures Run(worlds', steps', passes) && worlds <= worlds' && steps <= steps'
    ensures worlds'[|steps'|].services == worlds[|steps|].services + [Service(requested, worlds[|steps|].held)]
  {
    var w := worlds[|steps|];
    var pull := w.nextPull;
    assert |worlds| == |steps| + 1;
    worlds', steps' := worlds, steps;
    hide Run;
    worlds', steps', w := OneStepMore(worlds', steps', passes, Executes(task, requested));
    worlds', steps', w := OneStepMore(worlds', steps', passes, Fails(pull));
    worlds', steps', w := OneStepMore(worlds', steps', passes, GoesOn(task));
  }

  /** Wherever a run has got to with a validating version published: two pulls,
      answered one on each side of a publish and delivered the other way about,
      take the session to the newer version and back. */
  lemma TwoPullsGoBack(worlds: seq<World>, steps: seq<Step>, passes: Payload -> bool, payload: Payload)
    returns (worlds': seq<World>, steps': seq<Step>)
    requires Run(worlds, steps, passes) && passes(payload)
    requires var published := worlds[|steps|].published; published != [] && passes(published[|published| - 1])
    ensures Run(worlds', steps', passes) && worlds <= worlds' && steps <= steps' && |steps| < |steps'|
    ensures VersionOf(worlds'[|steps'| - 1].held) == |worlds[|steps|].published| + 1
    ensures VersionOf(worlds'[|steps'|].held) == |worlds[|steps|].published|
  {
    var w := worlds[|steps|];
    var early, n := w.nextPull, |w.published|;
    assert |worlds| == |steps| + 1;
    worlds', steps' := worlds, steps;
    hide Run, Woke;
    worlds', steps', w := OneStepMore(worlds', steps', passes, Asks);
    worlds', steps', w := OneStepMore(worlds', steps', passes, CloudAnswers(early));
    worlds', steps', w := OneStepMore(worlds', steps', passes, Publishes(payload));
    worlds', steps', w := OneStepMore(worlds', steps', passes, Asks);
    worlds', steps', w := OneStepMore(worlds', steps', passes, CloudAnswers(early + 1));
    worlds', steps', w := OneStepMore(worlds', steps', passes, Delivers(early + 1));
    assert VersionOf(w.held) == n + 1 && w.pulls[early] == Answered(Some(Published(n, w.published[n - 1])));
    worlds', steps', w := OneStepMore(worlds', steps', passes, Delivers(early));
  }

  /** Wherever a run has got to with a request's own version held, or something
      newer, what is held serves it at once; with less, it waits on a pull. */
  lemma ANewerSessionServesAtOnce(
    worlds: seq<World>, steps: seq<Step>, passes: Payload -> bool, task: nat, requested: nat)
    returns (worlds': seq<World>, steps': seq<Step>)
    requires Run(worlds, steps, passes)
    requires var w := worlds[|steps|];
      task !in w.tasks && 1 <= requested && (requested <= VersionOf(w.held) || requested <= |w.published|)
    ensures Run(worlds', steps', passes) && worlds <= worlds' && steps' == steps + [Executes(task, requested)]
    ensures var before, after := worlds[|steps|], worlds'[|steps'|];
      if requested <= VersionOf(before.held) then
        after.services == before.services + [Service(requested, before.held)] && after.pulls == before.pulls
      else
        && after.services == before.services && after.held == before.held
        && task in after.tasks && after.tasks[task] == Pulling(requested, before.nextPull)
        && before.nextPull in after.pulls && after.pulls[before.nextPull] == Asked
  {
    EveryRunIsKept(worlds, steps, passes, |steps|);
    var w;
    worlds', steps', w := OneStepMore(worlds, steps, passes, Executes(task, requested));
  }

  /** What a session has been left with: the last definition delivered since the
      channel last closed that validates, or none, if none came after it. */
  function LastDelivered(worlds: seq<World>, steps: seq<Step>, passes: Payload -> bool, k: nat): Option<Published>
    requires k <= |steps| && |worlds| == |steps| + 1
  {
    if k == 0 || steps[k - 1].Closes? then None
    else if steps[k - 1].Delivers? && steps[k - 1].pull in worlds[k - 1].pulls && worlds[k - 1].pulls[steps[k - 1].pull].Answered? then
      var came := worlds[k - 1].pulls[steps[k - 1].pull].came;
      if came.None? || passes(came.value.payload) then came else LastDelivered(worlds, steps, passes, k - 1)
    else LastDelivered(worlds, steps, passes, k - 1)
  }

  /** Over every run, that is what it holds. */
  lemma {:induction false} TheHeldIsTheLastDelivered(
    worlds: seq<World>, steps: seq<Step>, passes: Payload -> bool, k: nat)
    requires Run(worlds, steps, passes) && k < |worlds|
    ensures |worlds| == |steps| + 1 && worlds[k].held == LastDelivered(worlds, steps, passes, k)
  {
    hide Woke, Brought, Latest;
    if k > 0 {
      TheHeldIsTheLastDelivered(worlds, steps, passes, k - 1);
      assert Enabled(worlds[k - 1], steps[k - 1]) && worlds[k] == Next(worlds[k - 1], steps[k - 1], passes);
    }
  }

  /** A pull that is over lets go of everyone who waited on it, and of nobody else:
      with its version, if it brought one that validates, and otherwise with none. */
  lemma APullLetsItsWaitersGo(w: World, step: Step, passes: Payload -> bool, task: nat)
    requires Enabled(w, step) && (step.Delivers? || step.Fails?) && task in w.tasks
    ensures var t := Next(w, step, passes);
      && step.pull !in t.pulls && task in t.tasks
      && if !w.tasks[task].Pulling? || w.tasks[task].pull != step.pull then t.tasks[task] == w.tasks[task]
         else
           && t.tasks[task].Pulled? && t.tasks[task].requested == w.tasks[task].requested
           && forall version ::
                t.tasks[task].brought == Some(version) <==>
                && step.Delivers? && w.pulls[step.pull].came.Some?
                && w.pulls[step.pull].came.value.version == version && passes(w.pulls[step.pull].came.value.payload)
  {
  }

  /** A channel that closes leaves nothing held, no pull under way, and everyone who
      waited to be refused. */
  lemma AClosedSessionHoldsNothing(w: World, passes: Payload -> bool, task: nat)
    requires Enabled(w, Closes) && task in w.tasks
    ensures var t := Next(w, Closes, passes);
      && t.held == None && t.pulls == map[] && t.services == w.services
      && task in t.tasks && t.tasks[task] == Pulled(w.tasks[task].requested, None)
  {
  }
}
