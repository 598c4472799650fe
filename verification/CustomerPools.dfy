/** One pool a key, and never one on a connection string that has been replaced
    (packages/engine/src/pool/customer-pool.ts,
    apps/api/src/connections/connections.service.ts:64-70). */
module CustomerPools {
  type Key = nat
  type Dsn = nat

  /** A pool, by when it was opened, for whom and on what. */
  datatype Pool = Pool(number: nat, key: Key, dsn: Dsn)

  /** `ended` are the pools that have been told to end. */
  datatype Store = Store(pools: map<Key, Pool>, generations: map<Key, nat>, made: seq<Pool>, ended: set<Pool>)

  const EMPTY := Store(map[], map[], [], {})

  function GenerationOf(s: Store, key: Key): nat {
    if key in s.generations then s.generations[key] else 0
  }

  /** Where a turn of `poolFor` gets to: the pool there is, or a read to make. */
  datatype Entry = Already(pool: Pool) | Reading(generation: nat)

  function Entering(s: Store, key: Key): Entry {
    if key in s.pools then Already(s.pools[key]) else Reading(GenerationOf(s, key))
  }

  datatype Turn = Got(pool: Pool) | Again

  /** The rest of the turn, once the connection string has been read. */
  function Resuming(s: Store, key: Key, generation: nat, dsn: Dsn): (Store, Turn) {
    if key in s.pools then (s, Got(s.pools[key]))
    else if GenerationOf(s, key) != generation then (s, Again)
    else
      var pool := Pool(|s.made|, key, dsn);
      (s.(pools := s.pools[key := pool], made := s.made + [pool]), Got(pool))
  }

  function Releasing(s: Store, key: Key): Store {
    var bumped := s.(generations := s.generations[key := GenerationOf(s, key) + 1]);
    if key !in s.pools then bumped
    else bumped.(pools := s.pools - {key}, ended := s.ended + {s.pools[key]})
  }

  /** Some of the keys with a pool released, each once. */
  function Released(s: Store, done: set<Key>): Store
    requires done <= s.pools.Keys
  {
    s.(pools := s.pools - done,
       ended := s.ended + (set k | k in done :: s.pools[k]),
       generations := map k | k in s.generations.Keys + done ::
         if k in done then GenerationOf(s, k) + 1 else GenerationOf(s, k))
  }

  function Closing(s: Store): Store {
    Released(s, s.pools.Keys)
  }

  lemma ReleasedOneMore(s: Store, done: set<Key>, key: Key)
    requires done <= s.pools.Keys && key in s.pools && key !in done
    ensures Releasing(Released(s, done), key) == Released(s, done + {key})
  {
    var before, after := Released(s, done), Released(s, done + {key});
    assert before.pools - {key} == after.pools;
    assert before.ended + {s.pools[key]} == after.ended;
    assert before.generations[key := GenerationOf(s, key) + 1] == after.generations;
  }

  lemma NoneReleased(s: Store)
    ensures Released(s, {}) == s
  {
    assert Released(s, {}).pools == s.pools;
    assert Released(s, {}).generations == s.generations;
    assert Released(s, {}).ended == s.ended;
  }

  // --------------------------------------------------------------- the class

  /** Nothing interleaves inside a method: the source awaits between `Enter` and
      `Resume`, and nowhere else that matters here. */
  class CustomerPool {
    var pools: map<Key, Pool>
    var generations: map<Key, nat>
    var made: seq<Pool>
    var ended: set<Pool>

    function State(): Store
      reads this
    {
      Store(pools, generations, made, ended)
    }

    constructor ()
      ensures State() == EMPTY
    {
      pools, generations, made, ended := map[], map[], [], {};
    }

    method Enter(key: Key) returns (entry: Entry)
      ensures entry == Entering(State(), key)
    {
      if key in pools {
        return Already(pools[key]);
      }
      return Reading(if key in generations then generations[key] else 0);
    }

    method Resume(key: Key, generation: nat, dsn: Dsn) returns (turn: Turn)
      modifies this
      ensures (State(), turn) == Resuming(old(State()), key, generation, dsn)
    {
      if key in pools {
        return Got(pools[key]);
      }
      if (if key in generations then generations[key] else 0) != generation {
        return Again;
      }
      var pool := Pool(|made|, key, dsn);
      made := made + [pool];
      pools := pools[key := pool];
      return Got(pool);
    }

    method Release(key: Key)
      modifies this
      ensures State() == Releasing(old(State()), key)
    {
      generations := generations[key := (if key in generations then generations[key] else 0) + 1];
      if key !in pools {
        return;
      }
      ended := ended + {pools[key]};
      pools := pools - {key};
    }

    method Close()
      modifies this
      ensures State() == Closing(old(State()))
    {
      hide Released, Releasing, GenerationOf;
      var keys := pools.Keys;
      ghost var before, done: set<Key> := State(), {};
      NoneReleased(before);
      while keys != {}
        invariant done !! keys && done + keys == before.pools.Keys
        invariant State() == Released(before, done)
        decreases |keys|
      {
        var key :| key in keys;
        ReleasedOneMore(before, done, key);
        Release(key);
        keys, done := keys - {key}, done + {key};
      }
      assert done == before.pools.Keys;
    }
  }

  // ------------------------------------------------------------- many callers

  /** A caller of `poolFor`: how many turns it has begun, and the generation it
      came in at. `Read` has its answer and has not yet gone on; `Refused` found
      no connection string to read. */
  datatype Caller =
    | Waiting(key: Key, generation: nat, turns: nat, first: nat)
    | Read(key: Key, generation: nat, turns: nat, first: nat, dsn: Dsn)
    | Served(key: Key, pool: Pool)
    | Refused(key: Key)
  {
    predicate InHand() {
      Waiting? || Read?
    }
  }

  /** `stored` is each key's connection string, and `unreleased` how many saves
      of it have landed and not yet let go of the pool. */
  datatype World = World(
    store: Store, callers: map<nat, Caller>, stored: map<Key, Dsn>, unreleased: map<Key, nat>)

  datatype Step =
    | Call(caller: nat, key: Key)
    | Look(caller: nat)
    | GoOn(caller: nat)
    | Save(key: Key, dsn: Dsn)
    | Forget(key: Key)
    | LetGo(key: Key)
    | Shut

  function UnreleasedOf(w: World, key: Key): nat {
    if key in w.unreleased then w.unreleased[key] else 0
  }

  predicate Enabled(w: World, step: Step) {
    match step
    case Call(caller, _) => caller !in w.callers
    case Look(caller) => caller in w.callers && w.callers[caller].Waiting?
    case GoOn(caller) => caller in w.callers && w.callers[caller].Read?
    case Save(_, _) => true
    case Forget(_) => true
    case LetGo(key) => UnreleasedOf(w, key) > 0
    case Shut => true
  }

  /** A turn: served at once, or waiting for a read. */
  function Turned(s: Store, key: Key, turns: nat, first: nat): Caller {
    match Entering(s, key)
    case Already(pool) => Served(key, pool)
    case Reading(generation) => Waiting(key, generation, turns, first)
  }

  function Next(w: World, step: Step): World
    requires Enabled(w, step)
  {
    match step
    case Call(caller, key) =>
      w.(callers := w.callers[caller := Turned(w.store, key, 1, GenerationOf(w.store, key))])
    case Look(caller) =>
      var c := w.callers[caller];
      w.(callers := w.callers[caller :=
           if c.key in w.stored then Read(c.key, c.generation, c.turns, c.first, w.stored[c.key]) else Refused(c.key)])
    case GoOn(caller) =>
      var c := w.callers[caller];
      var (store, turn) := Resuming(w.store, c.key, c.generation, c.dsn);
      w.(store := store,
         callers := w.callers[caller :=
           if turn.Got? then Served(c.key, turn.pool) else Turned(store, c.key, c.turns + 1, c.first)])
    case Save(key, dsn) =>
      w.(stored := w.stored[key := dsn], unreleased := w.unreleased[key := UnreleasedOf(w, key) + 1])
    case Forget(key) =>
      w.(stored := w.stored - {key}, unreleased := w.unreleased[key := UnreleasedOf(w, key) + 1])
    case LetGo(key) =>
      w.(store := Releasing(w.store, key), unreleased := w.unreleased[key := UnreleasedOf(w, key) - 1])
    case Shut => w.(store := Closing(w.store))
  }

  ghost predicate Run(worlds: seq<World>, steps: seq<Step>, stored: map<Key, Dsn>) {
    && |worlds| == |steps| + 1
    && worlds[0] == World(EMPTY, map[], stored, map[])
    && forall i :: 0 <= i < |steps| ==> Enabled(worlds[i], steps[i]) && worlds[i + 1] == Next(worlds[i], steps[i])
  }

  // ------------------------------------------------------------ what is kept

  /** Its own key's current connection string, unless one is yet to be let go. */
  ghost predicate Current(w: World, key: Key, dsn: Dsn) {
    UnreleasedOf(w, key) > 0 || (key in w.stored && w.stored[key] == dsn)
  }

  ghost predicate PoolsCurrent(w: World) {
    forall k :: k in w.store.pools ==> w.store.pools[k].key == k && Current(w, k, w.store.pools[k].dsn)
  }

  /** A caller that read under the generation that still stands read what is
      still stored. */
  ghost predicate ReadsCurrent(w: World) {
    forall c :: c in w.callers ==>
      && (w.callers[c].InHand() ==>
           w.callers[c].first <= w.callers[c].generation <= GenerationOf(w.store, w.callers[c].key))
      && (w.callers[c].Read? && w.callers[c].generation == GenerationOf(w.store, w.callers[c].key) ==>
           Current(w, w.callers[c].key, w.callers[c].dsn))
  }

  /** Every pool ever opened is the one filed under its key, or has been ended. */
  ghost predicate NothingLeaks(s: Store) {
    && (forall i :: 0 <= i < |s.made| ==> s.made[i].number == i)
    && (forall p :: p in s.made ==> (p.key in s.pools && s.pools[p.key] == p) || p in s.ended)
    && (forall k :: k in s.pools ==> s.pools[k] in s.made && s.pools[k] !in s.ended && s.pools[k].key == k)
    && (forall p :: p in s.ended ==> p in s.made)
  }

  /** A turn is begun once, and once more at most for each release since. */
  ghost predicate TurnsBounded(w: World) {
    forall c :: c in w.callers && w.callers[c].InHand() ==>
      w.callers[c].turns <= 1 + (w.callers[c].generation - w.callers[c].first)
  }

  ghost predicate Kept(w: World) {
    PoolsCurrent(w) && ReadsCurrent(w) && NothingLeaks(w.store) && TurnsBounded(w)
  }

  lemma ReleasingLeaksNothing(s: Store, key: Key)
    requires NothingLeaks(s)
    ensures NothingLeaks(Releasing(s, key))
  {
  }

  lemma ClosingLeaksNothing(s: Store)
    requires NothingLeaks(s)
    ensures NothingLeaks(Closing(s))
  {
    forall p | p in s.made ensures p in Closing(s).ended {
      if p.key in s.pools && s.pools[p.key] == p {
        assert p in s.pools.Values;
      }
    }
  }

  lemma CallKeeps(w: World, step: Step)
    requires Kept(w) && Enabled(w, step) && (step.Call? || step.Look? || step.Save? || step.Forget?)
    ensures Kept(Next(w, step))
  {
  }

  lemma GoOnKeeps(w: World, step: Step)
    requires Kept(w) && Enabled(w, step) && step.GoOn?
    ensures Kept(Next(w, step))
  {
    var c := w.callers[step.caller];
    ResumingFilesTheCurrent(w, step);
    NextTurnReadsCurrent(w, step);
    NextTurnIsBounded(w, step);
    hide NothingLeaks, Resuming, PoolsCurrent, ReadsCurrent, TurnsBounded;
  }

  lemma NextTurnReadsCurrent(w: World, step: Step)
    requires Kept(w) && Enabled(w, step) && step.GoOn?
    ensures ReadsCurrent(Next(w, step))
  {
    hide NothingLeaks, PoolsCurrent, TurnsBounded;
    assert Next(w, step).store.generations == w.store.generations;
  }

  lemma NextTurnIsBounded(w: World, step: Step)
    requires Kept(w) && Enabled(w, step) && step.GoOn?
    ensures TurnsBounded(Next(w, step))
  {
    hide NothingLeaks, PoolsCurrent;
    assert Next(w, step).store.generations == w.store.generations;
  }

  lemma ResumingFilesTheCurrent(w: World, step: Step)
    requires Kept(w) && Enabled(w, step) && step.GoOn?
    ensures PoolsCurrent(Next(w, step))
  {
    hide NothingLeaks, TurnsBounded;
    var c := w.callers[step.caller];
    assert c.generation == GenerationOf(w.store, c.key) ==> Current(w, c.key, c.dsn);
  }

  lemma LetGoKeeps(w: World, step: Step)
    requires Kept(w) && Enabled(w, step) && step.LetGo?
    ensures Kept(Next(w, step))
  {
    hide NothingLeaks;
    ReleasingLeaksNothing(w.store, step.key);
  }

  lemma ShutKeeps(w: World, step: Step)
    requires Kept(w) && Enabled(w, step) && step.Shut?
    ensures Kept(Next(w, step))
  {
    ClosingLeaksNothing(w.store);
    hide NothingLeaks;
    assert forall k :: GenerationOf(Closing(w.store), k) >= GenerationOf(w.store, k);
  }

  lemma {:induction false} EveryRunIsKept(worlds: seq<World>, steps: seq<Step>, stored: map<Key, Dsn>, k: nat)
    requires Run(worlds, steps, stored) && k < |worlds|
    ensures Kept(worlds[k])
  {
    if k > 0 {
      EveryRunIsKept(worlds, steps, stored, k - 1);
      var w, step := worlds[k - 1], steps[k - 1];
      hide Kept, Next;
      match step {
        case GoOn(_) => GoOnKeeps(w, step);
        case LetGo(_) => LetGoKeeps(w, step);
        case Shut => ShutKeeps(w, step);
        case _ => CallKeeps(w, step);
      }
    } else {
      assert worlds[0].store == EMPTY;
    }
  }

  /** A pool never outlives its connection string. Under every interleaving: when
      no save of a key awaits its release, the pool filed under it was opened on
      what is stored; no pool is lost track of; and a caller has begun at most
      one turn more than there were releases of its key since it called. */
  lemma NoPoolOutlivesItsDsn(worlds: seq<World>, steps: seq<Step>, stored: map<Key, Dsn>, k: nat, key: Key)
    requires Run(worlds, steps, stored) && k < |worlds|
    ensures var w := worlds[k];
      && (key in w.store.pools && UnreleasedOf(w, key) == 0 ==>
           key in w.stored && w.store.pools[key].dsn == w.stored[key])
      && (forall p :: p in w.store.made ==> (p.key in w.store.pools && w.store.pools[p.key] == p) || p in w.store.ended)
      && (forall c :: c in w.callers && w.callers[c].InHand() ==>
           w.callers[c].turns <= 1 + (GenerationOf(w.store, w.callers[c].key) - w.callers[c].first))
  {
    EveryRunIsKept(worlds, steps, stored, k);
  }

  // ----------------------------------------------------------------- closing

  ghost predicate InFlight(w: World) {
    exists c :: c in w.callers && w.callers[c].InHand()
  }

  /** With nobody in flight, and nobody calling, a closed store stays empty. */
  lemma {:induction false} ClosedStaysEmpty(worlds: seq<World>, steps: seq<Step>, k: nat)
    requires |worlds| == |steps| + 1 && k < |worlds|
    requires forall i :: 0 <= i < |steps| ==> Enabled(worlds[i], steps[i]) && worlds[i + 1] == Next(worlds[i], steps[i])
    requires forall i :: 0 <= i < |steps| ==> !steps[i].Call?
    requires worlds[0].store.pools == map[] && !InFlight(worlds[0])
    ensures worlds[k].store.pools == map[] && !InFlight(worlds[k])
  {
    if k > 0 {
      ClosedStaysEmpty(worlds, steps, k - 1);
    }
  }

  /** A run on from some world, in which nobody new calls. */
  ghost predicate GoesOn(worlds: seq<World>, steps: seq<Step>) {
    && |worlds| == |steps| + 1
    && Kept(worlds[|steps|])
    && forall i :: 0 <= i < |steps| ==>
         !steps[i].Call? && Enabled(worlds[i], steps[i]) && worlds[i + 1] == Next(worlds[i], steps[i])
  }

  /** A caller in flight for a key. */
  ghost predicate Flying(w: World, caller: nat, key: Key) {
    caller in w.callers && w.callers[caller].InHand() && w.callers[caller].key == key
  }

  ghost predicate Filed(s: Store, key: Key) {
    key in s.pools && s.pools[key] !in s.ended
  }

  /** One turn to its end, with a connection string saved if there is none: a pool
      is filed, or the next turn waits on the
      generation that stands. */
  lemma OneTurn(worlds: seq<World>, steps: seq<Step>, caller: nat, key: Key)
    returns (worlds': seq<World>, steps': seq<Step>)
    requires GoesOn(worlds, steps) && Flying(worlds[|steps|], caller, key)
    ensures GoesOn(worlds', steps') && worlds'[0] == worlds[0]
    ensures var was, now := worlds[|steps|], worlds'[|steps'|];
      && (Filed(now.store, key) ||
          (Flying(now, caller, key) && now.callers[caller].generation == GenerationOf(now.store, key)))
      && (was.callers[caller].generation == GenerationOf(was.store, key) ==> Filed(now.store, key))
  {
    hide Kept;
    worlds', steps' := worlds, steps;
    if worlds'[|steps'|].callers[caller].Waiting? {
      if key !in worlds'[|steps'|].stored {
        worlds', steps' := More(worlds', steps', Save(key, 0));
      }
      worlds', steps' := More(worlds', steps', Look(caller));
    }
    worlds', steps' := More(worlds', steps', GoOn(caller));
    var now := worlds'[|steps'|];
    FiledPoolsStand(now, key);
  }

  lemma FiledPoolsStand(w: World, key: Key)
    requires Kept(w)
    ensures key in w.store.pools ==> Filed(w.store, key)
  {
  }

  /** With anybody in flight at the close, it does not: the caller goes on to
      file a pool that nothing is left to end (customer-pool.ts:106-108). */
  lemma ACallInFlightFilesAfterTheClose(w: World, caller: nat, key: Key)
    returns (worlds: seq<World>, steps: seq<Step>)
    requires Kept(w) && Flying(w, caller, key)
    ensures GoesOn(worlds, steps) && worlds[0] == Next(w, Shut)
    ensures worlds[0].store.pools == map[]
    ensures Filed(worlds[|steps|].store, key)
  {
    ShutKeeps(w, Shut);
    worlds, steps := [Next(w, Shut)], [];
    assert Flying(worlds[|steps|], caller, key) && worlds[0].store.pools == map[];
    hide Kept, Next;
    worlds, steps := OneTurn(worlds, steps, caller, key);
    if !Filed(worlds[|steps|].store, key) {
      worlds, steps := OneTurn(worlds, steps, caller, key);
    }
  }

  /** A run after a close, nobody new calling, at whose end some pool is filed. */
  ghost predicate FilesLater(w: World, worlds: seq<World>, steps: seq<Step>) {
    GoesOn(worlds, steps) && worlds[0] == Next(w, Shut) && worlds[|steps|].store.pools != map[]
  }

  /** A closed store may come to hold a pool again exactly when somebody was in
      flight at the close. */
  lemma FiledAfterACloseExactlyWhenInFlight(w: World)
    requires Kept(w)
    ensures (exists worlds, steps :: FilesLater(w, worlds, steps)) <==> InFlight(w)
  {
    if caller :| caller in w.callers && w.callers[caller].InHand() {
      var worlds, steps := ACallInFlightFilesAfterTheClose(w, caller, w.callers[caller].key);
      hide Kept;
      assert FilesLater(w, worlds, steps);
    } else if worlds: seq<World>, steps: seq<Step> :| FilesLater(w, worlds, steps) {
      hide Kept;
      assert worlds[0].store.pools == map[] && worlds[0].callers == w.callers;
      assert !InFlight(worlds[0]);
      ClosedStaysEmpty(worlds, steps, |steps|);
    }
  }

  lemma More(worlds: seq<World>, steps: seq<Step>, step: Step) returns (worlds': seq<World>, steps': seq<Step>)
    requires GoesOn(worlds, steps)
    requires Enabled(worlds[|steps|], step) && !step.Call?
    ensures GoesOn(worlds', steps') && worlds'[0] == worlds[0]
    ensures worlds'[|steps'|] == Next(worlds[|steps|], step)
  {
    hide Next, Enabled, Kept;
    var w := worlds[|steps|];
    worlds', steps' := worlds + [Next(w, step)], steps + [step];
    match step {
      case GoOn(_) => GoOnKeeps(w, step);
      case LetGo(_) => LetGoKeeps(w, step);
      case Shut => ShutKeeps(w, step);
      case _ => CallKeeps(w, step);
    }
    forall i | 0 <= i < |steps'|
      ensures !steps'[i].Call? && Enabled(worlds'[i], steps'[i]) && worlds'[i + 1] == Next(worlds'[i], steps'[i])
    {
      if i < |steps| {
        assert steps'[i] == steps[i] && worlds'[i] == worlds[i] && worlds'[i + 1] == worlds[i + 1];
      }
    }
  }

  // ---------------------------------------------------------- a call to its end

  /** A call nothing comes between: served at once with the pool there is, and
      otherwise with a new one on the stored string, which is then the one filed;
      it is turned away exactly when no string is stored. */
  lemma ACallIsServed(w: World, caller: nat, key: Key)
    requires caller !in w.callers
    ensures var a := Next(w, Call(caller, key));
      if key in w.store.pools then a == w.(callers := a.callers) && a.callers[caller] == Served(key, w.store.pools[key])
      else
        Enabled(a, Look(caller)) &&
        var b := Next(a, Look(caller));
        if key !in w.stored then b.callers[caller] == Refused(key) && b.store == w.store
        else
          Enabled(b, GoOn(caller)) &&
          var c, pool := Next(b, GoOn(caller)), Pool(|w.store.made|, key, w.stored[key]);
          && c.callers[caller] == Served(key, pool)
          && c.store.pools == w.store.pools[key := pool] && c.store.made == w.store.made + [pool]
  {
  }

  /** How often a caller has gone on so far. */
  function WentOn(steps: seq<Step>, caller: nat, k: nat): nat
    requires k <= |steps|
  {
    if k == 0 then 0 else WentOn(steps, caller, k - 1) + if steps[k - 1] == GoOn(caller) then 1 else 0
  }

  /** Over every run, the turns a caller is counted are those it has begun: its
      first, and one for each time it went on and was not served. */
  lemma {:induction false} TurnsAreCounted(
    worlds: seq<World>, steps: seq<Step>, stored: map<Key, Dsn>, caller: nat, k: nat)
    requires Run(worlds, steps, stored) && k < |worlds|
    ensures |worlds| == |steps| + 1
    ensures caller !in worlds[k].callers ==> WentOn(steps, caller, k) == 0
    ensures caller in worlds[k].callers && worlds[k].callers[caller].InHand() ==>
              worlds[k].callers[caller].turns == 1 + WentOn(steps, caller, k)
  {
    if k > 0 {
      TurnsAreCounted(worlds, steps, stored, caller, k - 1);
      assert Enabled(worlds[k - 1], steps[k - 1]) && worlds[k] == Next(worlds[k - 1], steps[k - 1]);
      hide Run, Releasing, Released, GenerationOf;
    }
  }
}
