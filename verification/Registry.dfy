/** The channels that are open, by project: the newest accepted of each
    (apps/api/src/connector-sockets/connector-sockets.service.ts). */
module Registry {
  import opened Frames

  type Project = nat
  type ChannelId = nat

  /** A channel this process accepted: whose it is, when it last said anything,
      and whether it has been closed from this end or the other. */
  datatype Live = Live(project: Project, seenAt: nat, closed: bool)

  /** `channels` are the registered ones; `lives` every one ever accepted, in the
      order they were. */
  datatype State = State(channels: map<Project, ChannelId>, lives: seq<Live>)

  const NOBODY := State(map[], [])

  predicate Accepted(s: State, channel: ChannelId) {
    channel < |s.lives|
  }

  function Closed(lives: seq<Live>, channel: ChannelId): seq<Live>
    requires channel < |lives|
  {
    lives[channel := lives[channel].(closed := true)]
  }

  ghost predicate WellFormed(s: State) {
    forall p :: p in s.channels ==> s.channels[p] < |s.lives| && s.lives[s.channels[p]].project == p
  }

  /** The newest wins: the one it replaces is closed, and it is registered. */
  function Accepting(s: State, project: Project, now: nat): State
    requires WellFormed(s)
  {
    var lives := if project in s.channels then Closed(s.lives, s.channels[project]) else s.lives;
    State(s.channels[project := |lives|], lives + [Live(project, now, false)])
  }

  /** A socket went away. Only the channel that is registered is unregistered. */
  function Dropping(s: State, channel: ChannelId): State
    requires Accepted(s, channel)
  {
    var project := s.lives[channel].project;
    State(
      if project in s.channels && s.channels[project] == channel then s.channels - {project} else s.channels,
      Closed(s.lives, channel))
  }

  function Revoking(s: State, project: Project): State
    requires WellFormed(s)
  {
    if project in s.channels then s.(lives := Closed(s.lives, s.channels[project])) else s
  }

  function Hearing(s: State, channel: ChannelId, now: nat): State
    requires Accepted(s, channel)
  {
    s.(lives := s.lives[channel := s.lives[channel].(seenAt := now)])
  }

  predicate Silent(l: Live, now: nat) {
    l.seenAt <= now - HEARTBEAT_TIMEOUT_MS
  }

  predicate Registered(s: State, channel: ChannelId) {
    Accepted(s, channel) && s.lives[channel].project in s.channels && s.channels[s.lives[channel].project] == channel
  }

  /** Of some projects, the registered channels that have been silent too long. */
  function Swept(s: State, now: nat, projects: set<Project>): seq<Live> {
    seq(|s.lives|, i requires 0 <= i < |s.lives| =>
      if s.lives[i].project in projects && Registered(s, i) && Silent(s.lives[i], now)
      then s.lives[i].(closed := true) else s.lives[i])
  }

  function Sweeping(s: State, now: nat): State {
    s.(lives := Swept(s, now, s.channels.Keys))
  }

  // --------------------------------------------------------------- the class

  class ConnectorSockets {
    var channels: map<Project, ChannelId>
    var lives: seq<Live>

    function Value(): State
      reads this
    {
      State(channels, lives)
    }

    constructor ()
      ensures Value() == NOBODY
    {
      channels, lives := map[], [];
    }

    method CloseChannel(channel: ChannelId)
      requires channel < |lives|
      modifies this`lives
      ensures lives == Closed(old(lives), channel)
    {
      lives := lives[channel := lives[channel].(closed := true)];
    }

    method Upgrade(project: Project, now: nat)
      requires WellFormed(Value())
      modifies this
      ensures Value() == Accepting(old(Value()), project, now)
    {
      if project in channels {
        CloseChannel(channels[project]);
      }
      channels := channels[project := |lives|];
      lives := lives + [Live(project, now, false)];
    }

    method SocketClosed(channel: ChannelId)
      requires Accepted(Value(), channel)
      modifies this
      ensures Value() == Dropping(old(Value()), channel)
    {
      CloseChannel(channel);
      var project := lives[channel].project;
      if project !in channels || channels[project] != channel {
        return;
      }
      channels := channels - {project};
    }

    method Revoke(project: Project)
      requires WellFormed(Value())
      modifies this
      ensures Value() == Revoking(old(Value()), project)
    {
      if project in channels {
        CloseChannel(channels[project]);
      }
    }

    method DropTheSilent(now: nat)
      requires WellFormed(Value())
      modifies this
      ensures Value() == Sweeping(old(Value()), now)
    {
      var left := channels.Keys;
      ghost var s := Value();
      while left != {}
        modifies this`lives
        invariant left <= channels.Keys
        invariant lives == Swept(s, now, s.channels.Keys - left)
        decreases |left|
      {
        var project :| project in left;
        var channel := channels[project];
        if !(lives[channel].seenAt > now - HEARTBEAT_TIMEOUT_MS) {
          CloseChannel(channel);
        }
        left := left - {project};
      }
      assert s.channels.Keys - {} == s.channels.Keys;
    }
  }

  // -------------------------------------------------------------------- runs

  /** `sweptAt` is when the silent were last looked for. */
  datatype World = World(state: State, clock: nat, sweptAt: nat)

  datatype Step =
    | Connects(project: Project)
    | Drops(channel: ChannelId)
    | Revokes(project: Project)
    | Says(channel: ChannelId)
    | Passes(ms: nat)
    | Sweeps

  /** The timer goes off on time: the clock does not pass it by. */
  predicate Enabled(w: World, step: Step) {
    match step
    case Drops(channel) => Accepted(w.state, channel)
    case Says(channel) => Accepted(w.state, channel)
    case Passes(ms) => w.clock + ms <= w.sweptAt + HEARTBEAT_INTERVAL_MS
    case Sweeps => w.clock == w.sweptAt + HEARTBEAT_INTERVAL_MS
    case _ => true
  }

  function Next(w: World, step: Step): World
    requires WellFormed(w.state) && Enabled(w, step)
  {
    match step
    case Connects(project) => w.(state := Accepting(w.state, project, w.clock))
    case Drops(channel) => w.(state := Dropping(w.state, channel))
    case Revokes(project) => w.(state := Revoking(w.state, project))
    case Says(channel) => w.(state := Hearing(w.state, channel, w.clock))
    case Passes(ms) => w.(clock := w.clock + ms)
    case Sweeps => w.(state := Sweeping(w.state, w.clock), sweptAt := w.clock)
  }

  ghost predicate Run(worlds: seq<World>, steps: seq<Step>, started: nat) {
    && |worlds| == |steps| + 1
    && worlds[0] == World(NOBODY, started, started)
    && forall i :: 0 <= i < |steps| ==>
         WellFormed(worlds[i].state) && Enabled(worlds[i], steps[i]) && worlds[i + 1] == Next(worlds[i], steps[i])
  }

  /** The newest channel a project has had. */
  ghost predicate Newest(s: State, channel: ChannelId) {
    Accepted(s, channel) &&
    forall other :: channel < other < |s.lives| ==> s.lives[other].project != s.lives[channel].project
  }

  ghost predicate Kept(w: World) {
    && WellFormed(w.state)
    && w.sweptAt <= w.clock <= w.sweptAt + HEARTBEAT_INTERVAL_MS
    && (forall p :: p in w.state.channels ==> Newest(w.state, w.state.channels[p]))
    && (forall c :: 0 <= c < |w.state.lives| ==> w.state.lives[c].seenAt <= w.clock)
    && (forall c :: 0 <= c < |w.state.lives| && !w.state.lives[c].closed ==> Registered(w.state, c))
    && (forall c :: 0 <= c < |w.state.lives| && !w.state.lives[c].closed ==> !Silent(w.state.lives[c], w.sweptAt))
  }

  lemma SweepKeeps(w: World)
    requires Kept(w) && Enabled(w, Sweeps)
    ensures Kept(Next(w, Sweeps))
  {
  }

  lemma ConnectKeeps(w: World, step: Step)
    requires Kept(w) && Enabled(w, step) && step.Connects?
    ensures Kept(Next(w, step))
  {
    var s, t := w.state, Next(w, step).state;
    assert |t.lives| == |s.lives| + 1 && t.lives[|s.lives|] == Live(step.project, w.clock, false);
    forall c | 0 <= c < |s.lives|
      ensures t.lives[c].project == s.lives[c].project && t.lives[c].seenAt == s.lives[c].seenAt
      ensures !t.lives[c].closed ==> !s.lives[c].closed
      ensures !t.lives[c].closed && Registered(s, c) ==> s.lives[c].project != step.project
    {
    }
    hide Accepting;
    assert t.channels == s.channels[step.project := |s.lives|];
    forall p | p in t.channels ensures Newest(t, t.channels[p]) {
      if p != step.project {
        assert Newest(s, s.channels[p]);
      }
    }
    assert WellFormed(t);
    forall c | 0 <= c < |t.lives| && !t.lives[c].closed ensures Registered(t, c) {
      assert c == |s.lives| || Registered(s, c);
    }
  }

  /** One channel closes or says something, and stays where it is. */
  lemma OneMoves(w: World, step: Step, channel: ChannelId)
    requires Kept(w) && Enabled(w, step) && Accepted(w.state, channel)
    requires (step.Says? && step.channel == channel) ||
             (step.Revokes? && step.project in w.state.channels && w.state.channels[step.project] == channel)
    ensures Kept(Next(w, step))
  {
    var s, t := w.state, Next(w, step).state;
    assert |t.lives| == |s.lives| && t.channels == s.channels;
    assert forall c :: 0 <= c < |s.lives| && c != channel ==> t.lives[c] == s.lives[c];
    assert t.lives[channel].project == s.lives[channel].project;
  }

  lemma DropKeeps(w: World, step: Step)
    requires Kept(w) && Enabled(w, step) && step.Drops?
    ensures Kept(Next(w, step))
  {
    var s, t := w.state, Next(w, step).state;
    assert |t.lives| == |s.lives|;
    assert forall c :: 0 <= c < |s.lives| && c != step.channel ==> t.lives[c] == s.lives[c];
    assert t.lives[step.channel].project == s.lives[step.channel].project && t.lives[step.channel].closed;
    assert forall p :: p in t.channels ==> p in s.channels && t.channels[p] == s.channels[p];
  }

  lemma StepKeeps(w: World, step: Step)
    requires Kept(w) && Enabled(w, step)
    ensures Kept(Next(w, step))
  {
    match step {
      case Connects(_) => ConnectKeeps(w, step);
      case Drops(_) => DropKeeps(w, step);
      case Says(channel) => OneMoves(w, step, channel);
      case Revokes(project) =>
        if project in w.state.channels {
          OneMoves(w, step, w.state.channels[project]);
        }
      case Sweeps => SweepKeeps(w);
      case Passes(_) =>
    }
  }

  /** At every moment of every run: a project has at most one registered channel,
      always the newest it was accepted on; whatever is open is registered; and
      what is open has been heard from in the last minute. */
  lemma {:induction false} TheNewestIsRegistered(worlds: seq<World>, steps: seq<Step>, started: nat, k: nat)
    requires Run(worlds, steps, started) && k < |worlds|
    ensures Kept(worlds[k])
    ensures forall c :: 0 <= c < |worlds[k].state.lives| && !worlds[k].state.lives[c].closed ==>
      worlds[k].clock < worlds[k].state.lives[c].seenAt + 60_000
  {
    if k > 0 {
      hide Kept, Next;
      TheNewestIsRegistered(worlds, steps, started, k - 1);
      StepKeeps(worlds[k - 1], steps[k - 1]);
    }
  }

  /** A replaced or revoked channel's own close never evicts its replacement. */
  lemma ACloseEvictsOnlyItself(s: State, channel: ChannelId)
    requires WellFormed(s) && Accepted(s, channel)
    ensures forall p :: p in s.channels && s.channels[p] != channel ==>
      p in Dropping(s, channel).channels && Dropping(s, channel).channels[p] == s.channels[p]
    ensures forall p :: p in s.channels && s.channels[p] == channel ==> p !in Dropping(s, channel).channels
  {
  }

  /** A sweep closes a channel exactly when it is registered and has said nothing
      for 45 s: one heard from since is never swept. */
  lemma OnlyTheSilentAreSwept(s: State, now: nat, channel: ChannelId)
    requires Accepted(s, channel) && !s.lives[channel].closed
    ensures Sweeping(s, now).lives[channel].closed <==>
            Registered(s, channel) && now >= s.lives[channel].seenAt + 45_000
    ensures Sweeping(s, now).channels == s.channels
  {
  }

  /** Over every run: once a token is revoked no channel of its project is open, and
      no other project's is touched. */
  lemma ARevokedProjectIsCutOff(
    worlds: seq<World>, steps: seq<Step>, started: nat, k: nat, project: Project, channel: ChannelId)
    requires Run(worlds, steps, started) && k < |steps| && steps[k] == Revokes(project)
    requires channel < |worlds[k].state.lives|
    ensures var s, t := worlds[k].state, worlds[k + 1].state;
      && |t.lives| == |s.lives| && t.channels == s.channels
      && (if s.lives[channel].project == project then t.lives[channel].closed
          else t.lives[channel] == s.lives[channel])
  {
    TheNewestIsRegistered(worlds, steps, started, k);
    assert WellFormed(worlds[k].state) && Enabled(worlds[k], steps[k]) && worlds[k + 1] == Next(worlds[k], steps[k]);
    var s := worlds[k].state;
    if !s.lives[channel].closed {
      assert Registered(s, channel);
    }
  }
}
