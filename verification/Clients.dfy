/** The connector's end: what it dials, what it waits for, how long it waits to
    dial again, and how it ends (packages/cli/src/connector/client.ts). */
module Clients {
  import opened Outcomes
  import opened Frames

  /** A socket of ours, as the network has it. */
  datatype Phase = Connecting | Open | Gone

  /** Why `run` came back. */
  datatype Ending = Stopped | TurnedAway

  const FIRST_RETRY_MS := 1_000
  const LONGEST_RETRY_MS := 30_000

  const REVOKED := 4001
  const REPLACED := 4002
  const UNSUPPORTED_DATA := 1003

  /** `sockets` are those dialled so far; the last is the one held. `beat` and
      `retry` are the timers held, `beats` and `retries` those running. */
  datatype Client = Client(
    pending: map<nat, Question>,
    deadlines: set<nat>,
    nextId: nat,
    sockets: seq<Phase>,
    retryIn: nat,
    beat: Option<nat>,
    beats: set<nat>,
    retry: Option<nat>,
    retries: set<nat>,
    nextTimer: nat,
    stopping: bool,
    endings: seq<Ending>)
  {
    predicate Connected() {
      sockets != [] && sockets[|sockets| - 1] == Open
    }
  }

  /** What a step leaves, and what it sent on the socket it holds. */
  datatype Step = Step(client: Client, sent: seq<ConnectorFrame>)

  const IDLE := Client(map[], {}, 1, [], FIRST_RETRY_MS, None, {}, None, {}, 0, false, [])

  // -------------------------------------------------------------- the backoff

  /** `Math.round`: halves go up. */
  function Rounded(x: real): int {
    (x + 0.5).Floor
  }

  /** Doubling with a little noise, drawn from 0 up to but not including 1. */
  function Backoff(retryIn: nat, noise: real): nat
    requires 0.0 <= noise < 1.0
  {
    var next := Rounded(retryIn as real * (1.5 + noise));
    assert retryIn as real * (1.5 + noise) >= 0.0;
    if next < LONGEST_RETRY_MS then next else LONGEST_RETRY_MS
  }

  // ------------------------------------------------------------------- steps

  function Held(timer: Option<nat>): set<nat> {
    if timer.Some? then {timer.value} else {}
  }

  function Sending(c: Client, frame: ConnectorFrame): Step {
    Step(c, if c.Connected() then [frame] else [])
  }

  function Dialling(c: Client): Client {
    c.(sockets := c.sockets + [Connecting])
  }

  function Asking(c: Client, question: Question): Step {
    Sending(
      c.(pending := c.pending[c.nextId := question], deadlines := c.deadlines + {c.nextId}, nextId := c.nextId + 1),
      Ask(c.nextId, question))
  }

  function Opening(c: Client, socket: nat): Step
    requires socket < |c.sockets|
  {
    Asking(
      c.(sockets := c.sockets[socket := Open], beat := Some(c.nextTimer), beats := c.beats + {c.nextTimer},
         nextTimer := c.nextTimer + 1),
      OpenSession)
  }

  /** `opens` is whether a session's answer turned out to open one. */
  function Answering(c: Client, id: nat, opens: bool): Client {
    if id !in c.pending then c
    else
      c.(pending := c.pending - {id}, deadlines := c.deadlines - {id},
         retryIn := if c.pending[id] == OpenSession && opens then FIRST_RETRY_MS else c.retryIn)
  }

  function Expiring(c: Client, id: nat): Client {
    c.(pending := c.pending - {id}, deadlines := c.deadlines - {id})
  }

  function Torn(c: Client): Client {
    c.(beats := c.beats - Held(c.beat), retries := c.retries - Held(c.retry), beat := None, retry := None,
       pending := map[], deadlines := c.deadlines - c.pending.Keys)
  }

  function Ended(c: Client, ending: Ending): Client {
    if c.stopping then c
    else
      var torn := Torn(c.(stopping := true));
      torn.(endings := torn.endings + [ending])
  }

  predicate Fatal(code: nat) {
    code == REVOKED || code == REPLACED || code == UNSUPPORTED_DATA
  }

  function Closing(c: Client, socket: nat, code: nat, noise: real): Client
    requires socket < |c.sockets| && 0.0 <= noise < 1.0
  {
    var torn := Torn(c.(sockets := c.sockets[socket := Gone]));
    if torn.stopping then torn
    else if Fatal(code) then Ended(torn, TurnedAway)
    else
      torn.(retry := Some(torn.nextTimer), retries := torn.retries + {torn.nextTimer},
            nextTimer := torn.nextTimer + 1, retryIn := Backoff(torn.retryIn, noise))
  }

  /** A timer that has gone off is still held, but no longer running. */
  function Retrying(c: Client, timer: nat): Client {
    Dialling(c.(retries := c.retries - {timer}))
  }

  // --------------------------------------------------------------- the class

  class ConnectorClient {
    var pending: map<nat, Question>
    var deadlines: set<nat>
    var nextId: nat
    var sockets: seq<Phase>
    var retryIn: nat
    var beat: Option<nat>
    var beats: set<nat>
    var retry: Option<nat>
    var retries: set<nat>
    var nextTimer: nat
    var stopping: bool
    var endings: seq<Ending>

    function State(): Client
      reads this
    {
      Client(
        pending, deadlines, nextId, sockets, retryIn, beat, beats, retry, retries, nextTimer, stopping, endings)
    }

    constructor ()
      ensures State() == IDLE
    {
      pending, deadlines, nextId, sockets, retryIn := map[], {}, 1, [], FIRST_RETRY_MS;
      beat, beats, retry, retries, nextTimer, stopping, endings := None, {}, None, {}, 0, false, [];
    }

    method Dial()
      modifies this
      ensures State() == Dialling(old(State()))
    {
      sockets := sockets + [Connecting];
    }

    method Send(frame: ConnectorFrame) returns (sent: seq<ConnectorFrame>)
      ensures Step(State(), sent) == Sending(State(), frame)
    {
      if sockets == [] || sockets[|sockets| - 1] != Open {
        return [];
      }
      return [frame];
    }

    method AskCloud(question: Question) returns (sent: seq<ConnectorFrame>)
      modifies this
      ensures Step(State(), sent) == Asking(old(State()), question)
    {
      var id := nextId;
      nextId := nextId + 1;
      deadlines := deadlines + {id};
      pending := pending[id := question];
      sent := Send(Ask(id, question));
    }

    method Opened(socket: nat) returns (sent: seq<ConnectorFrame>)
      requires socket < |sockets|
      modifies this
      ensures Step(State(), sent) == Opening(old(State()), socket)
    {
      sockets := sockets[socket := Open];
      beat, beats, nextTimer := Some(nextTimer), beats + {nextTimer}, nextTimer + 1;
      sent := AskCloud(OpenSession);
    }

    method ReceiveAnswer(id: nat, opens: bool)
      modifies this
      ensures State() == Answering(old(State()), id, opens)
    {
      if id !in pending {
        return;
      }
      var question := pending[id];
      pending := pending - {id};
      deadlines := deadlines - {id};
      if question == OpenSession && opens {
        retryIn := FIRST_RETRY_MS;
      }
    }

    method Expire(id: nat)
      modifies this
      ensures State() == Expiring(old(State()), id)
    {
      deadlines := deadlines - {id};
      pending := pending - {id};
    }

    method Teardown()
      modifies this
      ensures State() == Torn(old(State()))
    {
      if beat.Some? {
        beats := beats - {beat.value};
      }
      if retry.Some? {
        retries := retries - {retry.value};
      }
      beat, retry := None, None;
      FailTheWaiting();
      pending := map[];
    }

    method FailTheWaiting()
      modifies this`deadlines
      ensures deadlines == old(deadlines) - pending.Keys
    {
      var waiting := pending.Keys;
      while waiting != {}
        modifies this`deadlines
        invariant waiting <= pending.Keys
        invariant deadlines == old(deadlines) - (pending.Keys - waiting)
        decreases |waiting|
      {
        var id :| id in waiting;
        deadlines := deadlines - {id};
        waiting := waiting - {id};
      }
    }

    method End(ending: Ending)
      modifies this
      ensures State() == Ended(old(State()), ending)
    {
      if stopping {
        return;
      }
      stopping := true;
      Teardown();
      endings := endings + [ending];
    }

    method Closed(socket: nat, code: nat, noise: real)
      requires socket < |sockets| && 0.0 <= noise < 1.0
      modifies this
      ensures State() == Closing(old(State()), socket, code, noise)
    {
      sockets := sockets[socket := Gone];
      Teardown();
      if stopping {
        return;
      }
      if Fatal(code) {
        End(TurnedAway);
        return;
      }
      retry, retries, nextTimer := Some(nextTimer), retries + {nextTimer}, nextTimer + 1;
      retryIn := Backoff(retryIn, noise);
    }

    method RetryFired(timer: nat)
      modifies this
      ensures State() == Retrying(old(State()), timer)
    {
      retries := retries - {timer};
      Dial();
    }
  }

  // -------------------------------------------------------------------- runs

  datatype Event =
    | Opens(socket: nat)
    | Pulls
    | Hears(id: nat, opens: bool)
    | AskExpires(id: nat)
    | Closes(socket: nat, code: nat, noise: real)
    | HandshakeRefused
    | RetryFires(timer: nat)
    | StopCalled

  /** A socket opens once and closes once, and a timer goes off while it runs. */
  predicate Possible(c: Client, e: Event) {
    match e
    case Opens(s) => s < |c.sockets| && c.sockets[s] == Connecting
    case AskExpires(id) => id in c.deadlines
    case Closes(s, _, noise) => s < |c.sockets| && c.sockets[s] != Gone && 0.0 <= noise < 1.0
    case RetryFires(timer) => timer in c.retries
    case _ => true
  }

  function Next(c: Client, e: Event): Client
    requires Possible(c, e)
  {
    match e
    case Opens(s) => Opening(c, s).client
    case Pulls => Asking(c, PullDefinition).client
    case Hears(id, opens) => Answering(c, id, opens)
    case AskExpires(id) => Expiring(c, id)
    case Closes(s, code, noise) => Closing(c, s, code, noise)
    case HandshakeRefused => Ended(c, TurnedAway)
    case RetryFires(timer) => Retrying(c, timer)
    case StopCalled => Ended(c, Stopped)
  }

  /** `run` dials, and then things happen. */
  ghost predicate Run(clients: seq<Client>, events: seq<Event>) {
    && |clients| == |events| + 1
    && clients[0] == Dialling(IDLE)
    && forall i :: 0 <= i < |events| ==> Possible(clients[i], events[i]) && clients[i + 1] == Next(clients[i], events[i])
  }

  /** No timer runs that is not held, no socket lives beside the one held, and
      a client that is stopping has come back once and dials no more. */
  ghost predicate Orderly(c: Client) {
    && c.sockets != []
    && (forall i :: 0 <= i < |c.sockets| - 1 ==> c.sockets[i] == Gone)
    && (forall t :: t in c.retries ==> c.retry == Some(t))
    && (forall t :: t in c.beats ==> c.beat == Some(t))
    && (c.retries != {} ==> c.sockets[|c.sockets| - 1] == Gone)
    && (c.beats != {} ==> c.sockets[|c.sockets| - 1] == Open)
    && c.deadlines == c.pending.Keys
    && (c.stopping ==> c.retries == {})
    && |c.endings| == (if c.stopping then 1 else 0)
  }

  lemma OrderlyStays(c: Client, e: Event)
    requires Orderly(c) && Possible(c, e)
    ensures Orderly(Next(c, e))
  {
    hide Backoff;
  }

  /** At every moment of every run: at most one retry is armed, and only while no
      socket lives; at most one heartbeat; every question waits with its deadline
      running; and `run` has come back once if it is stopping, and otherwise not. */
  lemma {:induction false} RunsAreOrderly(clients: seq<Client>, events: seq<Event>, k: nat)
    requires Run(clients, events) && k < |clients|
    ensures Orderly(clients[k])
    ensures |clients[k].retries| <= 1 && |clients[k].beats| <= 1
    ensures |clients[k].endings| <= 1
  {
    if k > 0 {
      RunsAreOrderly(clients, events, k - 1);
      OrderlyStays(clients[k - 1], events[k - 1]);
    }
    AtMostOne(clients[k].retries, clients[k].retry);
    AtMostOne(clients[k].beats, clients[k].beat);
  }

  lemma AtMostOne(running: set<nat>, held: Option<nat>)
    requires forall t :: t in running ==> held == Some(t)
    ensures |running| <= 1
  {
    if held.Some? && running != {} {
      assert running == {held.value};
    }
  }

  lemma TheEndStays(c: Client, e: Event)
    requires Orderly(c) && Possible(c, e) && c.stopping
    ensures Next(c, e).stopping && Next(c, e).endings == c.endings && |Next(c, e).sockets| == |c.sockets|
  {
    hide Backoff;
  }

  /** Once `run` has come back it stays so: nothing is dialled, and nothing else
      is ever answered. */
  lemma {:induction false} NothingFollowsTheEnd(clients: seq<Client>, events: seq<Event>, j: nat, k: nat)
    requires Run(clients, events) && j <= k < |clients| && clients[j].stopping
    ensures clients[k].stopping && clients[k].endings == clients[j].endings
    ensures |clients[k].sockets| == |clients[j].sockets|
  {
    hide Next, Possible, Orderly;
    if j < k {
      NothingFollowsTheEnd(clients, events, j, k - 1);
      RunsAreOrderly(clients, events, k - 1);
      TheEndStays(clients[k - 1], events[k - 1]);
    }
  }

  /** What lets go of a question: its answer, its deadline, and the end of the socket
      or of the run. */
  predicate LetsGo(c: Client, e: Event, id: nat) {
    match e
    case Hears(answered, _) => answered == id
    case AskExpires(expired) => expired == id
    case Closes(_, _, _) => true
    case HandshakeRefused => !c.stopping
    case StopCalled => !c.stopping
    case _ => false
  }

  /** A socket that opens asks for a session, and a pull for the definition, each
      under an id of its own; whoever else waits waits on, until let go. */
  lemma TheWaitingAre(c: Client, e: Event, id: nat)
    requires Orderly(c) && Possible(c, e) && forall waiting :: waiting in c.pending ==> waiting < c.nextId
    ensures var t := Next(c, e);
      && (id in t.pending <==> (id in c.pending && !LetsGo(c, e, id)) || ((e.Opens? || e.Pulls?) && id == c.nextId))
      && (id in t.pending ==>
           t.pending[id] == if id != c.nextId then c.pending[id] else if e.Opens? then OpenSession else PullDefinition)
      && t.nextId == c.nextId + (if e.Opens? || e.Pulls? then 1 else 0)
      && (e.Opens? ==> t.beat == Some(c.nextTimer) && c.nextTimer in t.beats)
  {
    hide Backoff;
  }

  /** What an event says of the run: whether it is over, and how. A close says so
      when the token was revoked (4001), when another connector has taken this
      one's place (4002), and when a frame was not understood (1003). */
  function EndingBy(e: Event): Option<Ending> {
    match e
    case StopCalled => Some(Stopped)
    case HandshakeRefused => Some(TurnedAway)
    case Closes(_, code, _) => if code in {4001, 4002, 1003} then Some(TurnedAway) else None
    case _ => None
  }

  function FirstEnding(events: seq<Event>, k: nat): Option<Ending>
    requires k <= |events|
  {
    if k == 0 then None
    else if FirstEnding(events, k - 1).Some? then FirstEnding(events, k - 1)
    else EndingBy(events[k - 1])
  }

  /** A client that is not stopping has a socket, or a retry that will dial one. */
  ghost predicate GoesOn(c: Client) {
    c.sockets != [] && (!c.stopping ==> (c.sockets[|c.sockets| - 1] == Gone <==> c.retries != {}))
  }

  lemma OneMoreEvent(c: Client, e: Event)
    requires Orderly(c) && GoesOn(c) && Possible(c, e)
    ensures GoesOn(Next(c, e))
    ensures Next(c, e).stopping <==> c.stopping || EndingBy(e).Some?
    ensures Next(c, e).endings == c.endings + if !c.stopping && EndingBy(e).Some? then [EndingBy(e).value] else []
  {
    hide Backoff;
  }

  /** `run` comes back with the first ending there is, and not before it; until
      then a socket lives or a retry is armed, at every moment of every run. */
  lemma {:induction false} TheRunGoesOnUntilItIsEnded(clients: seq<Client>, events: seq<Event>, k: nat)
    requires Run(clients, events) && k < |clients|
    ensures GoesOn(clients[k])
    ensures clients[k].endings == if FirstEnding(events, k).Some? then [FirstEnding(events, k).value] else []
    ensures clients[k].stopping <==> FirstEnding(events, k).Some?
  {
    hide Next, Possible, Orderly, EndingBy;
    if k > 0 {
      TheRunGoesOnUntilItIsEnded(clients, events, k - 1);
      RunsAreOrderly(clients, events, k - 1);
      hide GoesOn;
      OneMoreEvent(clients[k - 1], events[k - 1]);
    }
  }

  // ----------------------------------------------------- how long it waits

  /** 1000 · 1.5ⁿ */
  function Growth(n: nat): real {
    if n == 0 then 1000.0 else 1.5 * Growth(n - 1)
  }

  /** 1000 · 2.5ⁿ, and the halves that rounding may add on the way. */
  function GrowthAtMost(n: nat): real {
    if n == 0 then 1000.0 else 2.5 * GrowthAtMost(n - 1) + 0.5
  }

  /** At least the first, unless it is the longest wait there is; at most the
      second; and never more than the longest. */
  ghost predicate WaitsEnough(retryIn: nat, failures: nat) {
    && retryIn <= 30_000
    && (Growth(failures) <= retryIn as real || retryIn == 30_000)
    && retryIn as real <= GrowthAtMost(failures)
  }

  /** The wait after next: the whole number nearest to one and a half times this
      one and the noise of it, or the longest there is. */
  lemma TheNextWaitIsDrawn(retryIn: nat, noise: real)
    requires 0.0 <= noise < 1.0
    ensures var next, drawn := Backoff(retryIn, noise), retryIn as real * (1.5 + noise);
      if next < 30_000 then drawn - 0.5 < next as real <= drawn + 0.5
      else next == 30_000 && drawn + 0.5 >= 30_000.0
  {
  }

  lemma RoundingLosesNothing(retryIn: nat, x: real)
    requires x >= 1.5 * retryIn as real
    ensures Rounded(x) as real >= 1.5 * retryIn as real
  {
    var up := (3 * retryIn + 1) / 2;
    assert 2.0 * (up as real) >= 3.0 * retryIn as real;
    assert 2.0 * (up as real) <= 3.0 * retryIn as real + 1.0;
    FloorIsGreatest(x + 0.5, up);
  }

  lemma FloorIsGreatest(y: real, m: int)
    requires m as real <= y
    ensures m <= y.Floor
  {
  }

  lemma NoiseAdds(retryIn: nat, noise: real)
    requires 0.0 <= noise < 1.0
    ensures retryIn as real * (1.5 + noise) >= 1.5 * retryIn as real
  {
    assert retryIn as real * noise >= 0.0;
  }

  lemma TimesAtLeastZero(x: real, y: real)
    requires x >= 0.0 && y >= 0.0
    ensures x * y >= 0.0
  {
  }

  lemma NoiseAddsNoMore(retryIn: nat, noise: real)
    requires 0.0 <= noise < 1.0
    ensures Backoff(retryIn, noise) as real <= 2.5 * retryIn as real + 0.5
  {
    var quiet := 1.0 - noise;
    TimesAtLeastZero(retryIn as real, quiet);
    assert retryIn as real * (1.5 + noise) == 2.5 * retryIn as real - retryIn as real * quiet;
  }

  lemma BackoffWaitsEnough(retryIn: nat, failures: nat, noise: real)
    requires 0.0 <= noise < 1.0 && WaitsEnough(retryIn, failures)
    ensures WaitsEnough(Backoff(retryIn, noise), failures + 1)
  {
    NoiseAdds(retryIn, noise);
    RoundingLosesNothing(retryIn, retryIn as real * (1.5 + noise));
    NoiseAddsNoMore(retryIn, noise);
  }

  /** How many connections in a row have come to nothing. */
  function Failures(c: Client, e: Event, failures: nat): nat {
    match e
    case Closes(_, _, _) => if c.stopping || EndingBy(e).Some? then failures else failures + 1
    case Hears(id, opens) => if id in c.pending && c.pending[id] == OpenSession && opens then 0 else failures
    case _ => failures
  }

  function FailuresBefore(clients: seq<Client>, events: seq<Event>, k: nat): nat
    requires k <= |events| && |clients| == |events| + 1
  {
    if k == 0 then 0 else Failures(clients[k - 1], events[k - 1], FailuresBefore(clients, events, k - 1))
  }

  /** After n connections in a row that came to nothing, the next wait is between
      min(30000, 1000 · 1.5ⁿ) and min(30000, about 1000 · 2.5ⁿ) ms; once a session
      opens it is 1000. */
  lemma {:induction false} TheWaitGrows(clients: seq<Client>, events: seq<Event>, k: nat)
    requires Run(clients, events) && k < |clients|
    ensures WaitsEnough(clients[k].retryIn, FailuresBefore(clients, events, k))
    ensures FailuresBefore(clients, events, k) == 0 ==> clients[k].retryIn == 1_000
  {
    if k > 0 {
      hide WaitsEnough, Next, Failures;
      TheWaitGrows(clients, events, k - 1);
      OneMoreWait(clients[k - 1], events[k - 1], FailuresBefore(clients, events, k - 1));
    } else {
      assert clients[0] == Dialling(IDLE);
    }
  }

  lemma OneMoreWait(c: Client, e: Event, failures: nat)
    requires Possible(c, e) && WaitsEnough(c.retryIn, failures)
    requires failures == 0 ==> c.retryIn == 1_000
    ensures WaitsEnough(Next(c, e).retryIn, Failures(c, e, failures))
    ensures Failures(c, e, failures) == 0 ==> Next(c, e).retryIn == 1_000
  {
    hide Backoff, WaitsEnough;
    if e.Closes? && !c.stopping && !Fatal(e.code) {
      BackoffWaitsEnough(c.retryIn, failures, e.noise);
    }
    ShortIsEnough();
  }

  lemma ShortIsEnough()
    ensures WaitsEnough(1_000, 0)
  {
  }
}
