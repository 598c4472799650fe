/** Cloud's end of one connector's socket
    (apps/api/src/connector-sockets/connector-channel.ts). */
module Channels {
  import opened Frames

  /** How a request in flight was settled. */
  datatype Settlement = Answered(outcome: Outcome) | TimedOut | Offline

  /** `pending` holds who is waiting, and for what; `deadlines` the timers that
      are running. */
  datatype Channel = Channel(
    pending: map<nat, Descriptor>,
    deadlines: set<nat>,
    nextId: nat,
    seenAt: nat,
    version: nat,
    closed: bool)

  const UNSUPPORTED_DATA := 1003

  function Fresh(now: nat): Channel {
    Channel(map[], {}, 1, now, 0, false)
  }

  /** The ids a map holds, each told the same, in some order. */
  function AllTold(pending: map<nat, Descriptor>, settlement: Settlement): set<(nat, Settlement)> {
    set id | id in pending :: (id, settlement)
  }

  // ------------------------------------------------------------------- steps

  /** A step: what the channel is next, what it sent, and whom it settled. */
  datatype Step = Step(channel: Channel, sent: seq<CloudFrame>, settled: set<(nat, Settlement)>)

  function Executing(c: Channel, version: nat, descriptor: Descriptor): Step {
    if c.closed then Step(c, [], {})
    else
      Step(
        c.(pending := c.pending[c.nextId := descriptor], deadlines := c.deadlines + {c.nextId}, nextId := c.nextId + 1),
        [Execute(c.nextId, version, descriptor)], {})
  }

  function Expiring(c: Channel, id: nat): Step
    requires id in c.deadlines
  {
    Step(c.(pending := c.pending - {id}, deadlines := c.deadlines - {id}), [], {(id, TimedOut)})
  }

  function Abandoning(c: Channel): Step {
    if c.closed then Step(c, [], {})
    else
      Step(
        c.(pending := map[], deadlines := c.deadlines - c.pending.Keys, closed := true), [],
        AllTold(c.pending, Offline))
  }

  function Hearing(c: Channel, frame: ConnectorFrame, now: nat): Step {
    var heard := c.(seenAt := now);
    match frame
    case Heartbeat(version) =>
      Step(heard.(version := version), if c.closed then [] else [CloudHeartbeat], {})
    case ResultOf(id, outcome) =>
      if id !in c.pending then Step(heard, [], {})
      else
        Step(heard.(pending := c.pending - {id}, deadlines := c.deadlines - {id}), [], {(id, Answered(outcome))})
    case Ask(_, _) => Step(heard, [], {})
  }

  /** What no frame is ends the channel, and is not something heard. */
  function Receiving(c: Channel, payload: Payload, now: nat): Step {
    match payload
    case Unknown => Abandoning(c)
    case Known(frame) => Hearing(c, frame, now)
  }

  /** A question answered, whenever its answer was ready. */
  function Responding(c: Channel, id: nat, answer: Answer): Step {
    Step(c, if c.closed then [] else [AnswerTo(id, answer)], {})
  }

  function Notifying(c: Channel, version: nat): Step {
    Step(c, if c.closed then [] else [Notify(version)], {})
  }

  // --------------------------------------------------------------- the class

  class ConnectorChannel {
    var pending: map<nat, Descriptor>
    var deadlines: set<nat>
    var nextId: nat
    var seenAt: nat
    var version: nat
    var closed: bool

    function State(): Channel
      reads this
    {
      Channel(pending, deadlines, nextId, seenAt, version, closed)
    }

    constructor (now: nat)
      ensures State() == Fresh(now)
    {
      pending, deadlines, nextId, seenAt, version, closed := map[], {}, 1, now, 0, false;
    }

    /** Nothing, when the channel has closed: the caller is refused at once. */
    method Request(definitionVersion: nat, descriptor: Descriptor) returns (id: nat, sent: seq<CloudFrame>)
      modifies this
      ensures Step(State(), sent, {}) == Executing(old(State()), definitionVersion, descriptor)
      ensures id == old(nextId)
    {
      id := nextId;
      if closed {
        return id, [];
      }
      nextId := nextId + 1;
      deadlines := deadlines + {id};
      pending := pending[id := descriptor];
      sent := Send(Execute(id, definitionVersion, descriptor));
    }

    method Expire(id: nat) returns (settled: set<(nat, Settlement)>)
      requires id in deadlines
      modifies this
      ensures Step(State(), [], settled) == Expiring(old(State()), id)
    {
      deadlines := deadlines - {id};
      pending := pending - {id};
      settled := {(id, TimedOut)};
    }

    method Announce(published: nat) returns (sent: seq<CloudFrame>)
      ensures Step(State(), sent, {}) == Notifying(State(), published)
    {
      sent := Send(Notify(published));
    }

    method Close() returns (settled: set<(nat, Settlement)>)
      modifies this
      ensures Step(State(), [], settled) == Abandoning(old(State()))
    {
      settled := Abandon();
    }

    method Send(frame: CloudFrame) returns (sent: seq<CloudFrame>)
      ensures sent == if closed then [] else [frame]
    {
      if closed {
        return [];
      }
      return [frame];
    }

    method Receive(payload: Payload, now: nat) returns (sent: seq<CloudFrame>, settled: set<(nat, Settlement)>)
      modifies this
      ensures Step(State(), sent, settled) == Receiving(old(State()), payload, now)
    {
      sent, settled := [], {};
      if payload.Unknown? {
        settled := Close();
        return;
      }
      var frame := payload.frame;
      seenAt := now;
      if frame.Heartbeat? {
        version := frame.definitionVersion;
        sent := Send(CloudHeartbeat);
      } else if frame.ResultOf? {
        if frame.id !in pending {
          return;
        }
        pending := pending - {frame.id};
        deadlines := deadlines - {frame.id};
        settled := {(frame.id, Answered(frame.outcome))};
      }
    }

    method Respond(id: nat, answer: Answer) returns (sent: seq<CloudFrame>)
      ensures Step(State(), sent, {}) == Responding(State(), id, answer)
    {
      sent := Send(AnswerTo(id, answer));
    }

    /** Everything still waiting is told, one after another, and nothing is left. */
    method Abandon() returns (settled: set<(nat, Settlement)>)
      modifies this
      ensures Step(State(), [], settled) == Abandoning(old(State()))
    {
      settled := {};
      if closed {
        return;
      }
      closed := true;
      var waiting := pending.Keys;
      while waiting != {}
        invariant waiting <= pending.Keys
        invariant pending == old(pending) && nextId == old(nextId) && seenAt == old(seenAt) && version == old(version)
        invariant closed
        invariant deadlines == old(deadlines) - (pending.Keys - waiting)
        invariant settled == set id | id in pending.Keys - waiting :: (id, Offline)
        decreases |waiting|
      {
        var id :| id in waiting;
        deadlines := deadlines - {id};
        settled := settled + {(id, Offline)};
        waiting := waiting - {id};
      }
      pending := map[];
    }
  }

  // -------------------------------------------------------------------- runs

  /** Anything that may happen to a channel, from either side of it. */
  datatype Event =
    | Requested(definitionVersion: nat, descriptor: Descriptor)
    | Expired(id: nat)
    | Received(payload: Payload, now: nat)
    | Responded(id: nat, answer: Answer)
    | Notified(version: nat)
    | Gone

  /** A timer goes off only while it is running. */
  predicate Possible(c: Channel, e: Event) {
    e.Expired? ==> e.id in c.deadlines
  }

  function Next(c: Channel, e: Event): Step
    requires Possible(c, e)
  {
    match e
    case Requested(version, descriptor) => Executing(c, version, descriptor)
    case Expired(id) => Expiring(c, id)
    case Received(payload, now) => Receiving(c, payload, now)
    case Responded(id, answer) => Responding(c, id, answer)
    case Notified(version) => Notifying(c, version)
    case Gone => Abandoning(c)
  }

  /** A channel and everything it has told anyone. */
  datatype Life = Life(channel: Channel, told: seq<(nat, Settlement)>, issued: map<nat, Descriptor>)

  /** A step's settlements, in whichever order its loop told them. */
  ghost predicate Tells(told: seq<(nat, Settlement)>, settled: set<(nat, Settlement)>) {
    && (forall i, j :: 0 <= i < j < |told| ==> told[i] != told[j])
    && (forall x :: x in told <==> x in settled)
  }

  ghost predicate LivesOn(a: Life, e: Event, b: Life) {
    Possible(a.channel, e) &&
    var step := Next(a.channel, e);
    && b.channel == step.channel
    && (exists told :: Tells(told, step.settled) && b.told == a.told + told)
    && b.issued == if e.Requested? && !a.channel.closed then a.issued[a.channel.nextId := e.descriptor] else a.issued
  }

  /** A life, event by event: `lives[0]` is fresh. */
  ghost predicate LifeStory(lives: seq<Life>, events: seq<Event>, now: nat) {
    && |lives| == |events| + 1
    && lives[0] == Life(Fresh(now), [], map[])
    && forall i :: 0 <= i < |events| ==> LivesOn(lives[i], events[i], lives[i + 1])
  }

  ghost predicate ToldOnce(told: seq<(nat, Settlement)>) {
    forall i, j :: 0 <= i < j < |told| ==> told[i].0 != told[j].0
  }

  ghost predicate WasTold(told: seq<(nat, Settlement)>, id: nat) {
    exists i :: 0 <= i < |told| && told[i].0 == id
  }

  /** Ids are issued once each, and whoever waits, waits for what was issued,
      with a deadline running; on a closed channel nobody waits. */
  ghost predicate WaitingInOrder(l: Life) {
    && 1 <= l.channel.nextId
    && (forall id :: id in l.issued <==> 1 <= id < l.channel.nextId)
    && (forall id :: id in l.channel.pending ==> id in l.issued && l.channel.pending[id] == l.issued[id])
    && l.channel.deadlines == l.channel.pending.Keys
    && (l.channel.closed ==> l.channel.pending == map[])
  }

  /** Every id issued is waiting or has been told, never both and never twice. */
  ghost predicate ToldInOrder(l: Life) {
    && ToldOnce(l.told)
    && (forall id :: id in l.issued <==> id in l.channel.pending || WasTold(l.told, id))
    && (forall id :: id in l.channel.pending ==> !WasTold(l.told, id))
  }

  ghost predicate InOrder(l: Life) {
    WaitingInOrder(l) && ToldInOrder(l)
  }

  ghost predicate Settles(settled: set<(nat, Settlement)>, id: nat) {
    exists x :: x in settled && x.0 == id
  }

  /** What each event has sent, on a channel that is open: a request or an answer or
      word of a version as it was given, and a heartbeat for a heartbeat. */
  function Owed(c: Channel, e: Event): seq<CloudFrame> {
    match e
    case Requested(version, descriptor) => [Execute(c.nextId, version, descriptor)]
    case Responded(id, answer) => [AnswerTo(id, answer)]
    case Notified(version) => [Notify(version)]
    case Received(payload, _) => if payload.Known? && payload.frame.Heartbeat? then [CloudHeartbeat] else []
    case _ => []
  }

  lemma AClosedChannelSaysNothing(c: Channel, e: Event)
    requires Possible(c, e)
    ensures Next(c, e).sent == if c.closed then [] else Owed(c, e)
    ensures c.closed ==> Next(c, e).channel.closed && Next(c, e).channel.nextId == c.nextId
  {
  }

  /** One step tells people who were waiting and no longer are, each of them, no
      one else, and no one twice. */
  lemma StepTellsTheWaiting(c: Channel, e: Event)
    requires Possible(c, e) && c.deadlines == c.pending.Keys
    requires c.closed ==> c.pending == map[]
    ensures var step := Next(c, e);
      && (forall id :: Settles(step.settled, id) <==> id in c.pending && id !in step.channel.pending)
      && (forall x, y :: x in step.settled && y in step.settled && x.0 == y.0 ==> x == y)
  {
    var step := Next(c, e);
    forall id ensures Settles(step.settled, id) <==> id in c.pending && id !in step.channel.pending {
      if e.Gone? || (e.Received? && e.payload.Unknown?) {
        assert id in c.pending && !c.closed ==> (id, Offline) in step.settled;
      } else if e.Expired? {
        assert (e.id, TimedOut) in step.settled;
      } else if e.Received? && e.payload.frame.ResultOf? && e.payload.frame.id in c.pending {
        assert (e.payload.frame.id, Answered(e.payload.frame.outcome)) in step.settled;
      }
    }
  }

  lemma StepKeepsWaiting(c: Channel, e: Event)
    requires Possible(c, e) && c.deadlines == c.pending.Keys
    requires c.closed ==> c.pending == map[]
    requires forall id :: id in c.pending ==> id < c.nextId
    ensures var d := Next(c, e).channel;
      && d.deadlines == d.pending.Keys
      && (d.closed ==> d.pending == map[])
      && d.nextId == (if e.Requested? && !c.closed then c.nextId + 1 else c.nextId)
      && (forall id :: id in d.pending <==>
           (e.Requested? && !c.closed && id == c.nextId) || (id in c.pending && id in d.pending))
      && (forall id :: id in d.pending && id in c.pending ==> d.pending[id] == c.pending[id])
      && (e.Requested? && !c.closed ==> c.nextId in d.pending && d.pending[c.nextId] == e.descriptor)
  {
  }

  lemma ToldAppended(a: seq<(nat, Settlement)>, b: seq<(nat, Settlement)>, id: nat)
    ensures WasTold(a + b, id) <==> WasTold(a, id) || WasTold(b, id)
  {
    if WasTold(a, id) {
      var i :| 0 <= i < |a| && a[i].0 == id;
      assert (a + b)[i].0 == id;
    }
    if WasTold(b, id) {
      var i :| 0 <= i < |b| && b[i].0 == id;
      assert (a + b)[|a| + i].0 == id;
    }
  }

  lemma WaitingIsKept(a: Life, e: Event, b: Life)
    requires InOrder(a) && LivesOn(a, e, b)
    ensures WaitingInOrder(b)
  {
    hide Next, ToldInOrder, Tells;
    StepKeepsWaiting(a.channel, e);
  }

  lemma ToldIsKept(a: Life, e: Event, b: Life)
    requires InOrder(a) && LivesOn(a, e, b)
    ensures ToldInOrder(b)
  {
    hide Next;
    var step := Next(a.channel, e);
    var told :| Tells(told, step.settled) && b.told == a.told + told;
    StepTellsTheWaiting(a.channel, e);
    StepKeepsWaiting(a.channel, e);
    forall id ensures WasTold(b.told, id) <==> WasTold(a.told, id) || Settles(step.settled, id) {
      ToldAppended(a.told, told, id);
    }
    ToldOnceStill(a, told, step.settled);
    hide WasTold, ToldOnce, Tells, Settles;
    forall id | id in b.channel.pending ensures !WasTold(b.told, id) {
      assert id in a.channel.pending || id == a.channel.nextId;
      assert WasTold(a.told, id) ==> id in a.issued;
    }
    forall id ensures id in b.issued <==> id in b.channel.pending || WasTold(b.told, id) {
      assert id in a.issued <==> id in a.channel.pending || WasTold(a.told, id);
    }
  }

  lemma OrderIsKept(a: Life, e: Event, b: Life)
    requires InOrder(a) && LivesOn(a, e, b)
    ensures InOrder(b)
  {
    hide LivesOn, WaitingInOrder, ToldInOrder;
    WaitingIsKept(a, e, b);
    ToldIsKept(a, e, b);
  }

  lemma ToldOnceStill(a: Life, told: seq<(nat, Settlement)>, settled: set<(nat, Settlement)>)
    requires InOrder(a) && Tells(told, settled)
    requires forall id :: Settles(settled, id) ==> id in a.channel.pending
    requires forall x, y :: x in settled && y in settled && x.0 == y.0 ==> x == y
    ensures ToldOnce(a.told + told)
  {
    var all := a.told + told;
    forall i, j | 0 <= i < j < |all| ensures all[i].0 != all[j].0 {
      if i < |a.told| <= j {
        assert WasTold(a.told, all[i].0);
        assert told[j - |a.told|] in settled && Settles(settled, all[j].0);
      } else if |a.told| <= i {
        assert told[i - |a.told|] in settled && told[j - |a.told|] in settled;
      }
    }
  }

  /** Exactly-once settlement, over every run and whatever the far end sends:
      each request issued has been told once, or is still waiting with its
      deadline running; and once the channel has closed, all have been told. */
  lemma {:induction false} EveryRequestIsSettledOnce(lives: seq<Life>, events: seq<Event>, now: nat, k: nat)
    requires LifeStory(lives, events, now) && k < |lives|
    ensures InOrder(lives[k])
    ensures forall id :: id in lives[k].issued && lives[k].channel.closed ==> WasTold(lives[k].told, id)
  {
    if k == 0 {
    } else {
      EveryRequestIsSettledOnce(lives, events, now, k - 1);
      OrderIsKept(lives[k - 1], events[k - 1], lives[k]);
    }
  }
}
