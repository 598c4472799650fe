/** Both ends of the wire at once, over a network that may lose, repeat and
    reorder whatever was sent on a socket (packages/cli/src/connector/client.ts,
    apps/api/src/connector-sockets/connector-channel.ts). */
module Protocol {
  import opened Frames
  import Channels
  import Clients
  import Outcomes

  /** A descriptor being served, and the socket it was asked for on. */
  datatype Task = Task(socket: nat, id: nat, descriptor: Descriptor)

  /** A question Cloud has heard and not yet answered. */
  datatype Heard = Heard(socket: nat, id: nat, question: Question)

  /** A request settled by a result, and a question by an answer. */
  datatype Verdict =
    | ForRequest(requested: Descriptor, outcome: Outcome)
    | ForQuestion(question: Question, answer: Answer)
  {
    /** The answer is to what was asked. */
    predicate Fair() {
      match this
      case ForRequest(requested, outcome) => outcome.of == requested
      case ForQuestion(question, answer) => answer.to == question
    }
  }

  /** `up` and `down` are the frames ever sent; `issued` and `asked` are what
      each id was first used for. */
  datatype System = System(
    channels: map<nat, Channels.Channel>,
    client: Clients.Client,
    up: set<(nat, ConnectorFrame)>,
    down: set<(nat, CloudFrame)>,
    tasks: set<Task>,
    heard: set<Heard>,
    verdicts: seq<Verdict>,
    issued: map<(nat, nat), Descriptor>,
    asked: map<nat, Question>)
  {
    /** The socket the connector holds: the last it dialled. */
    function Held(): nat
      requires client.sockets != []
    {
      |client.sockets| - 1
    }
  }

  datatype Step =
    | Accept(socket: nat, now: nat)
    | Request(socket: nat, version: nat, descriptor: Descriptor)
    | Deadline(socket: nat, id: nat)
    | Drop(socket: nat)
    | Publish(socket: nat, version: nat)
    | CloudHears(socket: nat, frame: ConnectorFrame, now: nat)
    | CloudAnswers(question: Heard, says: nat)
    | ConnectorHears(socket: nat, word: CloudFrame, opens: bool)
    | Finish(task: Task, says: nat)
    | Own(event: Clients.Event)

  predicate Enabled(s: System, step: Step) {
    match step
    case Accept(socket, _) => socket < |s.client.sockets| && socket !in s.channels
    case Request(socket, _, _) => socket in s.channels
    case Deadline(socket, id) => socket in s.channels && id in s.channels[socket].deadlines
    case Drop(socket) => socket in s.channels
    case Publish(socket, _) => socket in s.channels
    case CloudHears(socket, frame, _) => socket in s.channels && (socket, frame) in s.up
    case CloudAnswers(question, _) => question in s.heard && question.socket in s.channels
    case ConnectorHears(socket, frame, _) => (socket, frame) in s.down
    case Finish(task, _) => task in s.tasks
    case Own(event) => !event.Hears? && Clients.Possible(s.client, event)
  }

  // ------------------------------------------------------------ Cloud's steps

  function Lowered(s: System, socket: nat, sent: seq<CloudFrame>): set<(nat, CloudFrame)> {
    s.down + set f | f in sent :: (socket, f)
  }

  function Raised(s: System, sent: seq<ConnectorFrame>): set<(nat, ConnectorFrame)>
    requires s.client.sockets != []
  {
    s.up + set f | f in sent :: (s.Held(), f)
  }

  function Requesting(s: System, socket: nat, version: nat, descriptor: Descriptor): System
    requires socket in s.channels
  {
    var c := s.channels[socket];
    var step := Channels.Executing(c, version, descriptor);
    s.(channels := s.channels[socket := step.channel],
       down := Lowered(s, socket, step.sent),
       issued := if c.closed then s.issued else s.issued[(socket, c.nextId) := descriptor])
  }

  function CloudHearing(s: System, socket: nat, frame: ConnectorFrame, now: nat): System
    requires socket in s.channels
  {
    var c := s.channels[socket];
    var step := Channels.Hearing(c, frame, now);
    var after := s.(channels := s.channels[socket := step.channel], down := Lowered(s, socket, step.sent));
    match frame
    case Heartbeat(_) => after
    case Ask(id, question) => after.(heard := s.heard + {Heard(socket, id, question)})
    case ResultOf(id, outcome) =>
      if id !in c.pending then after
      else after.(verdicts := s.verdicts + [ForRequest(c.pending[id], outcome)])
  }

  function CloudAnswering(s: System, q: Heard, says: nat): System
    requires q.socket in s.channels
  {
    var step := Channels.Responding(s.channels[q.socket], q.id, Answer(q.question, says));
    s.(down := Lowered(s, q.socket, step.sent), heard := s.heard - {q})
  }

  // ------------------------------------------------------ the connector's steps

  /** What the connector asks of Cloud goes up on the socket it holds. */
  function Asked(s: System, after: Clients.Step, question: Question): System
    requires s.client.sockets != []
  {
    s.(client := after.client, up := Raised(s, after.sent), asked := s.asked[s.client.nextId := question])
  }

  function ConnectorHearing(s: System, socket: nat, frame: CloudFrame, opens: bool): System
    requires s.client.sockets != []
  {
    match frame
    case CloudHeartbeat => s
    case Execute(id, _, descriptor) => s.(tasks := s.tasks + {Task(socket, id, descriptor)})
    case Notify(_) => Asked(s, Clients.Asking(s.client, PullDefinition), PullDefinition)
    case AnswerTo(id, answer) =>
      if id !in s.client.pending then s
      else
        s.(client := Clients.Answering(s.client, id, opens),
           verdicts := s.verdicts + [ForQuestion(s.client.pending[id], answer)])
  }

  /** The result goes out on whatever socket is held when the work ends. */
  function Finishing(s: System, task: Task, says: nat): System
    requires s.client.sockets != []
  {
    var sent := Clients.Sending(s.client, ResultOf(task.id, Outcome(task.descriptor, says))).sent;
    s.(up := Raised(s, sent), tasks := s.tasks - {task})
  }

  function Living(s: System, event: Clients.Event): System
    requires s.client.sockets != [] && Clients.Possible(s.client, event)
  {
    match event
    case Opens(socket) => Asked(s, Clients.Opening(s.client, socket), OpenSession)
    case Pulls => Asked(s, Clients.Asking(s.client, PullDefinition), PullDefinition)
    case _ => s.(client := Clients.Next(s.client, event))
  }

  function Next(s: System, step: Step): System
    requires s.client.sockets != [] && Enabled(s, step)
  {
    match step
    case Accept(socket, now) => s.(channels := s.channels[socket := Channels.Fresh(now)])
    case Request(socket, version, descriptor) => Requesting(s, socket, version, descriptor)
    case Deadline(socket, id) =>
      s.(channels := s.channels[socket := Channels.Expiring(s.channels[socket], id).channel])
    case Drop(socket) =>
      s.(channels := s.channels[socket := Channels.Abandoning(s.channels[socket]).channel])
    case Publish(socket, version) =>
      s.(down := Lowered(s, socket, Channels.Notifying(s.channels[socket], version).sent))
    case CloudHears(socket, frame, now) => CloudHearing(s, socket, frame, now)
    case CloudAnswers(question, says) => CloudAnswering(s, question, says)
    case ConnectorHears(socket, frame, opens) => ConnectorHearing(s, socket, frame, opens)
    case Finish(task, says) => Finishing(s, task, says)
    case Own(event) => Living(s, event)
  }

  function Start(): System {
    System(map[], Clients.Dialling(Clients.IDLE), {}, {}, {}, {}, [], map[], map[])
  }

  ghost predicate Run(systems: seq<System>, steps: seq<Step>) {
    && |systems| == |steps| + 1
    && systems[0] == Start()
    && forall i :: 0 <= i < |steps| ==>
         systems[i].client.sockets != [] && Enabled(systems[i], steps[i]) && systems[i + 1] == Next(systems[i], steps[i])
  }

  // ---------------------------------------------------- questions, in all runs

  /** A question's id means that question everywhere it has reached, and is
      never used for another. */
  ghost predicate QuestionsKept(s: System) {
    && s.client.sockets != []
    && (forall id :: id in s.asked ==> id < s.client.nextId)
    && (forall id :: id in s.client.pending ==> id in s.asked && s.client.pending[id] == s.asked[id])
    && (forall n: nat, id: nat, q :: (n, Ask(id, q)) in s.up ==> id in s.asked && s.asked[id] == q)
    && (forall h :: h in s.heard ==> h.id in s.asked && s.asked[h.id] == h.question)
    && (forall n: nat, id: nat, a :: (n, AnswerTo(id, a)) in s.down ==> id in s.asked && s.asked[id] == a.to)
    && (forall i :: 0 <= i < |s.verdicts| && s.verdicts[i].ForQuestion? ==> s.verdicts[i].Fair())
  }

  lemma AskedAlike(s: System, after: Clients.Step, question: Question)
    requires QuestionsKept(s)
    requires after.client.nextId == s.client.nextId + 1 && after.client.sockets != []
    requires after.client.pending == s.client.pending[s.client.nextId := question]
    requires forall f :: f in after.sent ==> f == Ask(s.client.nextId, question)
    ensures QuestionsKept(Asked(s, after, question))
  {
  }

  lemma CloudKeepsQuestions(s: System, step: Step)
    requires QuestionsKept(s) && Enabled(s, step)
    requires step.Accept? || step.Request? || step.Deadline? || step.Drop? || step.Publish? || step.CloudAnswers?
    ensures QuestionsKept(Next(s, step))
  {
    assert s.client.sockets != [];
    hide QuestionsKept;
    OnlyCloudMoved(s, Next(s, step));
  }

  lemma OnlyCloudMoved(s: System, t: System)
    requires QuestionsKept(s)
    requires t == s.(channels := t.channels, down := t.down, heard := t.heard, issued := t.issued, verdicts := t.verdicts)
    requires forall h :: h in t.heard ==> h in s.heard || (h.id in s.asked && s.asked[h.id] == h.question)
    requires forall x :: x in t.down ==>
      x in s.down || !x.1.AnswerTo? || (x.1.id in s.asked && s.asked[x.1.id] == x.1.answer.to)
    requires forall v :: v in t.verdicts ==> v in s.verdicts || v.ForRequest?
    ensures QuestionsKept(t)
  {
  }

  lemma CloudHearingKeepsQuestions(s: System, step: Step)
    requires QuestionsKept(s) && Enabled(s, step) && step.CloudHears?
    ensures QuestionsKept(Next(s, step))
  {
    assert s.client.sockets != [];
    if step.frame.Ask? {
      assert (step.socket, Ask(step.frame.id, step.frame.question)) in s.up;
      assert step.frame.id in s.asked && s.asked[step.frame.id] == step.frame.question;
    }
    hide QuestionsKept;
    OnlyCloudMoved(s, Next(s, step));
  }

  lemma ConnectorHearingKeepsQuestions(s: System, step: Step)
    requires QuestionsKept(s) && Enabled(s, step) && step.ConnectorHears?
    ensures QuestionsKept(Next(s, step))
  {
    if step.word.Notify? {
      AskedAlike(s, Clients.Asking(s.client, PullDefinition), PullDefinition);
    }
  }

  lemma FinishingKeepsQuestions(s: System, step: Step)
    requires QuestionsKept(s) && Enabled(s, step) && step.Finish?
    ensures QuestionsKept(Next(s, step))
  {
  }

  lemma LivingKeepsQuestions(s: System, step: Step)
    requires QuestionsKept(s) && Enabled(s, step) && step.Own?
    ensures QuestionsKept(Next(s, step))
  {
    hide Clients.Backoff;
    if step.event.Opens? {
      AskedAlike(s, Clients.Opening(s.client, step.event.socket), OpenSession);
    } else if step.event.Pulls? {
      AskedAlike(s, Clients.Asking(s.client, PullDefinition), PullDefinition);
    } else {
      assert s.client.sockets != [];
      FewerAsk(s, Clients.Next(s.client, step.event));
    }
  }

  lemma FewerAsk(s: System, client: Clients.Client)
    requires QuestionsKept(s) && client.sockets != [] && client.nextId == s.client.nextId
    requires forall id :: id in client.pending ==> id in s.client.pending && client.pending[id] == s.client.pending[id]
    ensures QuestionsKept(s.(client := client))
  {
  }

  /** Over every run, whatever the network does: an answer settles only the
      question it answers. */
  lemma {:induction false} AnswersMeetTheirQuestions(systems: seq<System>, steps: seq<Step>, k: nat)
    requires Run(systems, steps) && k < |systems|
    ensures QuestionsKept(systems[k])
  {
    if k > 0 {
      hide QuestionsKept, Next, Enabled;
      AnswersMeetTheirQuestions(systems, steps, k - 1);
      var s, step := systems[k - 1], steps[k - 1];
      if step.Own? {
        LivingKeepsQuestions(s, step);
      } else if step.ConnectorHears? {
        ConnectorHearingKeepsQuestions(s, step);
      } else if step.Finish? {
        FinishingKeepsQuestions(s, step);
      } else if step.CloudHears? {
        CloudHearingKeepsQuestions(s, step);
      } else {
        CloudKeepsQuestions(s, step);
      }
    } else {
      assert systems[0] == Start();
    }
  }

  // ------------------------------------------- what a request's id stands for

  /** A request's id stands for its descriptor wherever that has got to: waiting,
      on its way down, or being served. */
  ghost predicate RequestsKept(s: System) {
    && s.client.sockets != []
    && (forall n: nat, id: nat :: (n, id) in s.issued ==> n in s.channels && id < s.channels[n].nextId)
    && (forall n :: n in s.channels ==> n < |s.client.sockets|)
    && (forall n :: n in s.channels && s.channels[n].closed ==> s.channels[n].pending == map[])
    && (forall n: nat, id: nat :: n in s.channels && id in s.channels[n].pending ==>
         (n, id) in s.issued && s.issued[(n, id)] == s.channels[n].pending[id])
    && (forall n: nat, id: nat, v: nat, d :: (n, Execute(id, v, d)) in s.down ==> (n, id) in s.issued && s.issued[(n, id)] == d)
    && (forall t :: t in s.tasks ==> (t.socket, t.id) in s.issued && s.issued[(t.socket, t.id)] == t.descriptor)
    && (forall x :: x in s.up ==> x.0 < |s.client.sockets|)
  }

  lemma RequestingKeepsRequests(s: System, step: Step)
    requires RequestsKept(s) && Enabled(s, step) && step.Request?
    ensures RequestsKept(Next(s, step))
  {
  }

  /** A channel that waits for no more than it did, as itself. */
  predicate Settled(a: Channels.Channel, b: Channels.Channel) {
    && b.nextId == a.nextId
    && (forall id :: id in b.pending ==> id in a.pending && b.pending[id] == a.pending[id])
    && (a.closed ==> b.closed) && (b.closed ==> b.pending == map[])
  }

  lemma FewerWait(s: System, t: System)
    requires RequestsKept(s)
    requires t == s.(channels := t.channels, down := t.down, heard := t.heard, verdicts := t.verdicts)
    requires t.channels.Keys == s.channels.Keys
    requires forall n :: n in s.channels ==> Settled(s.channels[n], t.channels[n])
    requires forall x :: x in t.down && x.1.Execute? ==> x in s.down
    ensures RequestsKept(t)
  {
    forall n | n in s.channels ensures t.channels[n].nextId == s.channels[n].nextId {
      assert Settled(s.channels[n], t.channels[n]);
    }
    forall n: nat, id: nat | n in t.channels && id in t.channels[n].pending
      ensures id in s.channels[n].pending && t.channels[n].pending[id] == s.channels[n].pending[id]
    {
      assert Settled(s.channels[n], t.channels[n]);
    }
    hide Settled;
  }

  lemma HearingSettles(c: Channels.Channel, frame: ConnectorFrame, now: nat)
    requires c.closed ==> c.pending == map[]
    ensures Settled(c, Channels.Hearing(c, frame, now).channel)
  {
  }

  lemma ChannelSettles(s: System, step: Step)
    requires RequestsKept(s) && Enabled(s, step)
    requires step.Deadline? || step.Drop? || step.Publish? || step.CloudAnswers?
    ensures forall n :: n in s.channels ==> n in Next(s, step).channels && Settled(s.channels[n], Next(s, step).channels[n])
  {
  }

  lemma CloudSettles(s: System, step: Step)
    requires RequestsKept(s) && Enabled(s, step)
    requires step.CloudHears? || step.Deadline? || step.Drop? || step.Publish? || step.CloudAnswers?
    ensures forall n :: n in s.channels ==> n in Next(s, step).channels && Settled(s.channels[n], Next(s, step).channels[n])
  {
    if step.CloudHears? {
      hide Channels.Hearing;
      HearingSettles(s.channels[step.socket], step.frame, step.now);
    } else {
      ChannelSettles(s, step);
    }
  }

  lemma CloudKeepsRequests(s: System, step: Step)
    requires RequestsKept(s) && Enabled(s, step)
    requires step.CloudHears? || step.Deadline? || step.Drop? || step.Publish? || step.CloudAnswers?
    ensures RequestsKept(Next(s, step))
  {
    CloudSettles(s, step);
    assert s.client.sockets != [];
    hide RequestsKept, Settled;
    FewerWait(s, Next(s, step));
  }

  lemma AcceptingKeepsRequests(s: System, step: Step)
    requires RequestsKept(s) && Enabled(s, step) && step.Accept?
    ensures RequestsKept(Next(s, step))
  {
  }

  lemma ServingKeepsRequests(s: System, step: Step)
    requires RequestsKept(s) && Enabled(s, step) && (step.ConnectorHears? || step.Finish?)
    ensures RequestsKept(Next(s, step))
  {
    assert s.client.sockets != [];
    if step.Finish? || step.word.Execute? {
      forall x | x in Next(s, step).up ensures x.0 < |s.client.sockets| {}
    } else {
      OnlyTheConnectorMoved(s, Next(s, step));
    }
  }

  lemma OnlyTheConnectorMoved(s: System, t: System)
    requires RequestsKept(s)
    requires t == s.(client := t.client, up := t.up, asked := t.asked, verdicts := t.verdicts)
    requires |t.client.sockets| >= |s.client.sockets|
    requires forall x :: x in t.up ==> x in s.up || x.0 < |t.client.sockets|
    ensures RequestsKept(t)
  {
  }

  lemma SocketsOnlyGrow(c: Clients.Client, e: Clients.Event)
    requires Clients.Possible(c, e)
    ensures |Clients.Next(c, e).sockets| >= |c.sockets|
  {
    hide Clients.Backoff;
  }

  lemma LivingKeepsRequests(s: System, step: Step)
    requires RequestsKept(s) && Enabled(s, step) && step.Own?
    ensures RequestsKept(Next(s, step))
  {
    assert s.client.sockets != [];
    hide RequestsKept, Clients.Next;
    SocketsOnlyGrow(s.client, step.event);
    OnlyTheConnectorMoved(s, Living(s, step.event));
  }

  /** In every run, whatever the network does. */
  lemma {:induction false} IdsStandForTheirRequests(systems: seq<System>, steps: seq<Step>, k: nat)
    requires Run(systems, steps) && k < |systems|
    ensures RequestsKept(systems[k])
  {
    if k > 0 {
      hide RequestsKept, Next, Enabled;
      IdsStandForTheirRequests(systems, steps, k - 1);
      var s, step := systems[k - 1], steps[k - 1];
      match step {
        case Own(_) => LivingKeepsRequests(s, step);
        case ConnectorHears(_, _, _) => ServingKeepsRequests(s, step);
        case Finish(_, _) => ServingKeepsRequests(s, step);
        case Request(_, _, _) => RequestingKeepsRequests(s, step);
        case Accept(_, _) => AcceptingKeepsRequests(s, step);
        case _ => CloudKeepsRequests(s, step);
      }
    } else {
      assert systems[0] == Start();
    }
  }

  // --------------------------------------- results, and when they go astray

  /** The channel a socket has, or begins with once Cloud accepts it. */
  function ChannelOf(s: System, socket: nat): Channels.Channel {
    if socket in s.channels then s.channels[socket] else Channels.Fresh(0)
  }

  /** The id is some other request's on that socket, or is still to be given out
      there: a result under it may meet a request it did not serve. */
  predicate Misaddressed(s: System, socket: nat, id: nat, served: Descriptor) {
    var c := ChannelOf(s, socket);
    !c.closed && (c.nextId <= id || (id in c.pending && c.pending[id] != served))
  }

  /** Work that ends either sends nothing, or sends what is not misaddressed. */
  predicate Steady(s: System, step: Step) {
    step.Finish? && s.client.Connected() ==>
      !Misaddressed(s, s.Held(), step.task.id, step.task.descriptor)
  }

  /** No result on the wire is misaddressed, and none has settled another's
      request. */
  ghost predicate ResultsKept(s: System) {
    && (forall n: nat, id: nat, o :: (n, ResultOf(id, o)) in s.up ==> !Misaddressed(s, n, id, o.of))
    && (forall i :: 0 <= i < |s.verdicts| && s.verdicts[i].ForRequest? ==> s.verdicts[i].Fair())
  }

  /** What is not misaddressed never comes to be: an id is given out once. */
  lemma StaysAddressed(s: System, step: Step, socket: nat, id: nat, served: Descriptor)
    requires s.client.sockets != [] && Enabled(s, step) && !Misaddressed(s, socket, id, served)
    ensures !Misaddressed(Next(s, step), socket, id, served)
  {
    hide Clients.Next, Clients.Asking, Clients.Opening, Clients.Answering, Clients.Sending;
  }

  lemma CloudSendsNothingUp(s: System, step: Step)
    requires s.client.sockets != [] && Enabled(s, step)
    requires !step.Own? && !step.ConnectorHears? && !step.Finish?
    ensures Next(s, step).up == s.up
  {
    hide Channels.Hearing, Channels.Abandoning, Channels.Expiring, Channels.Executing;
  }

  /** What a step adds to the results on the wire: nothing, or what it finished. */
  lemma OnlyFinishedWorkGoesUp(s: System, step: Step, n: nat, id: nat, o: Outcome)
    requires s.client.sockets != [] && Enabled(s, step)
    requires (n, ResultOf(id, o)) in Next(s, step).up && (n, ResultOf(id, o)) !in s.up
    ensures step.Finish? && s.client.Connected() && n == s.Held()
    ensures id == step.task.id && o == Outcome(step.task.descriptor, step.says)
  {
    hide Clients.Next, Clients.Possible, Channels.Hearing, Channels.Abandoning, Channels.Expiring, Channels.Executing;
    if !step.Own? && !step.ConnectorHears? && !step.Finish? {
      CloudSendsNothingUp(s, step);
    }
  }

  /** A result that is heard settles the request it served, or goes astray. */
  lemma HeardAsAddressed(s: System, step: Step)
    requires RequestsKept(s) && Enabled(s, step) && step.CloudHears? && step.frame.ResultOf?
    ensures Next(s, step).verdicts == s.verdicts ||
            exists d :: Next(s, step).verdicts == s.verdicts + [ForRequest(d, step.frame.outcome)]
              && (d != step.frame.outcome.of ==> Misaddressed(s, step.socket, step.frame.id, step.frame.outcome.of))
  {
    var c := s.channels[step.socket];
    assert c.closed ==> c.pending == map[];
    if step.frame.id in c.pending {
      assert Next(s, step).verdicts == s.verdicts + [ForRequest(c.pending[step.frame.id], step.frame.outcome)];
    }
  }

  lemma StepKeepsResults(s: System, step: Step)
    requires RequestsKept(s) && ResultsKept(s) && Enabled(s, step) && Steady(s, step)
    ensures ResultsKept(Next(s, step))
  {
    assert s.client.sockets != [];
    var t := Next(s, step);
    forall n: nat, id: nat, o | (n, ResultOf(id, o)) in t.up ensures !Misaddressed(t, n, id, o.of) {
      if (n, ResultOf(id, o)) !in s.up {
        OnlyFinishedWorkGoesUp(s, step, n, id, o);
      }
      StaysAddressed(s, step, n, id, o.of);
    }
    VerdictsStayFair(s, step);
  }

  lemma VerdictsStayFair(s: System, step: Step)
    requires RequestsKept(s) && ResultsKept(s) && Enabled(s, step)
    ensures forall i :: 0 <= i < |Next(s, step).verdicts| && Next(s, step).verdicts[i].ForRequest? ==>
              Next(s, step).verdicts[i].Fair()
  {
    assert s.client.sockets != [];
    if step.CloudHears? && step.frame.ResultOf? {
      HeardAsAddressed(s, step);
      hide RequestsKept, Next, Misaddressed;
    } else {
      hide RequestsKept, Clients.Next, Misaddressed;
    }
  }

  /** Over every run whose work is steady as it ends: a result settles only the
      request whose descriptor it served. */
  lemma {:induction false} ResultsMeetTheirRequests(systems: seq<System>, steps: seq<Step>, k: nat)
    requires Run(systems, steps) && k < |systems|
    requires forall i :: 0 <= i < k ==> Steady(systems[i], steps[i])
    ensures ResultsKept(systems[k])
  {
    if k > 0 {
      hide ResultsKept, RequestsKept, Next, Enabled, Steady;
      ResultsMeetTheirRequests(systems, steps, k - 1);
      IdsStandForTheirRequests(systems, steps, k - 1);
      assert Steady(systems[k - 1], steps[k - 1]);
      StepKeepsResults(systems[k - 1], steps[k - 1]);
    } else {
      assert systems[0] == Start();
    }
  }

  /** In particular, work that ends on the socket it came in on is steady,
      whatever other work has done before it. */
  lemma WorkOnItsOwnSocketIsSteady(systems: seq<System>, steps: seq<Step>, k: nat, task: Task, says: nat)
    requires Run(systems, steps) && k < |systems|
    requires systems[k].client.sockets != [] && task in systems[k].tasks && task.socket == systems[k].Held()
    ensures Steady(systems[k], Finish(task, says))
  {
    hide Next, Enabled, Run;
    IdsStandForTheirRequests(systems, steps, k);
  }

  // ------------------------------------------------------- one more step, or many

  lemma {:induction false} OneStepMore(systems: seq<System>, steps: seq<Step>, step: Step)
    requires Run(systems, steps)
    requires var s := systems[|steps|]; s.client.sockets != [] && Enabled(s, step)
    ensures Run(systems + [Next(systems[|steps|], step)], steps + [step])
  {
    var systems', steps' := systems + [Next(systems[|steps|], step)], steps + [step];
    forall i | 0 <= i < |steps'|
      ensures systems'[i].client.sockets != [] && Enabled(systems'[i], steps'[i])
      ensures systems'[i + 1] == Next(systems'[i], steps'[i])
    {
      if i < |steps| {
        assert steps'[i] == steps[i] && systems'[i] == systems[i] && systems'[i + 1] == systems[i + 1];
      }
    }
  }

  lemma Took(systems: seq<System>, steps: seq<Step>, step: Step)
    returns (systems': seq<System>, steps': seq<Step>, s: System)
    requires Run(systems, steps)
    requires var s := systems[|steps|]; s.client.sockets != [] && Enabled(s, step)
    ensures s == Next(systems[|steps|], step)
    ensures Run(systems', steps') && |systems'| == |steps'| + 1
    ensures systems' == systems + [s] && steps' == steps + [step]
  {
    OneStepMore(systems, steps, step);
    s := Next(systems[|steps|], step);
    systems', steps' := systems + [s], steps + [step];
  }

  /** A step in which this result settles a request it did not serve. */
  ghost predicate Strays(s: System, step: Step, socket: nat, id: nat, outcome: Outcome) {
    && s.client.sockets != [] && Enabled(s, step)
    && step.CloudHears? && step.socket == socket && step.frame == ResultOf(id, outcome)
    && exists other :: other != outcome.of && Next(s, step).verdicts == s.verdicts + [ForRequest(other, outcome)]
  }

  /** The run may go on, with no more work ending, to a step that does. */
  ghost predicate MayStray(systems: seq<System>, steps: seq<Step>, socket: nat, id: nat, outcome: Outcome) {
    exists systems', steps' :: StraysAtLast(systems, steps, systems', steps', socket, id, outcome)
  }

  ghost predicate GoesOn(systems: seq<System>, steps: seq<Step>, systems': seq<System>, steps': seq<Step>) {
    && Run(systems', steps') && systems <= systems' && steps <= steps'
    && forall i :: |steps| <= i < |steps'| ==> !steps'[i].Finish?
  }

  ghost predicate StraysAtLast(
    systems: seq<System>, steps: seq<Step>, systems': seq<System>, steps': seq<Step>, socket: nat, id: nat, outcome: Outcome)
  {
    && GoesOn(systems, steps, systems', steps') && |steps| < |steps'|
    && Strays(systems'[|steps'| - 1], steps'[|steps'| - 1], socket, id, outcome)
  }

  /** Requests made one after another, until the id is given out. */
  lemma {:induction false} TheIdComesUp(systems: seq<System>, steps: seq<Step>, socket: nat, id: nat, other: Descriptor)
    returns (systems': seq<System>, steps': seq<Step>)
    requires Run(systems, steps)
    requires var s := systems[|steps|];
      socket in s.channels && !s.channels[socket].closed && s.channels[socket].nextId <= id
    ensures GoesOn(systems, steps, systems', steps') && |systems'| == |steps'| + 1
    ensures var s, t := systems[|steps|], systems'[|steps'|];
      && t.client == s.client && t.up == s.up
      && socket in t.channels && id in t.channels[socket].pending && t.channels[socket].pending[id] == other
    decreases id - systems[|steps|].channels[socket].nextId
  {
    var s := systems[|steps|];
    SocketsThere(systems, steps);
    systems', steps', s := Took(systems, steps, Request(socket, 0, other));
    if s.channels[socket].nextId <= id {
      systems', steps' := TheIdComesUp(systems', steps', socket, id, other);
    }
  }

  lemma SocketsThere(systems: seq<System>, steps: seq<Step>)
    requires Run(systems, steps)
    ensures systems[|steps|].client.sockets != []
  {
    IdsStandForTheirRequests(systems, steps, |steps|);
  }

  lemma HeardAstray(s: System, socket: nat, id: nat, outcome: Outcome)
    requires s.client.sockets != [] && socket in s.channels && (socket, ResultOf(id, outcome)) in s.up
    requires id in s.channels[socket].pending && s.channels[socket].pending[id] != outcome.of
    ensures Strays(s, CloudHears(socket, ResultOf(id, outcome), 0), socket, id, outcome)
  {
    var hears := CloudHears(socket, ResultOf(id, outcome), 0);
    assert Next(s, hears).verdicts == s.verdicts + [ForRequest(s.channels[socket].pending[id], outcome)];
  }

  /** An id that is somebody else's, or is made so. */
  lemma AnothersComesToWait(systems: seq<System>, steps: seq<Step>, socket: nat, id: nat, served: Descriptor)
    returns (systems': seq<System>, steps': seq<Step>)
    requires Run(systems, steps)
    requires socket < |systems[|steps|].client.sockets| && Misaddressed(systems[|steps|], socket, id, served)
    ensures GoesOn(systems, steps, systems', steps') && |systems'| == |steps'| + 1
    ensures var s, t := systems[|steps|], systems'[|steps'|];
      && t.client == s.client && t.up == s.up && socket in t.channels
      && id in t.channels[socket].pending && t.channels[socket].pending[id] != served
  {
    LastOfARun(systems, steps);
    hide Run;
    var s;
    systems', steps', s := systems, steps, systems[|steps|];
    if socket !in s.channels {
      systems', steps', s := Took(systems', steps', Accept(socket, 0));
    }
    if s.channels[socket].nextId <= id {
      systems', steps' := TheIdComesUp(systems', steps', socket, id, served + 1);
    }
  }

  /** A misaddressed result on the wire: a run in which it strays. */
  lemma MisaddressedMayStray(systems: seq<System>, steps: seq<Step>, socket: nat, id: nat, outcome: Outcome)
    requires Run(systems, steps) && (socket, ResultOf(id, outcome)) in systems[|steps|].up
    requires Misaddressed(systems[|steps|], socket, id, outcome.of)
    ensures MayStray(systems, steps, socket, id, outcome)
  {
    IdsStandForTheirRequests(systems, steps, |steps|);
    LastOfARun(systems, steps);
    hide Next, Enabled, Misaddressed, Run, Strays;
    var systems', steps' := AnothersComesToWait(systems, steps, socket, id, outcome.of);
    var hears := CloudHears(socket, ResultOf(id, outcome), 0);
    HeardAstray(systems'[|steps'|], socket, id, outcome);
    StraysIsEnabled(systems'[|steps'|], hears, socket, id, outcome);
    var s;
    systems', steps', s := Took(systems', steps', hears);
    assert StraysAtLast(systems, steps, systems', steps', socket, id, outcome);
  }

  lemma StraysIsEnabled(s: System, step: Step, socket: nat, id: nat, outcome: Outcome)
    requires Strays(s, step, socket, id, outcome)
    ensures s.client.sockets != [] && Enabled(s, step)
  {
  }

  lemma {:induction false} StaysAddressedOverARun(
    systems: seq<System>, steps: seq<Step>, j: nat, k: nat, socket: nat, id: nat, served: Descriptor)
    requires Run(systems, steps) && j <= k < |systems| && !Misaddressed(systems[j], socket, id, served)
    ensures !Misaddressed(systems[k], socket, id, served)
  {
    hide Run, Next, Enabled, Misaddressed;
    LastOfARun(systems, steps);
    if j < k {
      StepOfARun(systems, steps, k - 1);
      StaysAddressedOverARun(systems, steps, j, k - 1, socket, id, served);
      StaysAddressed(systems[k - 1], steps[k - 1], socket, id, served);
    }
  }

  lemma StepOfARun(systems: seq<System>, steps: seq<Step>, i: nat)
    requires Run(systems, steps) && i < |steps|
    ensures |systems| == |steps| + 1 && systems[i].client.sockets != [] && Enabled(systems[i], steps[i])
    ensures systems[i + 1] == Next(systems[i], steps[i])
  {
    hide Next, Enabled;
  }

  lemma LastOfARun(systems: seq<System>, steps: seq<Step>)
    requires Run(systems, steps)
    ensures |systems| == |steps| + 1
  {
    hide Next, Enabled;
  }

  /** At any moment of any run: a result on the wire may yet settle a request it
      did not serve exactly when it is misaddressed. */
  lemma AResultMayStrayExactlyWhenMisaddressed(
    systems: seq<System>, steps: seq<Step>, socket: nat, id: nat, outcome: Outcome)
    requires Run(systems, steps) && (socket, ResultOf(id, outcome)) in systems[|steps|].up
    ensures MayStray(systems, steps, socket, id, outcome) <==> Misaddressed(systems[|steps|], socket, id, outcome.of)
  {
    LastOfARun(systems, steps);
    hide Misaddressed, Run, Strays;
    if Misaddressed(systems[|steps|], socket, id, outcome.of) {
      MisaddressedMayStray(systems, steps, socket, id, outcome);
    } else if MayStray(systems, steps, socket, id, outcome) {
      var systems', steps' :| StraysAtLast(systems, steps, systems', steps', socket, id, outcome);
      LastOfARun(systems', steps');
      StrayingIsMisaddressed(systems', steps', socket, id, outcome);
      StaysAddressedOverARun(systems', steps', |steps|, |steps'| - 1, socket, id, outcome.of);
    }
  }

  lemma StrayingIsMisaddressed(systems: seq<System>, steps: seq<Step>, socket: nat, id: nat, outcome: Outcome)
    requires Run(systems, steps) && steps != []
    requires Strays(systems[|steps| - 1], steps[|steps| - 1], socket, id, outcome)
    ensures Misaddressed(systems[|steps| - 1], socket, id, outcome.of)
  {
    hide Misaddressed, RequestsKept, Next, Enabled;
    var s, step := systems[|steps| - 1], steps[|steps| - 1];
    IdsStandForTheirRequests(systems, steps, |steps| - 1);
    HeardAsAddressed(s, step);
    var other :| other != outcome.of && Next(s, step).verdicts == s.verdicts + [ForRequest(other, outcome)];
    forall d | Next(s, step).verdicts == s.verdicts + [ForRequest(d, outcome)] ensures d == other {
      assert Next(s, step).verdicts[|s.verdicts|] == ForRequest(d, outcome) == ForRequest(other, outcome);
    }
  }

  /** Work that ends at any moment of any run: what it sends may settle a request
      it did not serve exactly when it is not steady, which is to say when the
      client is connected, the channel of the socket it holds has not closed, and
      the id is yet to be given out there or is another request's. Ended without
      a connection, it sends nothing. */
  lemma WorkMayStrayExactlyWhenUnsteady(systems: seq<System>, steps: seq<Step>, task: Task, says: nat)
    requires Run(systems, steps) && systems[|steps|].client.sockets != [] && task in systems[|steps|].tasks
    ensures var s, ends := systems[|steps|], Finish(task, says);
      && Run(systems + [Next(s, ends)], steps + [ends])
      && (s.client.Connected() &&
            MayStray(systems + [Next(s, ends)], steps + [ends], s.Held(), task.id, Outcome(task.descriptor, says))
          <==> !Steady(s, ends))
      && (!s.client.Connected() ==> Next(s, ends).up == s.up)
  {
    var s, ends, result := systems[|steps|], Finish(task, says), ResultOf(task.id, Outcome(task.descriptor, says));
    OneStepMore(systems, steps, ends);
    var systems', steps' := systems + [Next(s, ends)], steps + [ends];
    if s.client.Connected() {
      assert Clients.Sending(s.client, result).sent == [result];
      assert result in Clients.Sending(s.client, result).sent;
      assert (s.Held(), result) in systems'[|steps'|].up;
      assert Misaddressed(s, s.Held(), task.id, task.descriptor)
        <==> Misaddressed(systems'[|steps'|], s.Held(), task.id, task.descriptor);
      hide Next, Run, Misaddressed, MayStray;
      AResultMayStrayExactlyWhenMisaddressed(systems', steps', s.Held(), task.id, result.outcome);
    } else {
      assert Clients.Sending(s.client, result).sent == [];
    }
  }

  /** Some request was settled by a result that did not serve it. */
  ghost predicate Unfair(s: System) {
    exists i :: 0 <= i < |s.verdicts| && s.verdicts[i].ForRequest? && !s.verdicts[i].Fair()
  }

  /** The run goes on from one step more, steady from then on, to an unfair
      settlement. */
  ghost predicate ComesOf(systems: seq<System>, steps: seq<Step>, step: Step, systems': seq<System>, steps': seq<Step>) {
    && Run(systems', steps') && systems <= systems' && steps + [step] <= steps'
    && (forall i :: |steps| < i < |steps'| ==> Steady(systems'[i], steps'[i]))
    && Unfair(systems'[|steps'|])
  }

  /** So one piece of work, in a run where all the rest is steady, decides it: an
      unfair settlement can come of it exactly when it is not steady itself. */
  lemma OneUnsteadyEndIsEnough(systems: seq<System>, steps: seq<Step>, task: Task, says: nat)
    requires Run(systems, steps) && systems[|steps|].client.sockets != [] && task in systems[|steps|].tasks
    requires forall i :: 0 <= i < |steps| ==> Steady(systems[i], steps[i])
    ensures (exists systems', steps' :: ComesOf(systems, steps, Finish(task, says), systems', steps'))
            <==> !Steady(systems[|steps|], Finish(task, says))
  {
    LastOfARun(systems, steps);
    hide Next, Run, Enabled, Steady, MayStray, Misaddressed;
    var s, ends := systems[|steps|], Finish(task, says);
    WorkMayStrayExactlyWhenUnsteady(systems, steps, task, says);
    if !Steady(s, ends) {
      var systems', steps' := AStrayEnding(systems + [Next(s, ends)], steps + [ends], s.Held(), task.id, Outcome(task.descriptor, says));
      assert steps <= steps + [ends] && systems <= systems + [Next(s, ends)];
      forall i | |steps| < i < |steps'| ensures Steady(systems'[i], steps'[i]) {
        NotAnEnd(systems'[i], steps'[i]);
      }
      assert ComesOf(systems, steps, ends, systems', steps');
    } else if systems', steps' :| ComesOf(systems, steps, ends, systems', steps') {
      forall i | 0 <= i < |steps'| ensures Steady(systems'[i], steps'[i]) {
        if i < |steps| {
          assert systems'[i] == systems[i] && steps'[i] == (steps + [ends])[i];
        } else if i == |steps| {
          assert systems'[i] == systems[i] && steps'[i] == (steps + [ends])[i];
        }
      }
      ResultsMeetTheirRequests(systems', steps', |steps'|);
    }
  }

  lemma NotAnEnd(s: System, step: Step)
    requires !step.Finish?
    ensures Steady(s, step)
  {
  }

  lemma AStrayEnding(systems: seq<System>, steps: seq<Step>, socket: nat, id: nat, outcome: Outcome)
    returns (systems': seq<System>, steps': seq<Step>)
    requires MayStray(systems, steps, socket, id, outcome)
    ensures GoesOn(systems, steps, systems', steps') && |systems'| == |steps'| + 1 && Unfair(systems'[|steps'|])
  {
    hide Enabled, Next;
    systems', steps' :| StraysAtLast(systems, steps, systems', steps', socket, id, outcome);
    var n := |steps'| - 1;
    var other :| other != outcome.of && Next(systems'[n], steps'[n]).verdicts == systems'[n].verdicts + [ForRequest(other, outcome)];
    var verdicts := systems'[|steps'|].verdicts;
    assert verdicts == systems'[n].verdicts + [ForRequest(other, outcome)];
    assert verdicts[|verdicts| - 1] == ForRequest(other, outcome);
  }

  // ------------------------------------------------------------- the bad run

  /** A request is being served, and nothing has been settled. */
  lemma ServingStarts(lost: Descriptor) returns (systems: seq<System>, steps: seq<Step>)
    ensures Run(systems, steps)
    ensures var s := systems[|steps|];
      && s.client == Clients.Opening(Clients.Dialling(Clients.IDLE), 0).client
      && s.channels.Keys == {0} && Task(0, 1, lost) in s.tasks && s.verdicts == []
  {
    var s := Start();
    systems, steps := [s], [];
    assert Run(systems, steps);
    hide Run;
    systems, steps, s := Took(systems, steps, Accept(0, 0));
    systems, steps, s := Took(systems, steps, Own(Clients.Opens(0)));
    assert s.client == Clients.Opening(Clients.Dialling(Clients.IDLE), 0).client;
    systems, steps, s := Took(systems, steps, Request(0, 1, lost));
    assert Execute(1, 1, lost) in [Execute(1, 1, lost)];
    assert (0, Execute(1, 1, lost)) in s.down;
    systems, steps, s := Took(systems, steps, ConnectorHears(0, Execute(1, 1, lost), false));
  }

  /** The socket is lost and another is dialled, with the work still going on. */
  lemma AnotherSocketOpens(lost: Descriptor) returns (systems: seq<System>, steps: seq<Step>)
    ensures Run(systems, steps)
    ensures var s := systems[|steps|];
      && s.client.sockets == [Clients.Gone, Clients.Open]
      && s.channels.Keys == {0, 1} && s.channels[1] == Channels.Fresh(0)
      && Task(0, 1, lost) in s.tasks && s.verdicts == []
  {
    hide Run, Clients.Backoff;
    systems, steps := ServingStarts(lost);
    LastOfARun(systems, steps);
    var s;
    systems, steps, s := Took(systems, steps, Own(Clients.Closes(0, 1006, 0.0)));
    assert 1 in s.client.retries && s.client.sockets == [Clients.Gone];
    systems, steps, s := Took(systems, steps, Own(Clients.RetryFires(1)));
    assert s.client.sockets == [Clients.Gone, Clients.Connecting];
    systems, steps, s := Took(systems, steps, Accept(1, 0));
    systems, steps, s := Took(systems, steps, Own(Clients.Opens(1)));
  }

  /** One request served across a reconnect. Every channel numbers its requests
      from 1, and the result goes out on the new socket under the old number: the
      request that holds it there is settled with somebody else's answer. */
  lemma AServeAcrossAReconnectAnswersTheWrongRequest(lost: Descriptor, other: Descriptor, says: nat)
    returns (systems: seq<System>, steps: seq<Step>)
    ensures Run(systems, steps)
    ensures systems[|steps|].verdicts == [ForRequest(other, Outcome(lost, says))]
  {
    systems, steps := AnotherSocketOpens(lost);
    LastOfARun(systems, steps);
    hide Run;
    var s;
    systems, steps, s := Took(systems, steps, Request(1, 1, other));
    assert s.channels[1].pending == map[1 := other];
    systems, steps, s := Took(systems, steps, Finish(Task(0, 1, lost), says));
    var result := ResultOf(1, Outcome(lost, says));
    assert result in Clients.Sending(s.client, result).sent;
    assert (1, result) in s.up;
    systems, steps, s := Took(systems, steps, CloudHears(1, result, 0));
  }

  // ------------------------------------------------- what can be brought to an end

  /** The two ends are open to each other. */
  predicate Together(s: System) {
    s.client.Connected() && s.Held() in s.channels && !s.channels[s.Held()].closed
  }

  /** Wherever a run has got to with the two ends open to each other, a request can
      be served: in four steps more it is settled by the result of its own work,
      and waits no longer. */
  lemma ARequestCanBeServed(
    systems: seq<System>, steps: seq<Step>, version: nat, descriptor: Descriptor, says: nat, now: nat)
    returns (systems': seq<System>, steps': seq<Step>)
    requires Run(systems, steps) && |systems| == |steps| + 1 && Together(systems[|steps|])
    ensures Run(systems', steps') && |systems'| == |steps'| + 1
    ensures var s, t := systems[|steps|], systems'[|steps'|];
            var socket := s.Held();
            var id, result := s.channels[socket].nextId, Outcome(descriptor, says);
      && steps' == steps + [
           Request(socket, version, descriptor), ConnectorHears(socket, Execute(id, version, descriptor), false),
           Finish(Task(socket, id, descriptor), says), CloudHears(socket, ResultOf(id, result), now)]
      && t.verdicts == s.verdicts + [ForRequest(descriptor, result)]
      && socket in t.channels && t.channels[socket].pending == s.channels[socket].pending - {id}
  {
    var s := systems[|steps|];
    var socket, id := s.Held(), s.channels[s.Held()].nextId;
    var result := Outcome(descriptor, says);
    systems', steps', s := Took(systems, steps, Request(socket, version, descriptor));
    assert (socket, Execute(id, version, descriptor)) in s.down;
    systems', steps', s := Took(systems', steps', ConnectorHears(socket, Execute(id, version, descriptor), false));
    assert ResultOf(id, result) in Clients.Sending(s.client, ResultOf(id, result)).sent;
    systems', steps', s := Took(systems', steps', Finish(Task(socket, id, descriptor), says));
    assert (socket, ResultOf(id, result)) in s.up;
    systems', steps', s := Took(systems', steps', CloudHears(socket, ResultOf(id, result), now));
  }

  /** A question on its way up can be answered: in three steps more it has its
      answer, and waits no longer. */
  lemma AQuestionCanBeAnswered(
    systems: seq<System>, steps: seq<Step>, id: nat, question: Question, says: nat, now: nat)
    returns (systems': seq<System>, steps': seq<Step>)
    requires Run(systems, steps) && |systems| == |steps| + 1 && Together(systems[|steps|])
    requires var s := systems[|steps|];
      (s.Held(), Ask(id, question)) in s.up && id in s.client.pending && s.client.pending[id] == question
    ensures Run(systems', steps') && |systems'| == |steps'| + 1
    ensures var s, t := systems[|steps|], systems'[|steps'|];
            var socket, answer := s.Held(), Answer(question, says);
      && steps' == steps + [
           CloudHears(socket, Ask(id, question), now), CloudAnswers(Heard(socket, id, question), says),
           ConnectorHears(socket, AnswerTo(id, answer), false)]
      && t.verdicts == s.verdicts + [ForQuestion(question, answer)]
      && t.client.pending == s.client.pending - {id}
  {
    var s := systems[|steps|];
    var socket, answer := s.Held(), Answer(question, says);
    systems', steps', s := Took(systems, steps, CloudHears(socket, Ask(id, question), now));
    systems', steps', s := Took(systems', steps', CloudAnswers(Heard(socket, id, question), says));
    assert (socket, AnswerTo(id, answer)) in s.down;
    systems', steps', s := Took(systems', steps', ConnectorHears(socket, AnswerTo(id, answer), false));
  }

  /** And what is published is pulled: Cloud's word of it is heard, and the
      definition asked for on the socket held. */
  lemma APublishIsPulled(systems: seq<System>, steps: seq<Step>, version: nat)
    returns (systems': seq<System>, steps': seq<Step>)
    requires Run(systems, steps) && |systems| == |steps| + 1 && Together(systems[|steps|])
    ensures Run(systems', steps') && |systems'| == |steps'| + 1
    ensures var s, t := systems[|steps|], systems'[|steps'|];
            var socket, id := s.Held(), s.client.nextId;
      && steps' == steps + [Publish(socket, version), ConnectorHears(socket, Notify(version), false)]
      && Together(t) && t.Held() == socket && (socket, Ask(id, PullDefinition)) in t.up
      && id in t.client.pending && t.client.pending[id] == PullDefinition
  {
    var s := systems[|steps|];
    var socket, id := s.Held(), s.client.nextId;
    systems', steps', s := Took(systems, steps, Publish(socket, version));
    assert (socket, Notify(version)) in s.down;
    assert Ask(id, PullDefinition) in Clients.Asking(s.client, PullDefinition).sent;
    systems', steps', s := Took(systems', steps', ConnectorHears(socket, Notify(version), false));
  }

  // ------------------------------------------------- two ends, and what joins them

  /** What a step is to Cloud's end of a socket. */
  function OnTheChannel(step: Step, socket: nat): Outcomes.Option<Channels.Event> {
    match step
    case Request(at, version, descriptor) => if at == socket then Outcomes.Some(Channels.Requested(version, descriptor)) else Outcomes.None
    case Deadline(at, id) => if at == socket then Outcomes.Some(Channels.Expired(id)) else Outcomes.None
    case Drop(at) => if at == socket then Outcomes.Some(Channels.Gone) else Outcomes.None
    case Publish(at, version) => if at == socket then Outcomes.Some(Channels.Notified(version)) else Outcomes.None
    case CloudHears(at, frame, now) => if at == socket then Outcomes.Some(Channels.Received(Known(frame), now)) else Outcomes.None
    case CloudAnswers(q, says) =>
      if q.socket == socket then Outcomes.Some(Channels.Responded(q.id, Answer(q.question, says))) else Outcomes.None
    case _ => Outcomes.None
  }

  /** And to the connector's. */
  function OnTheClient(step: Step): Outcomes.Option<Clients.Event> {
    match step
    case Own(event) => Outcomes.Some(event)
    case ConnectorHears(_, Notify(_), _) => Outcomes.Some(Clients.Pulls)
    case ConnectorHears(_, AnswerTo(id, _), opens) => Outcomes.Some(Clients.Hears(id, opens))
    case _ => Outcomes.None
  }

  /** A channel moves by its own events and no others, and what it sends goes down
      its own socket. */
  lemma EachChannelMovesByItself(s: System, step: Step, socket: nat)
    requires s.client.sockets != [] && Enabled(s, step) && socket in s.channels
    ensures var t, event := Next(s, step), OnTheChannel(step, socket);
      && socket in t.channels
      && if event.None? then t.channels[socket] == s.channels[socket]
         else
           Channels.Possible(s.channels[socket], event.value) &&
           var moved := Channels.Next(s.channels[socket], event.value);
           && t.channels[socket] == moved.channel
           && forall f :: (socket, f) in t.down <==> (socket, f) in s.down || f in moved.sent
  {
    hide Clients.Next, Clients.Asking, Clients.Opening, Clients.Answering, Clients.Sending, Channels.Hearing;
  }

  lemma TheClientMovesByItself(s: System, step: Step)
    requires s.client.sockets != [] && Enabled(s, step)
    ensures var t, event := Next(s, step), OnTheClient(step);
      if event.None? then t.client == s.client
      else Clients.Possible(s.client, event.value) && t.client == Clients.Next(s.client, event.value)
  {
    hide Channels.Hearing, Channels.Abandoning, Channels.Expiring, Channels.Executing;
  }
}
