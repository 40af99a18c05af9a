/** What a connection may do, and in which order, over every run of reads, errors, tasks and application calls. */
module GatingTheorems {
  import opened Strings
  import opened Bytes
  import opened Framing
  import opened Gating

  /** A started session and its service, with everything that happened so far. */
  datatype Link = Link(session: Session, service: Service, log: seq<Event>)

  /** A session starts with whatever the connected flag was left at. */
  function Start(connected: bool): Link {
    Link(STARTED, Service(connected, true, true, []), [])
  }

  datatype Step =
    | HeaderArrives(kind: byte, length: nat)
    | BodyArrives(plain: seq<byte>, done: bool)
    | ReadFails
    | WriteFails
    | WriteNext
    | RunTask(reply: Message)
    | AppSend(message: Message)
    | CallDisconnect

  /** A read succeeds only if it was issued on an open socket. The TLS engine never takes its handshake back, and
      decrypts nothing before the end of it. */
  predicate Possible(l: Link, step: Step) {
    match step
    case HeaderArrives(_, _) => l.session.phase.AtHeader? && l.session.readable
    case BodyArrives(plain, done) =>
      && l.session.phase.AtBody? && l.session.readable
      && (l.session.handshakeDone || plain != [] ==> done)
    case ReadFails => !l.session.phase.Stopped?
    case WriteNext => l.session.outbox != []
    case RunTask(_) => l.service.queue != []
    case _ => true
  }

  function Logged(log: seq<Event>, event: Option<Event>): seq<Event> {
    if event.Some? then log + [event.value] else log
  }

  function EventOf(call: Call): Option<Event> {
    match call
    case Connected => Some(ConnectedHandler)
    case Disconnected => Some(DisconnectHandler)
    case Received(_) => None
  }

  /** The session did something; a handler it called posts to the service's strand. */
  function Noted(l: Link, did: Did): Link {
    var m := l.(session := did.session);
    match did.call
    case None => m
    case Some(call) => Posted(m, TaskOf(call)).(log := Logged(l.log, EventOf(call)))
  }

  function Ran(l: Link, e: Effect): Link {
    Link(e.session, e.service, Logged(l.log, e.event))
  }

  function Posted(l: Link, task: Task): Link {
    l.(service := l.service.(queue := l.service.queue + [task]))
  }

  /** The next posted write goes out, unless the socket is closed. */
  function AfterWrite(l: Link): Link
    requires l.session.outbox != []
  {
    var s := l.session;
    Link(s.(outbox := s.outbox[1..]), l.service, Logged(l.log, if s.closed then None else Some(Wrote(s.outbox[0]))))
  }

  function Take(l: Link, set_: set<Callback>, step: Step): Link
    requires Possible(l, step)
  {
    var s := l.session;
    match step
    case HeaderArrives(kind, length) => Noted(l, AfterHeader(s, kind, length))
    case BodyArrives(plain, done) => Noted(Handshaken(l, done), AfterBody(s, plain, done))
    case ReadFails => Noted(l, AfterError(s.(phase := Stopped)))
    case WriteFails => Noted(l, AfterError(s))
    case WriteNext => AfterWrite(l)
    case RunTask(reply) => Ran(l, AfterFirst(l.service, s, set_, reply))
    case AppSend(m) => Posted(l, Send(m))
    case CallDisconnect => Posted(l, Teardown)
  }

  function Handshaken(l: Link, done: bool): Link {
    l.(log := Logged(l.log, if done && !l.session.handshakeDone then Some(HandshakeDone) else None))
  }

  predicate AllPossible(l: Link, set_: set<Callback>, steps: seq<Step>)
    decreases |steps|
  {
    steps == [] || (Possible(l, steps[0]) && AllPossible(Take(l, set_, steps[0]), set_, steps[1..]))
  }

  function Run(l: Link, set_: set<Callback>, steps: seq<Step>): Link
    requires AllPossible(l, set_, steps)
    decreases |steps|
  {
    if steps == [] then l else Run(Take(l, set_, steps[0]), set_, steps[1..])
  }

  // ------------------------------------------------------------- the claims

  /** What must have happened before an event. */
  predicate Allowed(before: seq<Event>, e: Event) {
    match e
    case ConnectedHandler => HandshakeDone in before
    case OnConnected => ConnectedHandler in before
    case OnCallback(_) => HandshakeDone in before
    case Wrote(_) => OnConnected in before
    case _ => true
  }

  predicate Ordered(log: seq<Event>) {
    forall i :: 0 <= i < |log| ==> Allowed(log[..i], log[i])
  }

  ghost predicate AtMostOnce(log: seq<Event>, e: Event) {
    multiset(log)[e] <= 1
  }

  ghost predicate Gated(log: seq<Event>) {
    && Ordered(log)
    && AtMostOnce(log, ConnectedHandler) && AtMostOnce(log, OnConnected) && AtMostOnce(log, DisconnectHandler)
  }

  lemma OrderedOn(log: seq<Event>, e: Event)
    requires Ordered(log) && Allowed(log, e)
    ensures Ordered(log + [e])
  {
    var more := log + [e];
    forall i | 0 <= i < |more| ensures Allowed(more[..i], more[i]) {
      assert more[..i] == log[..i];
    }
  }

  // ---------------------------------------------------------- the invariant

  function Ones(b: bool): nat {
    if b then 1 else 0
  }

  ghost predicate Counted(l: Link) {
    && multiset(l.log)[HandshakeDone] == Ones(l.session.handshakeDone)
    && multiset(l.log)[ConnectedHandler] == Ones(l.session.handshakeCompleted)
    && multiset(l.log)[DisconnectHandler] == Ones(l.session.disconnected)
    && multiset(l.log)[OnConnected] + multiset(l.service.queue)[SetConnected] == Ones(l.session.handshakeCompleted)
  }

  /** A task that may lead to a callback. */
  predicate Delivers(task: Task) {
    (task.Process? && task.message.payload != []) || task.ShowImage?
  }

  ghost predicate Guarded(l: Link) {
    && (l.session.handshakeCompleted ==> l.session.handshakeDone)
    && (forall task <- l.service.queue :: Delivers(task) ==> l.session.handshakeDone)
    && (l.service.connected || l.session.outbox != [] ==> OnConnected in l.log)
  }

  ghost predicate Inv(l: Link) {
    Counted(l) && Guarded(l) && Ordered(l.log)
  }

  /** The parts of the state the invariant looks at agree. */
  predicate SameFacts(s: Session, t: Session) {
    && s.handshakeDone == t.handshakeDone && s.handshakeCompleted == t.handshakeCompleted
    && s.disconnected == t.disconnected && (t.outbox != [] ==> s.outbox != [])
  }

  lemma SessionMoves(l: Link, t: Session)
    requires Inv(l) && SameFacts(l.session, t)
    ensures Inv(l.(session := t))
  {
  }

  lemma PostKeepsInv(l: Link, task: Task)
    requires Inv(l) && !task.SetConnected? && (Delivers(task) ==> l.session.handshakeDone)
    ensures Inv(Posted(l, task))
  {
  }

  lemma HandshakeKeepsInv(l: Link, done: bool)
    requires Inv(l) && (l.session.handshakeDone ==> done)
    ensures Inv(Handshaken(l, done).(session := l.session.(handshakeDone := done)))
  {
    if done && !l.session.handshakeDone {
      OrderedOn(l.log, HandshakeDone);
    }
  }

  /** What a handler call tells, the session has just come to be. */
  predicate Fair(s: Session, did: Did) {
    match did.call
    case None => SameFacts(s, did.session)
    case Some(Connected) =>
      s.handshakeDone && !s.handshakeCompleted && SameFacts(s.(handshakeCompleted := true), did.session)
    case Some(Disconnected) => !s.disconnected && SameFacts(s.(disconnected := true), did.session)
    case Some(Received(m)) => (m.payload != [] ==> s.handshakeDone) && SameFacts(s, did.session)
  }

  lemma ConnectedKeepsInv(l: Link)
    requires Inv(l) && l.session.handshakeDone && !l.session.handshakeCompleted
    ensures Inv(Noted(l, Did(l.session.(handshakeCompleted := true), Some(Connected))))
  {
    OrderedOn(l.log, ConnectedHandler);
  }

  lemma DisconnectedKeepsInv(l: Link)
    requires Inv(l) && !l.session.disconnected
    ensures Inv(Noted(l, Did(l.session.(disconnected := true), Some(Disconnected))))
  {
    OrderedOn(l.log, DisconnectHandler);
  }

  lemma NotedKeepsInv(l: Link, did: Did)
    requires Inv(l) && Fair(l.session, did)
    ensures Inv(Noted(l, did))
  {
    var m := l;
    match did.call {
      case None =>
      case Some(Connected) =>
        ConnectedKeepsInv(l);
        m := Noted(l, Did(l.session.(handshakeCompleted := true), did.call));
      case Some(Disconnected) =>
        DisconnectedKeepsInv(l);
        m := Noted(l, Did(l.session.(disconnected := true), did.call));
      case Some(Received(message)) =>
        PostKeepsInv(l, Process(message));
        m := Posted(l, Process(message));
    }
    SessionMoves(m, did.session);
    assert Noted(l, did) == m.(session := did.session);
  }

  lemma BodyKeepsInv(l: Link, plain: seq<byte>, done: bool)
    requires Inv(l) && Possible(l, BodyArrives(plain, done))
    ensures Inv(Noted(Handshaken(l, done), AfterBody(l.session, plain, done)))
  {
    HandshakeKeepsInv(l, done);
    var h := Handshaken(l, done).(session := l.session.(handshakeDone := done));
    var did := AfterBody(l.session, plain, done);
    assert Fair(h.session, did);
    NotedKeepsInv(h, did);
    assert Noted(Handshaken(l, done), did) == Noted(h, did);
  }

  lemma FirstTaskKeepsInv(l: Link, task: Task, rest: seq<Task>)
    requires Inv(l) && l.service.queue == [task] + rest && !task.SetConnected?
    ensures Inv(l.(service := l.service.(queue := rest)))
  {
    assert multiset(l.service.queue) == multiset([task]) + multiset(rest);
  }

  lemma SetConnectedKeepsInv(l: Link, rest: seq<Task>)
    requires Inv(l) && l.service.queue == [SetConnected] + rest
    ensures Inv(l.(service := l.service.(queue := rest, connected := true), log := l.log + [OnConnected]))
  {
    assert multiset(l.service.queue) == multiset([SetConnected]) + multiset(rest);
    assert ConnectedHandler in multiset(l.log);
    OrderedOn(l.log, OnConnected);
  }

  lemma CallbackKeepsInv(l: Link, call: Invocation)
    requires Inv(l) && l.session.handshakeDone
    ensures Inv(l.(log := l.log + [OnCallback(call)]))
  {
    assert HandshakeDone in multiset(l.log);
    OrderedOn(l.log, OnCallback(call));
  }

  lemma ProcessKeepsInv(l: Link, set_: set<Callback>, m: Message)
    requires Inv(l) && (m.payload != [] ==> l.session.handshakeDone)
    ensures Inv(Ran(l, AfterProcess(l.service, l.session, set_, m)))
  {
    var called := Invoked(set_ + {ImageMeta}, m);
    if l.service.hasProcessor && called != [] {
      if called[0].callback == ImageMeta {
        PostKeepsInv(l, ShowImage(called[0].body));
        assert Ran(l, AfterProcess(l.service, l.session, set_, m)) == Posted(l, ShowImage(called[0].body));
      } else {
        CallbackKeepsInv(l, called[0]);
      }
    }
  }

  lemma ShowKeepsInv(l: Link, set_: set<Callback>, body: seq<byte>, reply: Message)
    requires Inv(l) && l.session.handshakeDone
    ensures Inv(Ran(l, AfterTask(l.service, l.session, set_, ShowImage(body), reply)))
  {
    var m := Posted(l, Send(reply));
    PostKeepsInv(l, Send(reply));
    if ImageMeta in set_ {
      CallbackKeepsInv(m, Invocation(ImageMeta, body));
    }
  }

  lemma TaskKeepsInv(l: Link, set_: set<Callback>, task: Task, reply: Message)
    requires Inv(l) && !task.SetConnected? && (Delivers(task) ==> l.session.handshakeDone)
    ensures Inv(Ran(l, AfterTask(l.service, l.session, set_, task, reply)))
  {
    match task {
      case ShowImage(body) => ShowKeepsInv(l, set_, body, reply);
      case Process(message) => ProcessKeepsInv(l, set_, message);
      case _ =>
    }
  }

  lemma FirstKeepsInv(l: Link, set_: set<Callback>, reply: Message)
    requires Inv(l) && l.service.queue != []
    ensures Inv(Ran(l, AfterFirst(l.service, l.session, set_, reply)))
  {
    var task, rest := l.service.queue[0], l.service.queue[1..];
    assert l.service.queue == [task] + rest && task in l.service.queue;
    if task == SetConnected {
      SetConnectedKeepsInv(l, rest);
    } else {
      FirstTaskKeepsInv(l, task, rest);
      TaskKeepsInv(l.(service := l.service.(queue := rest)), set_, task, reply);
    }
  }

  lemma WriteKeepsInv(l: Link)
    requires Inv(l) && l.session.outbox != []
    ensures Inv(AfterWrite(l))
  {
    SessionMoves(l, l.session.(outbox := l.session.outbox[1..]));
    if !l.session.closed {
      OrderedOn(l.log, Wrote(l.session.outbox[0]));
    }
  }

  lemma StepKeepsInv(l: Link, set_: set<Callback>, step: Step)
    requires Inv(l) && Possible(l, step)
    ensures Inv(Take(l, set_, step))
  {
    match step {
      case HeaderArrives(kind, length) => NotedKeepsInv(l, AfterHeader(l.session, kind, length));
      case BodyArrives(plain, done) => BodyKeepsInv(l, plain, done);
      case ReadFails => NotedKeepsInv(l, AfterError(l.session.(phase := Stopped)));
      case WriteFails => NotedKeepsInv(l, AfterError(l.session));
      case WriteNext => WriteKeepsInv(l);
      case RunTask(reply) => FirstKeepsInv(l, set_, reply);
      case AppSend(m) => PostKeepsInv(l, Send(m));
      case CallDisconnect => PostKeepsInv(l, Teardown);
    }
  }

  lemma {:induction false} RunKeepsInv(l: Link, set_: set<Callback>, steps: seq<Step>)
    requires Inv(l) && AllPossible(l, set_, steps)
    ensures Inv(Run(l, set_, steps))
    decreases |steps|
  {
    if steps != [] {
      StepKeepsInv(l, set_, steps[0]);
      RunKeepsInv(Take(l, set_, steps[0]), set_, steps[1..]);
    }
  }

  /** Over every run of a connection that starts with the flag down: the connected handler fires at most once and
      only after the handshake; no callback fires before the handshake, whatever frames come; no application frame
      is written before the connected callback has run; the disconnect handler fires at most once. */
  lemma ConnectionGating(set_: set<Callback>, steps: seq<Step>)
    requires AllPossible(Start(false), set_, steps)
    ensures Gated(Run(Start(false), set_, steps).log)
  {
    RunKeepsInv(Start(false), set_, steps);
  }

  // ------------------------------------------------------------- longer runs

  lemma {:induction false} RunOn(l: Link, set_: set<Callback>, steps: seq<Step>, step: Step)
    requires AllPossible(l, set_, steps) && Possible(Run(l, set_, steps), step)
    ensures AllPossible(l, set_, steps + [step])
    ensures Run(l, set_, steps + [step]) == Take(Run(l, set_, steps), set_, step)
    decreases |steps|
  {
    var more := steps + [step];
    if steps == [] {
      assert more[1..] == [];
      assert AllPossible(Take(l, set_, step), set_, more[1..]);
      assert Run(Take(l, set_, step), set_, more[1..]) == Take(l, set_, step);
    } else {
      assert more[1..] == steps[1..] + [step];
      RunOn(Take(l, set_, steps[0]), set_, steps[1..], step);
    }
  }
}
