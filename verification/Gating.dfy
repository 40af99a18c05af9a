/** One TLS connection: the session's read loop and handshake, the service's strand of posted tasks, and the
    dispatch of messages to the application's callbacks. */
module Gating {
  import opened Strings
  import opened Bytes
  import opened Framing

  // ---------------------------------------------------------------- dispatch

  datatype Callback =
    LoginResult | LoginFail | DeviceStatus | AiResult | CameraList | Assign | MetaResult | ImageMeta

  const SUCCESS: byte := 0x02
  const FAIL: byte := 0x03
  const DEVICE: byte := 0x04
  const AVAILABLE: byte := 0x05
  const AI: byte := 0x06
  const CAMERA: byte := 0x07
  const ASSIGN: byte := 0x08
  const META: byte := 0x09
  const IMAGE: byte := 0x0a

  /** The protocol's message types and the callbacks they are for; DEVICE and AVAILABLE share one. */
  const DISPATCH: set<(byte, Callback)> :=
    {(SUCCESS, LoginResult), (FAIL, LoginFail), (DEVICE, DeviceStatus), (AVAILABLE, DeviceStatus), (AI, AiResult),
     (CAMERA, CameraList), (ASSIGN, Assign), (META, MetaResult), (IMAGE, ImageMeta)}

  /** The switch of the processor; other kinds have no callback. */
  function CallbackOf(kind: byte): Option<Callback> {
    match kind
    case 2 => Some(LoginResult)
    case 3 => Some(LoginFail)
    case 4 => Some(DeviceStatus)
    case 5 => Some(DeviceStatus)
    case 6 => Some(AiResult)
    case 7 => Some(CameraList)
    case 8 => Some(Assign)
    case 9 => Some(MetaResult)
    case 10 => Some(ImageMeta)
    case _ => None
  }

  datatype Invocation = Invocation(callback: Callback, body: seq<byte>)

  /** What processing a message invokes, when the callbacks in `set_` are set. */
  function Invoked(set_: set<Callback>, m: Message): seq<Invocation> {
    var cb := CallbackOf(m.kind);
    if cb.Some? && cb.value in set_ && m.payload != [] then [Invocation(cb.value, m.payload)] else []
  }

  /** A set callback is invoked with the payload, and nothing else is, if and only if the payload is not empty and the
      type is one of the callback's own. */
  lemma DispatchIff(set_: set<Callback>, m: Message, callback: Callback)
    requires callback in set_
    ensures Invoked(set_, m) == [Invocation(callback, m.payload)] <==> m.payload != [] && (m.kind, callback) in DISPATCH
    ensures (m.payload == [] || forall c :: c in set_ ==> (m.kind, c) !in DISPATCH) ==> Invoked(set_, m) == []
  {
    var cb := CallbackOf(m.kind);
    if cb.Some? {
      assert (m.kind, cb.value) in DISPATCH;
    }
  }

  /** Messages that invoke the same callback with the same body differ at most in being DEVICE or AVAILABLE. */
  lemma DispatchTellsApart(set_: set<Callback>, m: Message, n: Message)
    ensures Invoked(set_, m) == Invoked(set_, n) != [] ==> m == n || ({m.kind, n.kind} == {4, 5} && m.payload == n.payload)
  {
    if Invoked(set_, m) == Invoked(set_, n) != [] {
      assert Invoked(set_, m)[0] == Invoked(set_, n)[0];
    }
  }

  class MessageProcessor {
    const callbacks: set<Callback>
    var invoked: seq<Invocation>

    constructor (callbacks: set<Callback>)
      ensures this.callbacks == callbacks && invoked == []
    {
      this.callbacks := callbacks;
      invoked := [];
    }

    method Forward(callback: Callback, m: Message)
      modifies this
      ensures invoked == old(invoked)
                         + if callback in callbacks && m.payload != [] then [Invocation(callback, m.payload)] else []
    {
      if callback in callbacks && m.payload != [] {
        invoked := invoked + [Invocation(callback, m.payload)];
      }
    }

    method ProcessMessage(m: Message)
      modifies this
      ensures invoked == old(invoked) + Invoked(callbacks, m)
    {
      match m.kind {
        case 2 => Forward(LoginResult, m);
        case 3 => Forward(LoginFail, m);
        case 4 => Forward(DeviceStatus, m);
        case 5 => Forward(DeviceStatus, m);
        case 6 => Forward(AiResult, m);
        case 7 => Forward(CameraList, m);
        case 8 => Forward(Assign, m);
        case 9 => Forward(MetaResult, m);
        case 10 => Forward(ImageMeta, m);
        case _ =>
      }
    }
  }

  // ----------------------------------------------------------------- session

  datatype Phase = AtHeader | AtBody(kind: byte) | Stopped

  /** `readable`: the read under way was issued while the socket was open, so it can still succeed.
      `handshakeDone` is the TLS engine's own view, `handshakeCompleted` the session's. */
  datatype Session = Session(
    phase: Phase,
    readable: bool,
    closed: bool,
    handshakeDone: bool,
    handshakeCompleted: bool,
    disconnected: bool,
    outbox: seq<Message>)

  const STARTED: Session := Session(AtHeader, true, false, false, false, false, [])

  /** A call of one of the session's three handlers. */
  datatype Call = Connected | Disconnected | Received(message: Message)

  datatype Did = Did(session: Session, call: Option<Call>)

  function NextRead(s: Session, phase: Phase): Session {
    s.(phase := phase, readable := !s.closed)
  }

  function AfterHeader(s: Session, kind: byte, length: nat): Did {
    if length > 0 then Did(NextRead(s, AtBody(kind)), None)
    else Did(NextRead(s, AtHeader), if kind == TLS_HANDSHAKE then None else Some(Received(Message(kind, []))))
  }

  /** The body decrypted to `plain`, after which the TLS engine reports `done`. */
  function AfterBody(s: Session, plain: seq<byte>, done: bool): Did
    requires s.phase.AtBody?
  {
    var t := NextRead(s, AtHeader).(handshakeDone := done);
    if s.phase.kind != TLS_HANDSHAKE then
      Did(t, if plain != [] then Some(Received(Message(s.phase.kind, plain))) else None)
    else if done && !s.handshakeCompleted then Did(t.(handshakeCompleted := true), Some(Connected))
    else Did(t, None)
  }

  function AfterError(s: Session): Did {
    if s.disconnected then Did(s, None) else Did(s.(disconnected := true, closed := true), Some(Disconnected))
  }

  class TcpSession {
    var phase: Phase
    var readable: bool
    var closed: bool
    var handshakeDone: bool
    var handshakeCompleted: bool
    var disconnected: bool
    /** Writes posted to the session's own strand. */
    var outbox: seq<Message>

    constructor ()
      ensures State() == STARTED
    {
      phase, readable, closed := AtHeader, true, false;
      handshakeDone, handshakeCompleted, disconnected, outbox := false, false, false, [];
    }

    ghost function State(): Session
      reads this
    {
      Session(phase, readable, closed, handshakeDone, handshakeCompleted, disconnected, outbox)
    }

    method SendMessage(m: Message)
      modifies this
      ensures State() == old(State()).(outbox := old(outbox) + [m])
    {
      outbox := outbox + [m];
    }

    method Close()
      modifies this
      ensures State() == old(State()).(closed := true)
    {
      closed := true;
    }

    method Read(next: Phase)
      modifies this
      ensures State() == NextRead(old(State()), next)
    {
      phase, readable := next, !closed;
    }

    method HeaderRead(kind: byte, length: nat) returns (call: Option<Call>)
      modifies this
      ensures Did(State(), call) == AfterHeader(old(State()), kind, length)
    {
      call := None;
      if length > 0 {
        Read(AtBody(kind));
      } else {
        if kind != TLS_HANDSHAKE {
          call := Some(Received(Message(kind, [])));
        }
        Read(AtHeader);
      }
    }

    method BodyRead(plain: seq<byte>, done: bool) returns (call: Option<Call>)
      requires phase.AtBody?
      modifies this
      ensures Did(State(), call) == AfterBody(old(State()), plain, done)
    {
      var kind := phase.kind;
      handshakeDone := done;
      call := None;
      if kind == TLS_HANDSHAKE {
        if handshakeDone && !handshakeCompleted {
          handshakeCompleted := true;
          call := Some(Connected);
        }
        Read(AtHeader);
        return;
      }
      if plain != [] {
        call := Some(Received(Message(kind, plain)));
      }
      Read(AtHeader);
    }

    /** A read that fails is the last one. */
    method ReadFailed() returns (call: Option<Call>)
      modifies this
      ensures Did(State(), call) == AfterError(old(State()).(phase := Stopped))
    {
      phase := Stopped;
      call := HandleDisconnect();
    }

    method HandleDisconnect() returns (call: Option<Call>)
      modifies this
      ensures Did(State(), call) == AfterError(old(State()))
    {
      call := None;
      if !disconnected {
        disconnected := true;
        Close();
        call := Some(Disconnected);
      }
    }
  }

  // ----------------------------------------------------------------- service

  /** What is posted to the service's strand, which runs its tasks one at a time in the order they were posted. */
  datatype Task =
    | SetConnected
    | ClearConnected
    | Process(message: Message)
    | ShowImage(body: seq<byte>)
    | Send(message: Message)
    | Teardown

  datatype Service = Service(connected: bool, hasSession: bool, hasProcessor: bool, queue: seq<Task>)

  function TaskOf(call: Call): Task {
    match call
    case Connected => SetConnected
    case Disconnected => ClearConnected
    case Received(m) => Process(m)
  }

  datatype Event =
    | HandshakeDone
    | ConnectedHandler
    | DisconnectHandler
    | OnConnected
    | OnCallback(invocation: Invocation)
    | Wrote(message: Message)

  datatype Effect = Effect(service: Service, session: Session, event: Option<Event>)

  /** IMAGE metadata goes through a wrapper that is always set: it posts the work instead of calling back. */
  function AfterProcess(v: Service, s: Session, set_: set<Callback>, m: Message): Effect {
    if !v.hasProcessor then Effect(v, s, None) else
    var called := Invoked(set_ + {ImageMeta}, m);
    if called == [] then Effect(v, s, None)
    else if called[0].callback == ImageMeta then Effect(v.(queue := v.queue + [ShowImage(called[0].body)]), s, None)
    else Effect(v, s, Some(OnCallback(called[0])))
  }

  /** A task runs; `reply` is the message with the UDP port, `set_` the application's callbacks. */
  function AfterTask(v: Service, s: Session, set_: set<Callback>, task: Task, reply: Message): Effect {
    match task
    case SetConnected => Effect(v.(connected := true), s, Some(OnConnected))
    case ClearConnected => Effect(v.(connected := false), s, None)
    case Process(m) => AfterProcess(v, s, set_, m)
    case ShowImage(body) =>
      Effect(v.(queue := v.queue + [Send(reply)]), s,
             if ImageMeta in set_ then Some(OnCallback(Invocation(ImageMeta, body))) else None)
    case Send(m) => Effect(v, if v.hasSession && v.connected then s.(outbox := s.outbox + [m]) else s, None)
    case Teardown =>
      Effect(v.(connected := false, hasSession := false, hasProcessor := false),
             if v.hasSession then s.(closed := true) else s, None)
  }

  /** The strand takes its first task and runs it. */
  function AfterFirst(v: Service, s: Session, set_: set<Callback>, reply: Message): Effect
    requires v.queue != []
  {
    AfterTask(v.(queue := v.queue[1..]), s, set_, v.queue[0], reply)
  }

  class NetworkService {
    var connected: bool
    var session: TcpSession?
    var processor: MessageProcessor?
    var queue: seq<Task>
    const callbacks: set<Callback>

    /** The service once the socket has connected and the session was started; the flag is not reset. */
    constructor (connected: bool, session: TcpSession, callbacks: set<Callback>)
      ensures Valid() && this.session == session && this.callbacks == callbacks
      ensures State() == Service(connected, true, true, [])
    {
      this.connected, this.session, this.callbacks, this.queue := connected, session, callbacks, [];
      new;
      processor := new MessageProcessor(callbacks + {ImageMeta});
    }

    ghost predicate Valid()
      reads this
    {
      processor != null ==> processor.callbacks == callbacks + {ImageMeta}
    }

    ghost function State(): Service
      reads this
    {
      Service(connected, session != null, processor != null, queue)
    }

    /** The session's handlers do nothing but post. */
    method Handle(call: Call)
      modifies this`queue
      ensures queue == old(queue) + [TaskOf(call)]
    {
      match call {
        case Connected => queue := queue + [SetConnected];
        case Disconnected => queue := queue + [ClearConnected];
        case Received(m) => queue := queue + [Process(m)];
      }
    }

    method ProcessNow(m: Message, ghost s: Session) returns (event: Option<Event>)
      requires Valid()
      modifies this`queue, processor
      ensures Valid()
      ensures Effect(State(), s, event) == AfterProcess(old(State()), s, callbacks, m)
    {
      event := None;
      if processor != null {
        var before := |processor.invoked|;
        processor.ProcessMessage(m);
        if |processor.invoked| > before {
          var call := processor.invoked[before];
          if call.callback == ImageMeta {
            queue := queue + [ShowImage(call.body)];
          } else {
            event := Some(OnCallback(call));
          }
        }
      }
    }

    method RunFirst(reply: Message, ghost s: Session) returns (event: Option<Event>)
      requires Valid() && queue != []
      requires session != null ==> s == session.State()
      modifies this, session, processor
      ensures Valid()
      ensures Effect(State(), if old(session) == null then s else old(session).State(), event)
           == AfterFirst(old(State()), s, callbacks, reply)
    {
      var task := queue[0];
      queue := queue[1..];
      event := RunTask(task, reply, s);
    }

    method RunTask(task: Task, reply: Message, ghost s: Session) returns (event: Option<Event>)
      requires Valid()
      requires session != null ==> s == session.State()
      modifies this, session, processor
      ensures Valid()
      ensures Effect(State(), if old(session) == null then s else old(session).State(), event)
           == AfterTask(old(State()), s, callbacks, task, reply)
    {
      event := None;
      match task {
        case SetConnected =>
          connected := true;
          event := Some(OnConnected);
        case ClearConnected =>
          connected := false;
        case Process(m) =>
          event := ProcessNow(m, s);
        case ShowImage(body) =>
          event := Show(body, reply);
        case Send(m) =>
          if session != null && connected {
            session.SendMessage(m);
          }
        case Teardown =>
          TearDown();
      }
    }

    method Show(body: seq<byte>, reply: Message) returns (event: Option<Event>)
      modifies this`queue
      ensures queue == old(queue) + [Send(reply)]
      ensures event == if ImageMeta in callbacks then Some(OnCallback(Invocation(ImageMeta, body))) else None
    {
      queue := queue + [Send(reply)];
      event := None;
      if ImageMeta in callbacks {
        event := Some(OnCallback(Invocation(ImageMeta, body)));
      }
    }

    method TearDown()
      modifies this, session
      ensures State() == Service(false, false, false, old(queue))
      ensures old(session) != null ==> old(session).State() == old(session.State()).(closed := true)
    {
      connected := false;
      if session != null {
        session.Close();
        session := null;
      }
      processor := null;
    }
  }
}
