/** What does happen on a connection: handlers are called, messages reach their callbacks, sends are written. */
module GatingProgress {
  import opened Strings
  import opened Bytes
  import opened Framing
  import opened Gating
  import opened GatingTheorems
  import opened Reconnect

  // ------------------------------------------------------------ single steps

  /** A header starts a body; with length zero it is a whole message, which is posted unless it is a handshake frame. */
  lemma HeaderLeads(l: Link, set_: set<Callback>, kind: byte, length: nat)
    requires Possible(l, HeaderArrives(kind, length))
    ensures var m := Take(l, set_, HeaderArrives(kind, length));
            && m.session == l.session.(phase := if length > 0 then AtBody(kind) else AtHeader, readable := !l.session.closed)
            && m.log == l.log
            && m.service == l.service.(queue := l.service.queue
                              + if length == 0 && kind != TLS_HANDSHAKE then [Process(Message(kind, []))] else [])
  {
    assert l.service.queue + [] == l.service.queue;
  }

  /** A body of a handshake frame completes the handshake once; any other body with content is posted as a message. */
  lemma BodyLeads(l: Link, set_: set<Callback>, plain: seq<byte>, done: bool)
    requires Possible(l, BodyArrives(plain, done))
    ensures var m := Take(l, set_, BodyArrives(plain, done));
            var kind := l.session.phase.kind;
            var completes := kind == TLS_HANDSHAKE && done && !l.session.handshakeCompleted;
            && m.session == l.session.(phase := AtHeader, readable := !l.session.closed, handshakeDone := done,
                                       handshakeCompleted := l.session.handshakeCompleted || completes)
            && m.service == l.service.(queue := l.service.queue
                              + if completes then [SetConnected]
                                else if kind != TLS_HANDSHAKE && plain != [] then [Process(Message(kind, plain))] else [])
            && (completes ==> m.log[|m.log| - 1..] == [ConnectedHandler])
  {
    assert l.service.queue + [] == l.service.queue;
  }

  /** The first error closes the socket, calls the disconnect handler and posts the lowering of the flag; a read error
      also ends the reading. */
  lemma ErrorLeads(l: Link, set_: set<Callback>, step: Step)
    requires (step.ReadFails? || step.WriteFails?) && Possible(l, step)
    ensures var m := Take(l, set_, step);
            && m.session.phase == (if step.ReadFails? then Stopped else l.session.phase)
            && m.session == l.session.(phase := m.session.phase, disconnected := true,
                                       closed := l.session.closed || !l.session.disconnected)
            && (if l.session.disconnected then m.log == l.log && m.service == l.service
                else m.log == l.log + [DisconnectHandler]
                     && m.service == l.service.(queue := l.service.queue + [ClearConnected]))
  {
  }

  /** Writes go out in the order they were posted, while the socket is open. */
  lemma WriteLeads(l: Link, set_: set<Callback>)
    requires l.session.outbox != []
    ensures var m := Take(l, set_, WriteNext);
            && l.session.outbox == [l.session.outbox[0]] + m.session.outbox
            && m == l.(session := l.session.(outbox := m.session.outbox), log := m.log)
            && m.log == l.log + if l.session.closed then [] else [Wrote(l.session.outbox[0])]
  {
    assert l.log + [] == l.log;
  }

  /** Application calls only post. */
  lemma CallsPost(l: Link, set_: set<Callback>, m: Message)
    ensures Take(l, set_, AppSend(m)) == l.(service := l.service.(queue := l.service.queue + [Send(m)]))
    ensures Take(l, set_, CallDisconnect) == l.(service := l.service.(queue := l.service.queue + [Teardown]))
  {
  }

  // ------------------------------------------------------------------- reading

  /** While the socket is open and no read has failed, the read under way can succeed. */
  predicate Reading(l: Link) {
    l.session.closed || l.session.phase.Stopped? || l.session.readable
  }

  lemma {:induction false} KeepsReading(l: Link, set_: set<Callback>, steps: seq<Step>)
    requires Reading(l) && AllPossible(l, set_, steps)
    ensures Reading(Run(l, set_, steps))
    decreases |steps|
  {
    if steps != [] {
      StepKeepsReading(l, set_, steps[0]);
      KeepsReading(Take(l, set_, steps[0]), set_, steps[1..]);
    }
  }

  lemma StepKeepsReading(l: Link, set_: set<Callback>, step: Step)
    requires Reading(l) && Possible(l, step)
    ensures Reading(Take(l, set_, step))
  {
    match step {
      case HeaderArrives(kind, length) => HeaderLeads(l, set_, kind, length);
      case BodyArrives(plain, done) => BodyLeads(l, set_, plain, done);
      case ReadFails => ErrorLeads(l, set_, step);
      case WriteFails => ErrorLeads(l, set_, step);
      case WriteNext => WriteLeads(l, set_);
      case RunTask(reply) =>
      case AppSend(m) => CallsPost(l, set_, m);
      case CallDisconnect => CallsPost(l, set_, Message(0, []));
    }
  }

  // ------------------------------------------------------------- handler calls

  /** The step brings a handshake frame after which the TLS engine is done. */
  predicate EndsInHandshakeFrame(l: Link, step: Step) {
    step.BodyArrives? && step.done && l.session.phase == AtBody(TLS_HANDSHAKE)
  }

  predicate SomeEnds(l: Link, set_: set<Callback>, steps: seq<Step>)
    requires AllPossible(l, set_, steps)
    decreases |steps|
  {
    steps != [] && (EndsInHandshakeFrame(l, steps[0]) || SomeEnds(Take(l, set_, steps[0]), set_, steps[1..]))
  }

  predicate SomeError(steps: seq<Step>) {
    ReadFails in steps || WriteFails in steps
  }

  /** The flags of the session say what was called. */
  predicate Called(l: Link) {
    && (l.session.handshakeCompleted <==> ConnectedHandler in l.log)
    && (l.session.disconnected <==> DisconnectHandler in l.log)
  }

  lemma TaskCallsNeither(v: Service, s: Session, set_: set<Callback>, task: Task, reply: Message)
    ensures var e := AfterTask(v, s, set_, task, reply);
            && e.event !in {Some(ConnectedHandler), Some(DisconnectHandler)}
            && e.session.handshakeCompleted == s.handshakeCompleted && e.session.disconnected == s.disconnected
  {
  }

  lemma OthersNotLogged(log: seq<Event>, event: Option<Event>, other: Event)
    requires event != Some(other)
    ensures other in Logged(log, event) <==> other in log
  {
  }

  lemma TaskCallsNothing(l: Link, set_: set<Callback>, reply: Message)
    requires l.service.queue != []
    ensures var m := Take(l, set_, RunTask(reply));
            && m.session.handshakeCompleted == l.session.handshakeCompleted
            && m.session.disconnected == l.session.disconnected
            && (ConnectedHandler in m.log <==> ConnectedHandler in l.log)
            && (DisconnectHandler in m.log <==> DisconnectHandler in l.log)
  {
    var v, task := l.service.(queue := l.service.queue[1..]), l.service.queue[0];
    var event := AfterTask(v, l.session, set_, task, reply).event;
    TaskCallsNeither(v, l.session, set_, task, reply);
    OthersNotLogged(l.log, event, ConnectedHandler);
    OthersNotLogged(l.log, event, DisconnectHandler);
  }

  lemma StepCalls(l: Link, set_: set<Callback>, step: Step)
    requires Called(l) && Possible(l, step)
    ensures var m := Take(l, set_, step);
            && Called(m)
            && (m.session.handshakeCompleted <==> l.session.handshakeCompleted || EndsInHandshakeFrame(l, step))
            && (m.session.disconnected <==> l.session.disconnected || step.ReadFails? || step.WriteFails?)
  {
    match step {
      case HeaderArrives(kind, length) => HeaderLeads(l, set_, kind, length);
      case BodyArrives(plain, done) =>
      case ReadFails => ErrorLeads(l, set_, step);
      case WriteFails => ErrorLeads(l, set_, step);
      case WriteNext => WriteLeads(l, set_);
      case RunTask(reply) => TaskCallsNothing(l, set_, reply);
      case AppSend(m) => CallsPost(l, set_, m);
      case CallDisconnect => CallsPost(l, set_, Message(0, []));
    }
  }

  lemma {:induction false} RunCalls(l: Link, set_: set<Callback>, steps: seq<Step>)
    requires Called(l) && AllPossible(l, set_, steps)
    ensures var m := Run(l, set_, steps);
            && Called(m)
            && (m.session.handshakeCompleted <==> l.session.handshakeCompleted || SomeEnds(l, set_, steps))
            && (m.session.disconnected <==> l.session.disconnected || SomeError(steps))
    decreases |steps|
  {
    if steps != [] {
      StepCalls(l, set_, steps[0]);
      RunCalls(Take(l, set_, steps[0]), set_, steps[1..]);
      assert steps == [steps[0]] + steps[1..];
    }
  }

  /** In every run the connected handler is called if and only if some handshake frame left the TLS engine done, and the
      disconnect handler if and only if some read or write failed. */
  lemma HandlersCalledIff(connected: bool, set_: set<Callback>, steps: seq<Step>)
    requires AllPossible(Start(connected), set_, steps)
    ensures ConnectedHandler in Run(Start(connected), set_, steps).log <==> SomeEnds(Start(connected), set_, steps)
    ensures DisconnectHandler in Run(Start(connected), set_, steps).log <==> SomeError(steps)
  {
    RunCalls(Start(connected), set_, steps);
  }

  // ---------------------------------------------------------------- the strand

  /** The strand runs its first `n` tasks; `reply` is the answer to image metadata among them. */
  function Strand(l: Link, set_: set<Callback>, n: nat, reply: Message): Link
    requires n <= |l.service.queue|
    decreases n
  {
    if n == 0 then l else
    FirstLeavesRest(l, set_, reply);
    Strand(Take(l, set_, RunTask(reply)), set_, n - 1, reply)
  }

  /** A task leaves the queue, which may grow at its end by what it posts. */
  lemma FirstLeavesRest(l: Link, set_: set<Callback>, reply: Message)
    requires l.service.queue != []
    ensures Possible(l, RunTask(reply))
    ensures var m := Take(l, set_, RunTask(reply));
            && l.service.queue[1..] <= m.service.queue
            && m.service.connected == FlagAfter(l.service.connected, l.service.queue[0])
            && m.service.hasSession == (l.service.hasSession && l.service.queue[0] != Teardown)
            && m.service.hasProcessor == (l.service.hasProcessor && l.service.queue[0] != Teardown)
  {
  }

  /** When a task's turn comes, the flag is what the tasks ahead of it left, and session and processor are there if they
      were and no teardown was among those. */
  lemma {:induction false} TurnComes(l: Link, set_: set<Callback>, ahead: seq<Task>, rest: seq<Task>, reply: Message)
    requires l.service.queue == ahead + rest
    ensures var m := Strand(l, set_, |ahead|, reply);
            && rest <= m.service.queue
            && m.service.connected == Settled(l.service.connected, ahead)
            && m.service.hasSession == (l.service.hasSession && Teardown !in ahead)
            && m.service.hasProcessor == (l.service.hasProcessor && Teardown !in ahead)
    decreases |ahead|
  {
    if ahead == [] {
      assert ahead + rest == rest;
    } else {
      FirstLeavesRest(l, set_, reply);
      var m := Take(l, set_, RunTask(reply));
      var more := m.service.queue[|ahead| - 1 + |rest|..];
      assert (ahead + rest)[1..] == ahead[1..] + rest;
      assert m.service.queue == ahead[1..] + (rest + more);
      TurnComes(m, set_, ahead[1..], rest + more, reply);
      assert ahead == [ahead[0]] + ahead[1..];
    }
  }

  /** A task at the front of the queue runs. */
  lemma FrontRuns(l: Link, set_: set<Callback>, task: Task, reply: Message)
    requires l.service.queue != [] && l.service.queue[0] == task
    ensures var m := Take(l, set_, RunTask(reply));
            match task
            case SetConnected => m.log == l.log + [OnConnected] && m.service.connected
            case ClearConnected => m.log == l.log && !m.service.connected
            case Send(message) =>
              m.log == l.log
              && m.session.outbox == l.session.outbox
                                     + if l.service.hasSession && l.service.connected then [message] else []
            case ShowImage(body) =>
              m.log == l.log + (if ImageMeta in set_ then [OnCallback(Invocation(ImageMeta, body))] else [])
              && m.service.queue == l.service.queue[1..] + [Send(reply)]
            case Process(_) => true
            case Teardown =>
              m.log == l.log && !m.service.connected && !m.service.hasSession && !m.service.hasProcessor
              && m.session.closed == (l.session.closed || l.service.hasSession)
  {
    assert l.log + [] == l.log && l.session.outbox + [] == l.session.outbox;
  }

  /** A message at the front reaches its callback, or posts the image work, if and only if the processor is there, the
      type is the callback's, the callback is set and the payload is not empty. */
  lemma FrontProcesses(l: Link, set_: set<Callback>, m: Message, callback: Callback, reply: Message)
    requires l.service.queue != [] && l.service.queue[0] == Process(m) && (m.kind, callback) in DISPATCH
    ensures var after := Take(l, set_, RunTask(reply));
            if !l.service.hasProcessor || m.payload == [] then
              after.log == l.log && after.service.queue == l.service.queue[1..]
            else if callback == ImageMeta then
              after.log == l.log && after.service.queue == l.service.queue[1..] + [ShowImage(m.payload)]
            else
              after.log == l.log + (if callback in set_ then [OnCallback(Invocation(callback, m.payload))] else [])
              && after.service.queue == l.service.queue[1..]
  {
    assert l.log + [] == l.log;
    assert CallbackOf(m.kind) == Some(callback);
  }

  /** Whatever is queued ahead of a message that a set callback is for, the callback is the next thing heard when the
      message's turn comes, unless the processor is gone by then. An AVAILABLE or a DEVICE message, for one, reaches the
      device status callback. */
  lemma MessageReaches(l: Link, set_: set<Callback>, ahead: seq<Task>, m: Message, rest: seq<Task>,
                       callback: Callback, reply: Message)
    requires l.service.queue == ahead + ([Process(m)] + rest)
    requires (m.kind, callback) in DISPATCH && callback in set_ && callback != ImageMeta && m.payload != []
    ensures |ahead| + 1 <= |l.service.queue|
    ensures var turn := Strand(l, set_, |ahead|, reply);
            && turn.service.queue != []
            && Take(turn, set_, RunTask(reply)).log
               == turn.log + if l.service.hasProcessor && Teardown !in ahead
                             then [OnCallback(Invocation(callback, m.payload))] else []
  {
    TurnComes(l, set_, ahead, [Process(m)] + rest, reply);
    var turn := Strand(l, set_, |ahead|, reply);
    FrontProcesses(turn, set_, m, callback, reply);
    assert turn.log + [] == turn.log;
  }

  /** From the wire to the application: once the tasks that were queued before it have run, the message of a body that
      just arrived invokes its callback, unless the processor is gone by then. An AVAILABLE or a DEVICE body, for one,
      reaches the device status callback. */
  lemma BodyReaches(l: Link, set_: set<Callback>, plain: seq<byte>, done: bool, callback: Callback, reply: Message)
    requires Possible(l, BodyArrives(plain, done)) && plain != []
    requires (l.session.phase.kind, callback) in DISPATCH && callback in set_ && callback != ImageMeta
    ensures var arrived := Take(l, set_, BodyArrives(plain, done));
            && |l.service.queue| + 1 == |arrived.service.queue|
            && var turn := Strand(arrived, set_, |l.service.queue|, reply);
               && turn.service.queue != []
               && Take(turn, set_, RunTask(reply)).log
                  == turn.log + if l.service.hasProcessor && Teardown !in l.service.queue
                                then [OnCallback(Invocation(callback, plain))] else []
  {
    BodyLeads(l, set_, plain, done);
    var arrived, m := Take(l, set_, BodyArrives(plain, done)), Message(l.session.phase.kind, plain);
    assert arrived.service.queue == l.service.queue + ([Process(m)] + []);
    MessageReaches(arrived, set_, l.service.queue, m, [], callback, reply);
  }

  /** Whatever is queued ahead of an application's send, its frame goes to the session when its turn comes if and only if
      the session is still there and the connected flag is up by then. */
  lemma SendReachesIff(l: Link, set_: set<Callback>, ahead: seq<Task>, m: Message, rest: seq<Task>, reply: Message)
    requires l.service.queue == ahead + ([Send(m)] + rest)
    ensures |ahead| + 1 <= |l.service.queue|
    ensures var turn := Strand(l, set_, |ahead|, reply);
            && turn.service.queue != []
            && Take(turn, set_, RunTask(reply)).session.outbox
               == turn.session.outbox
                  + if l.service.hasSession && Teardown !in ahead && Settled(l.service.connected, ahead) then [m] else []
  {
    TurnComes(l, set_, ahead, [Send(m)] + rest, reply);
    FrontRuns(Strand(l, set_, |ahead|, reply), set_, Send(m), reply);
  }

  /** Image metadata is answered with the port and shown, after what was queued behind it. */
  lemma ImageReaches(l: Link, set_: set<Callback>, ahead: seq<Task>, body: seq<byte>, rest: seq<Task>, reply: Message)
    requires l.service.queue == ahead + ([ShowImage(body)] + rest)
    ensures |ahead| + 1 <= |l.service.queue|
    ensures var turn := Strand(l, set_, |ahead|, reply);
            && turn.service.queue != []
            && var after := Take(turn, set_, RunTask(reply));
               && after.log == turn.log + (if ImageMeta in set_ then [OnCallback(Invocation(ImageMeta, body))] else [])
               && after.service.queue == turn.service.queue[1..] + [Send(reply)]
  {
    TurnComes(l, set_, ahead, [ShowImage(body)] + rest, reply);
    FrontRuns(Strand(l, set_, |ahead|, reply), set_, ShowImage(body), reply);
  }
}
