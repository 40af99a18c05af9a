/** Whether message callbacks come after the connected one: it depends on the frame in which the handshake ends. */
module CallbackOrder {
  import opened Strings
  import opened Bytes
  import opened Framing
  import opened Gating
  import opened GatingTheorems

  /** The body after which the TLS engine first reports the end of the handshake. */
  predicate EndsHandshake(l: Link, step: Step) {
    step.BodyArrives? && step.done && !l.session.handshakeDone
  }

  /** If the handshake ends at all, then in a frame of this kind; the peer chooses it. */
  predicate HandshakeEndsIn(l: Link, set_: set<Callback>, steps: seq<Step>, kind: byte)
    requires AllPossible(l, set_, steps)
    decreases |steps|
  {
    steps == [] ||
    ((EndsHandshake(l, steps[0]) ==> l.session.phase.kind == kind)
     && HandshakeEndsIn(Take(l, set_, steps[0]), set_, steps[1..], kind))
  }

  predicate CallbacksFollow(log: seq<Event>, e: Event) {
    forall i :: 0 <= i < |log| && log[i].OnCallback? ==> e in log[..i]
  }

  // ---------------------------------------------------------- the invariant

  predicate Announced(log: seq<Event>, queue: seq<Task>) {
    OnConnected in log || SetConnected in queue
  }

  /** No callback was made, and none is queued, ahead of the connected one. */
  predicate InOrder(log: seq<Event>, queue: seq<Task>) {
    && CallbacksFollow(log, OnConnected)
    && forall i :: 0 <= i < |queue| && Delivers(queue[i]) ==> Announced(log, queue[..i])
  }

  /** The session knows of the end of the handshake as soon as the TLS engine does, and has said so. */
  predicate Tied(l: Link) {
    && (l.session.handshakeDone <==> l.session.handshakeCompleted)
    && (l.session.handshakeCompleted ==> Announced(l.log, l.service.queue))
    && InOrder(l.log, l.service.queue)
  }

  lemma InOrderPost(log: seq<Event>, queue: seq<Task>, task: Task)
    requires InOrder(log, queue) && (Delivers(task) ==> Announced(log, queue))
    ensures InOrder(log, queue + [task])
    ensures Announced(log, queue) || task == SetConnected ==> Announced(log, queue + [task])
  {
    var more := queue + [task];
    forall i | 0 <= i < |more| && Delivers(more[i]) ensures Announced(log, more[..i]) {
      assert more[..i] == if i < |queue| then queue[..i] else queue;
    }
    assert task in more;
  }

  lemma InOrderLog(log: seq<Event>, queue: seq<Task>, e: Event)
    requires InOrder(log, queue) && (e.OnCallback? ==> OnConnected in log)
    ensures InOrder(log + [e], queue)
    ensures Announced(log, queue) ==> Announced(log + [e], queue)
  {
    var more := log + [e];
    forall i | 0 <= i < |more| && more[i].OnCallback? ensures OnConnected in more[..i] {
      assert more[..i] == log[..i];
    }
    forall i | 0 <= i < |queue| && Delivers(queue[i]) ensures Announced(more, queue[..i]) {
      assert Announced(log, queue[..i]);
    }
  }

  /** The first task leaves the queue; when it was the connected one, its callback has been made. */
  lemma InOrderPop(log: seq<Event>, queue: seq<Task>)
    requires InOrder(log, queue) && queue != [] && (queue[0] == SetConnected ==> OnConnected in log)
    ensures InOrder(log, queue[1..])
    ensures Announced(log, queue) ==> Announced(log, queue[1..])
    ensures Delivers(queue[0]) ==> OnConnected in log
  {
    var rest := queue[1..];
    assert queue == [queue[0]] + rest;
    forall i | 0 <= i < |rest| && Delivers(rest[i]) ensures Announced(log, rest[..i]) {
      assert Announced(log, queue[..i + 1]) && queue[..i + 1] == [queue[0]] + rest[..i];
    }
    if Delivers(queue[0]) {
      assert Announced(log, queue[..0]);
    }
  }

  // ---------------------------------------------------------------- the steps

  /** A handler call that posts nothing deliverable, or does so when the connected call was made. */
  lemma NotedTied(l: Link, did: Did)
    requires InOrder(l.log, l.service.queue)
    requires did.call.Some? && Delivers(TaskOf(did.call.value)) ==> Announced(l.log, l.service.queue)
    ensures var m := Noted(l, did);
            && InOrder(m.log, m.service.queue)
            && (Announced(l.log, l.service.queue) || did.call == Some(Connected) ==> Announced(m.log, m.service.queue))
  {
    if did.call.Some? {
      var task, event := TaskOf(did.call.value), EventOf(did.call.value);
      InOrderPost(l.log, l.service.queue, task);
      if event.Some? {
        InOrderLog(l.log, l.service.queue + [task], event.value);
      }
    }
  }

  lemma BodyTied(l: Link, plain: seq<byte>, done: bool)
    requires Tied(l) && Possible(l, BodyArrives(plain, done))
    requires EndsHandshake(l, BodyArrives(plain, done)) ==> l.session.phase.kind == TLS_HANDSHAKE
    ensures Tied(Noted(Handshaken(l, done), AfterBody(l.session, plain, done)))
  {
    var h := Handshaken(l, done);
    if done && !l.session.handshakeDone {
      InOrderLog(l.log, l.service.queue, HandshakeDone);
    }
    NotedTied(h, AfterBody(l.session, plain, done));
  }

  lemma ProcessTied(l: Link, set_: set<Callback>, m: Message)
    requires Tied(l) && (m.payload != [] ==> OnConnected in l.log)
    ensures Tied(Ran(l, AfterProcess(l.service, l.session, set_, m)))
  {
    var called := Invoked(set_ + {ImageMeta}, m);
    if l.service.hasProcessor && called != [] {
      if called[0].callback == ImageMeta {
        InOrderPost(l.log, l.service.queue, ShowImage(called[0].body));
      } else {
        InOrderLog(l.log, l.service.queue, OnCallback(called[0]));
      }
    }
  }

  lemma TaskTied(l: Link, set_: set<Callback>, task: Task, reply: Message)
    requires Tied(l) && !task.SetConnected? && (Delivers(task) ==> OnConnected in l.log)
    ensures Tied(Ran(l, AfterTask(l.service, l.session, set_, task, reply)))
  {
    match task {
      case Process(m) => ProcessTied(l, set_, m);
      case ShowImage(body) =>
        InOrderPost(l.log, l.service.queue, Send(reply));
        if ImageMeta in set_ {
          InOrderLog(l.log, l.service.queue + [Send(reply)], OnCallback(Invocation(ImageMeta, body)));
        }
      case _ =>
    }
  }

  lemma FirstTied(l: Link, set_: set<Callback>, reply: Message)
    requires Tied(l) && l.service.queue != []
    ensures Tied(Ran(l, AfterFirst(l.service, l.session, set_, reply)))
  {
    var task, rest := l.service.queue[0], l.service.queue[1..];
    if task == SetConnected {
      InOrderLog(l.log, l.service.queue, OnConnected);
      InOrderPop(l.log + [OnConnected], l.service.queue);
    } else {
      InOrderPop(l.log, l.service.queue);
      TaskTied(l.(service := l.service.(queue := rest)), set_, task, reply);
    }
  }

  lemma WriteTied(l: Link)
    requires Tied(l) && l.session.outbox != []
    ensures Tied(AfterWrite(l))
  {
    if !l.session.closed {
      InOrderLog(l.log, l.service.queue, Wrote(l.session.outbox[0]));
    }
  }

  lemma StepTied(l: Link, set_: set<Callback>, step: Step)
    requires Tied(l) && Possible(l, step)
    requires EndsHandshake(l, step) ==> l.session.phase.kind == TLS_HANDSHAKE
    ensures Tied(Take(l, set_, step))
  {
    match step {
      case HeaderArrives(kind, length) => NotedTied(l, AfterHeader(l.session, kind, length));
      case BodyArrives(plain, done) => BodyTied(l, plain, done);
      case ReadFails => NotedTied(l, AfterError(l.session.(phase := Stopped)));
      case WriteFails => NotedTied(l, AfterError(l.session));
      case WriteNext => WriteTied(l);
      case RunTask(reply) => FirstTied(l, set_, reply);
      case AppSend(m) => InOrderPost(l.log, l.service.queue, Send(m));
      case CallDisconnect => InOrderPost(l.log, l.service.queue, Teardown);
    }
  }

  lemma {:induction false} RunTied(l: Link, set_: set<Callback>, steps: seq<Step>)
    requires Tied(l) && AllPossible(l, set_, steps) && HandshakeEndsIn(l, set_, steps, TLS_HANDSHAKE)
    ensures Tied(Run(l, set_, steps))
    decreases |steps|
  {
    if steps != [] {
      StepTied(l, set_, steps[0]);
      RunTied(Take(l, set_, steps[0]), set_, steps[1..]);
    }
  }

  /** Behind the connected callback is behind the connected handler too. */
  lemma FollowsHandler(log: seq<Event>)
    requires Ordered(log) && CallbacksFollow(log, OnConnected)
    ensures CallbacksFollow(log, ConnectedHandler)
  {
    forall i | 0 <= i < |log| && log[i].OnCallback? ensures ConnectedHandler in log[..i] {
      var j :| 0 <= j < i && log[j] == OnConnected;
      assert Allowed(log[..j], log[j]);
      var k :| 0 <= k < j && log[k] == ConnectedHandler;
      assert log[..i][k] == ConnectedHandler;
    }
  }

  // ------------------------------------------------------------- the other case

  function KindFor(callback: Callback): (kind: byte)
    ensures CallbackOf(kind) == Some(callback) && kind != TLS_HANDSHAKE
  {
    match callback
    case LoginResult => 2
    case LoginFail => 3
    case DeviceStatus => 4
    case AiResult => 6
    case CameraList => 7
    case Assign => 8
    case MetaResult => 9
    case ImageMeta => 10
  }

  lemma {:induction false} EndsInOn(l: Link, set_: set<Callback>, steps: seq<Step>, step: Step, kind: byte)
    requires AllPossible(l, set_, steps) && Possible(Run(l, set_, steps), step)
    requires HandshakeEndsIn(l, set_, steps, kind)
    requires EndsHandshake(Run(l, set_, steps), step) ==> Run(l, set_, steps).session.phase.kind == kind
    ensures AllPossible(l, set_, steps + [step]) && HandshakeEndsIn(l, set_, steps + [step], kind)
    ensures Run(l, set_, steps + [step]) == Take(Run(l, set_, steps), set_, step)
    decreases |steps|
  {
    RunOn(l, set_, steps, step);
    var more := steps + [step];
    if steps == [] {
      assert more[1..] == [];
      assert HandshakeEndsIn(Take(l, set_, step), set_, more[1..], kind);
    } else {
      assert more[1..] == steps[1..] + [step];
      EndsInOn(Take(l, set_, steps[0]), set_, steps[1..], step, kind);
    }
  }

  /** The handshake ends in an empty body of another kind, and data follows at once. */
  lemma EndsElsewhere(set_: set<Callback>, kind: byte) returns (steps: seq<Step>)
    requires set_ != {} && kind != TLS_HANDSHAKE
    ensures AllPossible(Start(false), set_, steps) && HandshakeEndsIn(Start(false), set_, steps, kind)
    ensures !CallbacksFollow(Run(Start(false), set_, steps).log, ConnectedHandler)
    ensures !CallbacksFollow(Run(Start(false), set_, steps).log, OnConnected)
  {
    var callback :| callback in set_;
    var l, reply, dataKind := Start(false), Message(0, []), KindFor(callback);
    steps := [];
    var m := l;
    EndsInOn(l, set_, steps, HeaderArrives(kind, 1), kind);
    steps, m := steps + [HeaderArrives(kind, 1)], Take(m, set_, HeaderArrives(kind, 1));
    EndsInOn(l, set_, steps, BodyArrives([], true), kind);
    steps, m := steps + [BodyArrives([], true)], Take(m, set_, BodyArrives([], true));
    EndsInOn(l, set_, steps, HeaderArrives(dataKind, 1), kind);
    steps, m := steps + [HeaderArrives(dataKind, 1)], Take(m, set_, HeaderArrives(dataKind, 1));
    EndsInOn(l, set_, steps, BodyArrives([0], true), kind);
    steps, m := steps + [BodyArrives([0], true)], Take(m, set_, BodyArrives([0], true));
    assert m.log == [HandshakeDone] && m.service.queue == [Process(Message(dataKind, [0]))];
    EndsInOn(l, set_, steps, RunTask(reply), kind);
    steps, m := steps + [RunTask(reply)], Take(m, set_, RunTask(reply));
    if callback == ImageMeta {
      assert m.service.queue == [ShowImage([0])];
      EndsInOn(l, set_, steps, RunTask(reply), kind);
      steps, m := steps + [RunTask(reply)], Take(m, set_, RunTask(reply));
    }
    var call := OnCallback(Invocation(callback, [0]));
    assert m.log == [HandshakeDone, call] && m.log[1] == call && m.log[..1] == [HandshakeDone];
  }

  predicate FollowsIn(set_: set<Callback>, steps: seq<Step>, kind: byte, e: Event) {
    AllPossible(Start(false), set_, steps) && HandshakeEndsIn(Start(false), set_, steps, kind)
    ==> CallbacksFollow(Run(Start(false), set_, steps).log, e)
  }

  /** Every callback comes behind the connected handler, and behind the connected callback, in all runs whose handshake
      ends in a frame of this kind, if and only if the kind is the handshake's own. */
  lemma CallbackOrderIff(set_: set<Callback>, kind: byte)
    requires set_ != {}
    ensures (forall steps :: FollowsIn(set_, steps, kind, ConnectedHandler)) <==> kind == TLS_HANDSHAKE
    ensures (forall steps :: FollowsIn(set_, steps, kind, OnConnected)) <==> kind == TLS_HANDSHAKE
  {
    if kind == TLS_HANDSHAKE {
      forall steps
        ensures FollowsIn(set_, steps, kind, ConnectedHandler) && FollowsIn(set_, steps, kind, OnConnected)
      {
        if AllPossible(Start(false), set_, steps) && HandshakeEndsIn(Start(false), set_, steps, kind) {
          RunTied(Start(false), set_, steps);
          ConnectionGating(set_, steps);
          FollowsHandler(Run(Start(false), set_, steps).log);
        }
      }
    } else {
      var steps := EndsElsewhere(set_, kind);
      assert !FollowsIn(set_, steps, kind, ConnectedHandler) && !FollowsIn(set_, steps, kind, OnConnected);
    }
  }
}
