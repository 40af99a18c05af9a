/** What a session leaves to the next: the connected flag outlives it. */
module Reconnect {
  import opened Strings
  import opened Bytes
  import opened Framing
  import opened Gating
  import opened GatingTheorems

  ghost predicate GatedIn(connected: bool, set_: set<Callback>, steps: seq<Step>) {
    AllPossible(Start(connected), set_, steps) ==> Gated(Run(Start(connected), set_, steps).log)
  }

  /** A session that starts with the flag up writes what the application sends before any handshake. */
  lemma WritesUngated(set_: set<Callback>)
    ensures exists steps :: !GatedIn(true, set_, steps)
  {
    var l, m := Start(true), Message(4, [0]);
    RunOn(l, set_, [], AppSend(m));
    RunOn(l, set_, [AppSend(m)], RunTask(m));
    assert [AppSend(m)] + [RunTask(m)] == [AppSend(m), RunTask(m)];
    RunOn(l, set_, [AppSend(m), RunTask(m)], WriteNext);
    var steps := [AppSend(m), RunTask(m)] + [WriteNext];
    var log := Run(l, set_, steps).log;
    assert log == [Wrote(m)];
    assert !Allowed(log[..0], log[0]);
    assert !GatedIn(true, set_, steps);
  }

  /** The gating holds for all runs of a session if and only if it starts with the flag down. */
  lemma GatingIff(connected: bool, set_: set<Callback>)
    ensures (forall steps :: GatedIn(connected, set_, steps)) <==> !connected
  {
    if connected {
      WritesUngated(set_);
    } else {
      forall steps ensures GatedIn(false, set_, steps) {
        if AllPossible(Start(false), set_, steps) {
          ConnectionGating(set_, steps);
        }
      }
    }
  }

  // ------------------------------------------------------------------- the flag

  function FlagAfter(connected: bool, task: Task): bool {
    match task
    case SetConnected => true
    case ClearConnected => false
    case Teardown => false
    case _ => connected
  }

  /** The flag once the queued tasks have run. */
  function Settled(connected: bool, queue: seq<Task>): bool
    decreases |queue|
  {
    if queue == [] then connected else Settled(FlagAfter(connected, queue[0]), queue[1..])
  }

  function SettledFlag(l: Link): bool {
    Settled(l.service.connected, l.service.queue)
  }

  lemma {:induction false} SettledOn(connected: bool, queue: seq<Task>, task: Task)
    ensures Settled(connected, queue + [task]) == FlagAfter(Settled(connected, queue), task)
    decreases |queue|
  {
    if queue == [] {
      assert (queue + [task])[1..] == [];
    } else {
      assert (queue + [task])[1..] == queue[1..] + [task];
      SettledOn(FlagAfter(connected, queue[0]), queue[1..], task);
    }
  }

  /** The handshake ends in a body that was read before the socket was closed and handled after the error was. */
  predicate CompletesLate(l: Link, step: Step) {
    && step.BodyArrives? && l.session.phase == AtBody(TLS_HANDSHAKE)
    && step.done && !l.session.handshakeCompleted && l.session.disconnected
  }

  function LateAfter(l: Link, step: Step, late: bool): bool {
    !step.CallDisconnect? && (late || CompletesLate(l, step))
  }

  /** In the run the handshake ends late, and `disconnect` is not called after that. */
  function LateAtEnd(l: Link, set_: set<Callback>, steps: seq<Step>, late: bool): bool
    requires AllPossible(l, set_, steps)
    decreases |steps|
  {
    if steps == [] then late else
    LateAtEnd(Take(l, set_, steps[0]), set_, steps[1..], LateAfter(l, steps[0], late))
  }

  predicate FlagKnown(l: Link, late: bool) {
    && (l.session.phase.Stopped? ==> l.session.disconnected)
    && (if l.session.disconnected then SettledFlag(l) == late else !late)
  }

  lemma PostKeepsFlag(l: Link, task: Task, late: bool)
    requires FlagKnown(l, late) && (task.Send? || task.Teardown?)
    ensures FlagKnown(Posted(l, task), late && task != Teardown)
  {
    SettledOn(l.service.connected, l.service.queue, task);
  }

  lemma HeaderKeepsFlag(l: Link, kind: byte, length: nat, late: bool)
    requires FlagKnown(l, late) && l.session.phase.AtHeader?
    ensures FlagKnown(Noted(l, AfterHeader(l.session, kind, length)), late)
  {
    SettledOn(l.service.connected, l.service.queue, Process(Message(kind, [])));
  }

  lemma BodyKeepsFlag(l: Link, plain: seq<byte>, done: bool, late: bool)
    requires FlagKnown(l, late) && l.session.phase.AtBody?
    ensures FlagKnown(Noted(Handshaken(l, done), AfterBody(l.session, plain, done)),
                      late || CompletesLate(l, BodyArrives(plain, done)))
  {
    var did := AfterBody(l.session, plain, done);
    if did.call.Some? {
      SettledOn(l.service.connected, l.service.queue, TaskOf(did.call.value));
    }
  }

  lemma ErrorKeepsFlag(l: Link, phase: Phase, late: bool)
    requires FlagKnown(l, late)
    ensures FlagKnown(Noted(l, AfterError(l.session.(phase := phase))), late)
  {
    SettledOn(l.service.connected, l.service.queue, ClearConnected);
  }

  lemma ProcessKeepsFlag(v: Service, s: Session, set_: set<Callback>, m: Message)
    ensures var e := AfterProcess(v, s, set_, m);
            e.session == s && Settled(e.service.connected, e.service.queue) == Settled(v.connected, v.queue)
  {
    var called := Invoked(set_ + {ImageMeta}, m);
    if called != [] {
      SettledOn(v.connected, v.queue, ShowImage(called[0].body));
    }
  }

  lemma TaskMovesFlag(v: Service, s: Session, set_: set<Callback>, task: Task, reply: Message)
    ensures var e := AfterTask(v, s, set_, task, reply);
            && e.session.disconnected == s.disconnected && e.session.phase == s.phase
            && Settled(e.service.connected, e.service.queue) == Settled(FlagAfter(v.connected, task), v.queue)
  {
    match task {
      case ShowImage(_) => SettledOn(v.connected, v.queue, Send(reply));
      case Process(m) => ProcessKeepsFlag(v, s, set_, m);
      case _ =>
    }
  }

  lemma TaskKeepsFlag(l: Link, set_: set<Callback>, reply: Message, late: bool)
    requires FlagKnown(l, late) && l.service.queue != []
    ensures FlagKnown(Ran(l, AfterFirst(l.service, l.session, set_, reply)), late)
  {
    var v := l.service;
    TaskMovesFlag(v.(queue := v.queue[1..]), l.session, set_, v.queue[0], reply);
  }

  lemma StepKeepsFlag(l: Link, set_: set<Callback>, step: Step, late: bool)
    requires FlagKnown(l, late) && Possible(l, step)
    ensures FlagKnown(Take(l, set_, step), LateAfter(l, step, late))
  {
    match step {
      case HeaderArrives(kind, length) => HeaderKeepsFlag(l, kind, length, late);
      case BodyArrives(plain, done) => BodyKeepsFlag(l, plain, done, late);
      case ReadFails => ErrorKeepsFlag(l, Stopped, late);
      case WriteFails => ErrorKeepsFlag(l, l.session.phase, late);
      case WriteNext =>
      case RunTask(reply) => TaskKeepsFlag(l, set_, reply, late);
      case AppSend(m) => PostKeepsFlag(l, Send(m), late);
      case CallDisconnect => PostKeepsFlag(l, Teardown, late);
    }
  }

  lemma {:induction false} RunKeepsFlag(l: Link, set_: set<Callback>, steps: seq<Step>, late: bool)
    requires FlagKnown(l, late) && AllPossible(l, set_, steps)
    ensures FlagKnown(Run(l, set_, steps), LateAtEnd(l, set_, steps, late))
    decreases |steps|
  {
    if steps != [] {
      StepKeepsFlag(l, set_, steps[0], late);
      RunKeepsFlag(Take(l, set_, steps[0]), set_, steps[1..], LateAfter(l, steps[0], late));
    }
  }

  /** When a session has stopped and the strand is empty, the flag is left up if and only if the handshake ended late
      and `disconnect` was not called after that, whatever the flag was at the start. */
  lemma FlagLeftUpIff(connected: bool, set_: set<Callback>, steps: seq<Step>)
    requires AllPossible(Start(connected), set_, steps)
    requires var l := Run(Start(connected), set_, steps); l.session.phase.Stopped? && l.service.queue == []
    ensures Run(Start(connected), set_, steps).service.connected
       <==> LateAtEnd(Start(connected), set_, steps, false)
  {
    RunKeepsFlag(Start(connected), set_, steps, false);
  }

  // --------------------------------------------------------------- two sessions

  /** Some step of the run completes the handshake late. */
  predicate LateIn(l: Link, set_: set<Callback>, steps: seq<Step>)
    requires AllPossible(l, set_, steps)
    decreases |steps|
  {
    steps != [] && (CompletesLate(l, steps[0]) || LateIn(Take(l, set_, steps[0]), set_, steps[1..]))
  }

  lemma {:induction false} LateWithoutDisconnect(l: Link, set_: set<Callback>, steps: seq<Step>, late: bool)
    requires AllPossible(l, set_, steps) && CallDisconnect !in steps
    ensures LateAtEnd(l, set_, steps, late) <==> late || LateIn(l, set_, steps)
    decreases |steps|
  {
    if steps != [] {
      LateWithoutDisconnect(Take(l, set_, steps[0]), set_, steps[1..], LateAfter(l, steps[0], late));
    }
  }

  /** Nothing is left for the thread of the session to do, and the service has let go of it. */
  predicate Ended(l: Link) {
    l.session.phase.Stopped? && l.session.outbox == [] && l.service.queue == [] && !l.service.hasSession
  }

  /** Before it makes the next session, `connect` calls `disconnect` and waits for the session's thread to end. */
  function ToldToEnd(connected: bool, set_: set<Callback>, before: seq<Step>): Link
    requires AllPossible(Start(connected), set_, before)
  {
    Take(Run(Start(connected), set_, before), set_, CallDisconnect)
  }

  /** Whatever a session did before `connect` told it to end: the next session starts with the flag up, and then does
      not keep the gating, if and only if after that call the handshake still ends late. */
  lemma NextSessionGatedIff(connected: bool, set_: set<Callback>, before: seq<Step>, after: seq<Step>)
    requires AllPossible(Start(connected), set_, before)
    requires AllPossible(ToldToEnd(connected, set_, before), set_, after) && CallDisconnect !in after
    requires Ended(Run(ToldToEnd(connected, set_, before), set_, after))
    ensures var flag := Run(ToldToEnd(connected, set_, before), set_, after).service.connected;
            && (flag <==> LateIn(ToldToEnd(connected, set_, before), set_, after))
            && ((forall steps :: GatedIn(flag, set_, steps)) <==> !LateIn(ToldToEnd(connected, set_, before), set_, after))
  {
    var told := ToldToEnd(connected, set_, before);
    var l := Run(Start(connected), set_, before);
    RunKeepsFlag(Start(connected), set_, before, false);
    StepKeepsFlag(l, set_, CallDisconnect, LateAtEnd(Start(connected), set_, before, false));
    RunKeepsFlag(told, set_, after, false);
    LateWithoutDisconnect(told, set_, after, false);
    GatingIff(Run(told, set_, after).service.connected, set_);
  }

  /** The error and then the late end of the handshake are queued, and the session has nothing else to do. */
  predicate AboutToEndUp(l: Link) {
    && l.session.disconnected && l.session.outbox == [] && !l.session.phase.Stopped? && !l.service.hasSession
    && l.service.queue == [ClearConnected, SetConnected]
  }

  lemma EndsUp(l: Link, set_: set<Callback>, steps: seq<Step>) returns (more: seq<Step>)
    requires AllPossible(l, set_, steps) && AboutToEndUp(Run(l, set_, steps)) && CallDisconnect !in steps
    ensures AllPossible(l, set_, more) && CallDisconnect !in more
    ensures Ended(Run(l, set_, more)) && Run(l, set_, more).service.connected
  {
    var job := RunTask(Message(0, []));
    RunOn(l, set_, steps, ReadFails);
    more := steps + [ReadFails];
    RunOn(l, set_, more, job);
    more := more + [job];
    assert Run(l, set_, more).service.queue == [SetConnected];
    RunOn(l, set_, more, job);
    more := more + [job];
  }

  /** It does happen: the last handshake frame is read before the teardown closes the socket, and handled after a
      write has failed on it. */
  lemma NextSessionCanStartUp(set_: set<Callback>) returns (before: seq<Step>, after: seq<Step>)
    ensures AllPossible(Start(false), set_, before)
    ensures AllPossible(ToldToEnd(false, set_, before), set_, after) && CallDisconnect !in after
    ensures var l := Run(ToldToEnd(false, set_, before), set_, after); Ended(l) && l.service.connected
  {
    var header, body, job := HeaderArrives(TLS_HANDSHAKE, 1), BodyArrives([], true), RunTask(Message(0, []));
    before := [] + [header];
    RunOn(Start(false), set_, [], header);
    var told := ToldToEnd(false, set_, before);
    assert told.service.queue == [Teardown];
    RunOn(told, set_, [], job);
    after := [] + [job];
    RunOn(told, set_, after, WriteFails);
    after := after + [WriteFails];
    RunOn(told, set_, after, body);
    after := after + [body];
    after := EndsUp(told, set_, after);
  }
}
