/** Lost fragments are asked for until the frame is there. */
module UdpProgress {
  import opened Strings
  import opened Bytes
  import opened UdpReassembly
  import opened UdpTheorems

  // -------------------------------------------------- the timer stays on guard

  /** Whether the frame under assembly was opened by the new-frame branch and is not complete yet. */
  function OpenAfter(s: Udp, cb: Callbacks, isOpen: bool, step: Step): bool
    requires Possible(s, step)
  {
    if !step.Arrive? then isOpen else
    (isOpen || step.frame != s.currentFrame) && Take(s, cb, step).udp.fragments != map[]
  }

  function OpenRun(s: Udp, cb: Callbacks, isOpen: bool, steps: seq<Step>): bool
    requires AllPossible(s, cb, steps)
    decreases |steps|
  {
    if steps == [] then isOpen else
    OpenRun(Take(s, cb, steps[0]).udp, cb, OpenAfter(s, cb, isOpen, steps[0]), steps[1..])
  }

  /** A wait for the current frame is armed, or its handler is about to run. */
  predicate Watched(s: Udp) {
    s.armed == Some(s.currentFrame) || s.currentFrame in s.queued
  }

  ghost predicate OnGuard(s: Udp, isOpen: bool, sender: Sender) {
    && Holds(s, sender)
    && (isOpen ==> s.fragments != map[] && s.expectedMaxSeq + 1 == |sender(s.currentFrame)| && Watched(s))
  }

  /** A scan of an incomplete frame asks for something, and arms the timer again. */
  lemma ScanRearms(s: Udp, cb: Callbacks, sender: Sender)
    requires cb.sendControl && Holds(s, sender) && s.expectedMaxSeq <= 254
    requires s.expectedMaxSeq + 1 == |sender(s.currentFrame)|
    ensures var m := Missing(s.fragments, s.expectedMaxSeq + 1);
            m != [] && AfterScan(s, cb) == Result(s.(armed := Some(s.currentFrame)), [Request(s.currentFrame, m)])
  {
    var n := |sender(s.currentFrame)|;
    MissingIsExact(s.fragments, n);
    FullWhenCounted(s.fragments.Keys, n);
    var q: byte :| q < n && q !in s.fragments.Keys;
    assert q in Missing(s.fragments, n);
  }

  lemma TimerStepOnGuard(s: Udp, cb: Callbacks, isOpen: bool, step: Step, sender: Sender)
    requires cb.sendControl && OnGuard(s, isOpen, sender) && Possible(s, step) && !step.Arrive?
    ensures OnGuard(Take(s, cb, step).udp, isOpen, sender)
  {
    if isOpen && step.Fire? && step.frame == s.currentFrame {
      ScanRearms(s.(queued := s.queued - multiset{step.frame}), cb, sender);
    }
  }

  lemma StepOnGuard(s: Udp, cb: Callbacks, isOpen: bool, step: Step, sender: Sender)
    requires cb.sendControl && OnGuard(s, isOpen, sender) && Possible(s, step) && Sent(step, sender)
    ensures OnGuard(Take(s, cb, step).udp, OpenAfter(s, cb, isOpen, step), sender)
  {
    if step.Arrive? {
      ArrivalSafe(s, cb, step, sender);
    } else {
      TimerStepOnGuard(s, cb, isOpen, step, sender);
    }
  }

  /** While a frame opened by the new-frame branch is incomplete, a wait for it is armed or its handler queued. */
  lemma {:induction false} WatchedWhileOpen(s: Udp, cb: Callbacks, isOpen: bool, steps: seq<Step>, sender: Sender)
    requires cb.sendControl && OnGuard(s, isOpen, sender) && AllPossible(s, cb, steps) && AllSent(steps, sender)
    ensures OnGuard(Run(s, cb, steps).udp, OpenRun(s, cb, isOpen, steps), sender)
    decreases |steps|
  {
    if steps != [] {
      StepOnGuard(s, cb, isOpen, steps[0], sender);
      WatchedWhileOpen(Take(s, cb, steps[0]).udp, cb, OpenAfter(s, cb, isOpen, steps[0]), steps[1..], sender);
    }
  }

  /** Without a new frame number an idle timer stays idle: nothing is ever requested. This is the fate of a very
      first frame numbered 255, and of duplicates that come after completion. */
  lemma {:induction false} NoNewFrameNoRequest(s: Udp, cb: Callbacks, steps: seq<Step>)
    requires s.armed.None? && s.queued == multiset{}
    requires AllPossible(s, cb, steps) && OnlyFrame(steps, s.currentFrame)
    ensures var r := Run(s, cb, steps);
            r.udp.armed.None? && r.udp.queued == multiset{} && forall e :: e in r.events ==> !e.Request?
    decreases |steps|
  {
    if steps != [] {
      assert steps[0].Arrive?;
      NoNewFrameNoRequest(Take(s, cb, steps[0]).udp, cb, steps[1..]);
    }
  }

  /** After an incomplete first fragment the frame is watched if and only if its number is not 255. */
  lemma FirstFragmentWatchedIff(cb: Callbacks, frame: byte, seqNo: byte, maxSeq: byte, data: seq<byte>)
    requires maxSeq > 0
    ensures var s := Take(INITIAL, cb, Arrive(frame, seqNo, maxSeq, data)).udp;
            && s.currentFrame == frame && s.fragments == map[seqNo := data]
            && (Watched(s) <==> frame != 255)
  {
    assert |map[seqNo := data]| == 1;
  }

  // --------------------------------------------------- while one frame arrives

  function AllOf(arrivals: seq<byte>): set<byte> {
    set q | q in arrivals
  }

  function ArrivalOf(step: Step): set<byte> {
    if step.Arrive? then {step.seqNo} else {}
  }

  lemma ArrivalsOfFirst(steps: seq<Step>)
    requires steps != []
    ensures AllOf(Arrivals(steps)) == ArrivalOf(steps[0]) + AllOf(Arrivals(steps[1..]))
  {
  }

  /** Exactly `arrived` is added to what is held of the frame under assembly. */
  predicate Adds(s: Udp, u: Udp, arrived: set<byte>) {
    u.currentFrame == s.currentFrame && u.fragments.Keys == s.fragments.Keys + arrived
  }

  lemma StepAdds(s: Udp, cb: Callbacks, step: Step, sender: Sender)
    requires cb.onComplete && Holds(s, sender)
    requires Possible(s, step) && Sent(step, sender) && (step.Arrive? ==> step.frame == s.currentFrame)
    requires Deliveries(Take(s, cb, step).events) == 0
    ensures Adds(s, Take(s, cb, step).udp, ArrivalOf(step)) && Holds(Take(s, cb, step).udp, sender)
  {
    StepSafe(s, cb, step, sender);
    if step.Arrive? {
      ArrivalFills(s, cb, step, sender);
      ArrivalSafe(s, cb, step, sender);
    }
  }

  lemma NothingDelivered(s: Udp, cb: Callbacks, steps: seq<Step>)
    requires AllPossible(s, cb, steps) && steps != [] && Deliveries(Run(s, cb, steps).events) == 0
    ensures var first := Take(s, cb, steps[0]);
            Deliveries(first.events) == 0 && Deliveries(Run(first.udp, cb, steps[1..]).events) == 0
  {
    var first := Take(s, cb, steps[0]);
    DeliveriesConcat(first.events, Run(first.udp, cb, steps[1..]).events);
  }

  lemma AddsTwice(s: Udp, t: Udp, u: Udp, a: set<byte>, b: set<byte>)
    requires Adds(s, t, a) && Adds(t, u, b)
    ensures Adds(s, u, a + b)
  {
  }

  /** While only the frame under assembly arrives, with timer steps anywhere in between, and it is not delivered,
      exactly what arrives is added to what is held. */
  lemma {:induction false} RunAdds(s: Udp, cb: Callbacks, steps: seq<Step>, sender: Sender)
    requires cb.onComplete && Holds(s, sender)
    requires AllPossible(s, cb, steps) && AllSent(steps, sender) && OnlyFrame(steps, s.currentFrame)
    requires Deliveries(Run(s, cb, steps).events) == 0
    ensures Adds(s, Run(s, cb, steps).udp, AllOf(Arrivals(steps)))
    decreases |steps|
  {
    if steps == [] {
      assert s.fragments.Keys + AllOf([]) == s.fragments.Keys;
    } else {
      var next := Take(s, cb, steps[0]).udp;
      NothingDelivered(s, cb, steps);
      StepAdds(s, cb, steps[0], sender);
      RunAdds(next, cb, steps[1..], sender);
      AddsTwice(s, next, Run(next, cb, steps[1..]).udp, ArrivalOf(steps[0]), AllOf(Arrivals(steps[1..])));
      ArrivalsOfFirst(steps);
    }
  }

  /** A frame is open for as long as it is not delivered. */
  lemma {:induction false} OpenUntilDelivered(s: Udp, cb: Callbacks, steps: seq<Step>, sender: Sender)
    requires cb.onComplete && Holds(s, sender) && s.fragments != map[]
    requires AllPossible(s, cb, steps) && AllSent(steps, sender) && OnlyFrame(steps, s.currentFrame)
    requires Deliveries(Run(s, cb, steps).events) == 0
    ensures OpenRun(s, cb, true, steps)
    decreases |steps|
  {
    if steps != [] {
      var next := Take(s, cb, steps[0]).udp;
      NothingDelivered(s, cb, steps);
      StepAdds(s, cb, steps[0], sender);
      assert next.fragments.Keys != {};
      OpenUntilDelivered(next, cb, steps[1..], sender);
    }
  }

  /** It stays open and watched, with what arrived added. */
  lemma RunStaysOnGuard(s: Udp, cb: Callbacks, steps: seq<Step>, sender: Sender)
    requires cb.onComplete && cb.sendControl && OnGuard(s, true, sender)
    requires AllPossible(s, cb, steps) && AllSent(steps, sender) && OnlyFrame(steps, s.currentFrame)
    requires Deliveries(Run(s, cb, steps).events) == 0
    ensures OnGuard(Run(s, cb, steps).udp, true, sender)
  {
    OpenUntilDelivered(s, cb, steps, sender);
    WatchedWhileOpen(s, cb, true, steps, sender);
  }

  /** Until its first delivery the very first frame is watched if and only if its number is not 255, in every run in
      which only that frame arrives. */
  lemma FirstFrameWatchedIff(cb: Callbacks, steps: seq<Step>, sender: Sender, frame: byte)
    requires cb.onComplete && cb.sendControl
    requires AllPossible(INITIAL, cb, steps) && AllSent(steps, sender) && OnlyFrame(steps, frame)
    requires steps != [] && Deliveries(Run(INITIAL, cb, steps).events) == 0
    ensures Watched(Run(INITIAL, cb, steps).udp) <==> frame != 255
  {
    if frame == 255 {
      NoNewFrameNoRequest(INITIAL, cb, steps);
    } else {
      var first, rest := Take(INITIAL, cb, steps[0]), steps[1..];
      assert steps[0].Arrive? && steps[0] in steps;
      InitialHolds(sender);
      DeliveriesConcat(first.events, Run(first.udp, cb, rest).events);
      ArrivalFills(INITIAL, cb, steps[0], sender);
      ArrivalSafe(INITIAL, cb, steps[0], sender);
      StepOnGuard(INITIAL, cb, false, steps[0], sender);
      RunStaysOnGuard(first.udp, cb, rest, sender);
      RunAdds(first.udp, cb, rest, sender);
    }
  }

  /** The scan that does not come to an end is reached: one fragment of a frame of 256 and an expired wait suffice. */
  lemma EndlessScanIsReached(cb: Callbacks, data: seq<byte>)
    ensures var steps := [Arrive(1, 0, 255, data), Expire];
            && AllPossible(INITIAL, cb, steps)
            && var s := Run(INITIAL, cb, steps).udp;
               1 in s.queued && HandlerActs(s, 1) && forall k: nat :: Counter(k) <= s.expectedMaxSeq
  {
    var arrive, steps := Arrive(1, 0, 255, data), [Arrive(1, 0, 255, data), Expire];
    var s := Take(INITIAL, cb, arrive).udp;
    assert |map[0 := data]| == 1;
    assert steps[1..] == [Expire];
    OneStepRun(s, cb, Expire);
  }

  // ------------------------------------------------------------------ rounds

  function MissingSet(s: Udp, sender: Sender): set<byte> {
    set q: byte | q < |sender(s.currentFrame)| && q !in s.fragments
  }

  /** The timer's part of a round: the wait runs out, unless that has happened, and the handler runs. */
  function TimerPart(s: Udp): seq<Step> {
    if s.currentFrame in s.queued then [Fire(s.currentFrame)] else [Expire, Fire(s.currentFrame)]
  }

  /** `r` keeps what is held and asks for exactly the missing fragments, in ascending order. */
  ghost predicate Asks(s: Udp, r: Result, sender: Sender) {
    && OnGuard(r.udp, true, sender)
    && r.udp.currentFrame == s.currentFrame && r.udp.fragments == s.fragments
    && |r.events| == 1 && r.events[0].Request? && r.events[0].frame == s.currentFrame
    && (forall q: byte :: q in r.events[0].missing <==> q in MissingSet(s, sender))
    && (forall i, j :: 0 <= i < j < |r.events[0].missing| ==> r.events[0].missing[i] < r.events[0].missing[j])
  }

  lemma FireAsks(s: Udp, cb: Callbacks, sender: Sender)
    requires cb.sendControl && OnGuard(s, true, sender) && |sender(s.currentFrame)| <= 255
    requires s.currentFrame in s.queued
    ensures Asks(s, AfterHandler(s, cb, s.currentFrame), sender)
  {
    ScanRearms(s.(queued := s.queued - multiset{s.currentFrame}), cb, sender);
    MissingIsExact(s.fragments, |sender(s.currentFrame)|);
  }

  lemma OneStepRun(s: Udp, cb: Callbacks, step: Step)
    requires Possible(s, step)
    ensures AllPossible(s, cb, [step]) && Run(s, cb, [step]) == Take(s, cb, step)
  {
    var first := Take(s, cb, step);
    assert [step][1..] == [];
    assert Run(first.udp, cb, []) == Result(first.udp, []);
    assert first.events + [] == first.events;
  }

  /** While a frame is open the timer's part can be played, and the request goes out. */
  lemma RequestGoesOut(s: Udp, cb: Callbacks, sender: Sender)
    requires cb.sendControl && OnGuard(s, true, sender) && |sender(s.currentFrame)| <= 255
    ensures AllPossible(s, cb, TimerPart(s)) && Asks(s, Run(s, cb, TimerPart(s)), sender)
  {
    var frame := s.currentFrame;
    if frame in s.queued {
      FireAsks(s, cb, sender);
      OneStepRun(s, cb, Fire(frame));
    } else {
      var expired := AfterExpiry(s);
      TimerStepOnGuard(s, cb, true, Expire, sender);
      FireAsks(expired, cb, sender);
      OneStepRun(expired, cb, Fire(frame));
      assert TimerPart(s)[1..] == [Fire(frame)];
      var fired := Run(expired, cb, [Fire(frame)]);
      assert [] + fired.events == fired.events;
    }
  }

  // ---------------------------------------------------------------- completion

  /** While only the open frame arrives, whatever the timer does in between, the missing set never grows, and loses
      exactly what arrives, until the frame is delivered. */
  lemma MissingOnlyShrinks(s: Udp, cb: Callbacks, steps: seq<Step>, sender: Sender)
    requires cb.onComplete && cb.sendControl && OnGuard(s, true, sender)
    requires AllPossible(s, cb, steps) && AllSent(steps, sender) && OnlyFrame(steps, s.currentFrame)
    ensures var r := Run(s, cb, steps);
            Deliveries(r.events) >= 1
            || (OnGuard(r.udp, true, sender) && r.udp.currentFrame == s.currentFrame
                && MissingSet(r.udp, sender) == MissingSet(s, sender) - AllOf(Arrivals(steps)))
  {
    var r := Run(s, cb, steps);
    if Deliveries(r.events) == 0 {
      RunAdds(s, cb, steps, sender);
      RunStaysOnGuard(s, cb, steps, sender);
      forall q: byte ensures q in r.udp.fragments <==> q in s.fragments || q in Arrivals(steps) {
        assert q in r.udp.fragments.Keys <==> q in s.fragments.Keys + AllOf(Arrivals(steps));
      }
    }
  }

  /** A round: arrivals of the open frame and steps of the timer in any order, among them a missing fragment. */
  ghost predicate Useful(s: Udp, cb: Callbacks, round: seq<Step>, sender: Sender) {
    && AllPossible(s, cb, round) && AllSent(round, sender) && OnlyFrame(round, s.currentFrame)
    && exists q :: q in Arrivals(round) && q in MissingSet(s, sender)
  }

  /** A useful round completes the frame or strictly shrinks what is missing. */
  lemma RoundShrinks(s: Udp, cb: Callbacks, round: seq<Step>, sender: Sender)
    requires cb.onComplete && cb.sendControl && OnGuard(s, true, sender) && Useful(s, cb, round, sender)
    ensures var r := Run(s, cb, round);
            Deliveries(r.events) >= 1
            || (OnGuard(r.udp, true, sender) && r.udp.currentFrame == s.currentFrame
                && MissingSet(r.udp, sender) < MissingSet(s, sender))
  {
    MissingOnlyShrinks(s, cb, round, sender);
    var q :| q in Arrivals(round) && q in MissingSet(s, sender);
    assert q in AllOf(Arrivals(round));
  }

  /** Each round is useful when its turn comes, until the frame is delivered. */
  ghost predicate UsefulRounds(s: Udp, cb: Callbacks, rounds: seq<seq<Step>>, sender: Sender)
    decreases |rounds|
  {
    if rounds == [] then true else
    && Useful(s, cb, rounds[0], sender)
    && (var r := Run(s, cb, rounds[0]);
        Deliveries(r.events) >= 1 || UsefulRounds(r.udp, cb, rounds[1..], sender))
  }

  ghost predicate DeliveredWithin(s: Udp, cb: Callbacks, rounds: seq<seq<Step>>, sender: Sender)
    requires UsefulRounds(s, cb, rounds, sender)
    decreases |rounds|
  {
    if rounds == [] then false else
    var r := Run(s, cb, rounds[0]);
    Deliveries(r.events) >= 1 || DeliveredWithin(r.udp, cb, rounds[1..], sender)
  }

  /** As many useful rounds as fragments are missing deliver the frame. */
  lemma {:induction false} RoundsComplete(s: Udp, cb: Callbacks, rounds: seq<seq<Step>>, sender: Sender)
    requires cb.onComplete && cb.sendControl && OnGuard(s, true, sender)
    requires UsefulRounds(s, cb, rounds, sender) && |rounds| >= |MissingSet(s, sender)|
    ensures DeliveredWithin(s, cb, rounds, sender)
    decreases |rounds|
  {
    SomethingMissing(s, sender);
    RoundShrinks(s, cb, rounds[0], sender);
    var r := Run(s, cb, rounds[0]);
    if Deliveries(r.events) == 0 {
      SmallerSet(MissingSet(r.udp, sender), MissingSet(s, sender));
      RoundsComplete(r.udp, cb, rounds[1..], sender);
    }
  }

  lemma SomethingMissing(s: Udp, sender: Sender)
    requires OnGuard(s, true, sender)
    ensures MissingSet(s, sender) != {}
  {
    FullWhenCounted(s.fragments.Keys, |sender(s.currentFrame)|);
    var q: byte :| q < |sender(s.currentFrame)| && q !in s.fragments.Keys;
    assert q in MissingSet(s, sender);
  }

  lemma SmallerSet(a: set<byte>, b: set<byte>)
    requires a < b
    ensures |a| < |b|
  {
    assert b == a + (b - a);
    assert b - a != {};
  }
}
