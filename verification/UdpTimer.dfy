/** When the session speaks and when it stays silent: what each arrival, expiry and handler does. */
module UdpTimer {
  import opened Strings
  import opened Bytes
  import opened UdpReassembly
  import opened UdpTheorems

  // ----------------------------------------------------------------- handlers

  ghost predicate SomethingMissing(s: Udp) {
    exists q: byte :: q <= s.expectedMaxSeq && q !in s.fragments
  }

  /** The request for a frame: everything missing up to the maximum, ascending, nothing else. */
  ghost predicate AsksForMissing(e: Event, s: Udp) {
    && e.Request? && e.frame == s.currentFrame
    && (forall q: byte :: q in e.missing <==> q <= s.expectedMaxSeq && q !in s.fragments)
    && (forall i, j :: 0 <= i < j < |e.missing| ==> e.missing[i] < e.missing[j])
  }

  /** What a scan lists is a request for what is missing, and it lists nothing if and only if nothing is. */
  lemma ScanAsks(s: Udp)
    ensures var missing := Missing(s.fragments, s.expectedMaxSeq + 1);
            (missing != [] <==> SomethingMissing(s)) && AsksForMissing(Request(s.currentFrame, missing), s)
  {
    MissingIsExact(s.fragments, s.expectedMaxSeq + 1);
    var missing := Missing(s.fragments, s.expectedMaxSeq + 1);
    if missing != [] {
      assert missing[0] in missing;
    }
  }

  /** An expired wait asks and is armed again if and only if its frame is the one under assembly, some of it is held,
      some of it is missing and there is a control callback; otherwise it goes without a trace. */
  lemma HandlerAsksIff(s: Udp, cb: Callbacks, f: byte)
    requires Possible(s, Fire(f))
    ensures var r := Take(s, cb, Fire(f));
            var left := s.(queued := s.queued - multiset{f});
            if f == s.currentFrame && s.fragments != map[] && cb.sendControl && SomethingMissing(s)
            then r.udp == left.(armed := Some(f)) && |r.events| == 1 && AsksForMissing(r.events[0], s)
            else r == Result(left, [])
  {
    ScanAsks(s);
  }

  /** An expiry queues the handler of the wait that was armed, and that is all it does. */
  lemma ExpiryQueues(s: Udp, cb: Callbacks)
    requires Possible(s, Expire)
    ensures var r := Take(s, cb, Expire);
            && r.events == [] && r.udp.armed == None
            && r.udp.queued[s.armed.value] == s.queued[s.armed.value] + 1
            && (forall f :: f != s.armed.value ==> r.udp.queued[f] == s.queued[f])
            && r.udp == s.(armed := None, queued := r.udp.queued)
  {
  }

  // ----------------------------------------------------------------- arrivals

  /** What is held of a frame when a fragment of it comes: nothing, when its number is new. */
  function HeldFor(s: Udp, frame: byte): map<byte, seq<byte>> {
    if frame == s.currentFrame then s.fragments else map[]
  }

  /** A fragment of a new frame number drops what was held, takes over the maximum and arms a wait; else it leaves
      both alone. */
  function Switched(s: Udp, frame: byte, maxSeq: byte): Udp {
    if frame == s.currentFrame then s else
    Udp(frame, maxSeq, map[], s.expectedMeta, Some(frame), s.queued)
  }

  /** A repeated fragment does nothing. */
  lemma RepeatIgnored(s: Udp, cb: Callbacks, frame: byte, q: byte, maxSeq: byte, data: seq<byte>)
    requires frame == s.currentFrame && q in s.fragments
    ensures Take(s, cb, Arrive(frame, q, maxSeq, data)) == Result(s, [])
  {
  }

  /** A new fragment is held, and nothing is said, while the frame has fewer than its maximum calls for. */
  lemma FragmentHeld(s: Udp, cb: Callbacks, frame: byte, q: byte, maxSeq: byte, data: seq<byte>)
    requires q !in HeldFor(s, frame) && |HeldFor(s, frame)| != maxSeq
    ensures var t := Switched(s, frame, maxSeq);
            Take(s, cb, Arrive(frame, q, maxSeq, data)) == Result(t.(fragments := t.fragments[q := data]), [])
  {
    var held := HeldFor(s, frame);
    assert |held[q := data]| == |held| + 1;
  }

  /** The fragment that makes the number right completes the frame: the wait is cancelled, what is held is dropped, the
      frame number stays, and what goes out is the image with the metadata set last, then the acknowledgement, each
      as far as its callback is there. */
  lemma FragmentCompletes(s: Udp, cb: Callbacks, frame: byte, q: byte, maxSeq: byte, data: seq<byte>)
    requires q !in HeldFor(s, frame) && |HeldFor(s, frame)| == maxSeq
    ensures var r := Take(s, cb, Arrive(frame, q, maxSeq, data));
            && r.udp == Switched(s, frame, maxSeq).(fragments := map[], armed := None)
            && (cb.onComplete ==> r.events != [] && r.events[0].Deliver? && r.events[0].meta == s.expectedMeta)
            && |r.events| == (if cb.onComplete then 1 else 0) + (if cb.sendControl then 1 else 0)
            && (cb.sendControl ==> r.events[|r.events| - 1] == Ack)
  {
    var held := HeldFor(s, frame);
    assert |held[q := data]| == |held| + 1;
  }

  // --------------------------------------------------------------------- runs

  predicate TimerOnly(steps: seq<Step>) {
    forall i :: 0 <= i < |steps| ==> !steps[i].Arrive?
  }

  /** With nothing held the session is silent until a fragment arrives, whatever waits and handlers are left over. */
  lemma {:induction false} SilentWithoutFragments(s: Udp, cb: Callbacks, steps: seq<Step>)
    requires s.fragments == map[] && AllPossible(s, cb, steps) && TimerOnly(steps)
    ensures Run(s, cb, steps).events == [] && Run(s, cb, steps).udp.fragments == map[]
    decreases |steps|
  {
    if steps != [] {
      match steps[0] {
        case Expire => ExpiryQueues(s, cb);
        case Fire(f) => HandlerAsksIff(s, cb, f);
      }
      SilentWithoutFragments(Take(s, cb, steps[0]).udp, cb, steps[1..]);
    }
  }

  /** Between a delivery and the next arrival nothing is requested, and nothing else said. */
  lemma SilentAfterDelivery(s: Udp, cb: Callbacks, step: Step, steps: seq<Step>)
    requires step.Arrive? && exists i :: 0 <= i < |Take(s, cb, step).events| && Take(s, cb, step).events[i].Deliver?
    requires AllPossible(Take(s, cb, step).udp, cb, steps) && TimerOnly(steps)
    ensures Take(s, cb, step).udp.armed.None? && Run(Take(s, cb, step).udp, cb, steps).events == []
  {
    SilentWithoutFragments(Take(s, cb, step).udp, cb, steps);
  }

  /** A callback that is not there is never called. */
  predicate Permitted(e: Event, cb: Callbacks) {
    if e.Deliver? then cb.onComplete else cb.sendControl
  }

  lemma {:induction false} OnlyPermitted(s: Udp, cb: Callbacks, steps: seq<Step>)
    requires AllPossible(s, cb, steps)
    ensures forall e :: e in Run(s, cb, steps).events ==> Permitted(e, cb)
    decreases |steps|
  {
    if steps != [] {
      var first := Take(s, cb, steps[0]);
      assert forall e :: e in first.events ==> Permitted(e, cb);
      OnlyPermitted(first.udp, cb, steps[1..]);
    }
  }
}
