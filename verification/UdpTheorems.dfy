/** The reassembler against a sender over a network that loses, repeats and reorders. */
module UdpTheorems {
  import opened Strings
  import opened Bytes
  import opened UdpReassembly

  /** What happens to the session, one thing at a time. */
  datatype Step =
    | Arrive(frame: byte, seqNo: byte, maxSeq: byte, data: seq<byte>)
    | Expire
    | Fire(frame: byte)

  /** The timer expires only while a wait is armed; only expired handlers run, and a scan with the
      eight-bit counter at its limit never returns. */
  predicate Possible(s: Udp, step: Step) {
    match step
    case Arrive(_, _, _, _) => true
    case Expire => s.armed.Some?
    case Fire(f) => f in s.queued && (HandlerActs(s, f) ==> s.expectedMaxSeq <= 254)
  }

  function Take(s: Udp, cb: Callbacks, step: Step): Result
    requires Possible(s, step)
  {
    match step
    case Arrive(f, q, m, d) => AfterFragment(s, cb, f, q, m, d)
    case Expire => Result(AfterExpiry(s), [])
    case Fire(f) => AfterHandler(s, cb, f)
  }

  predicate AllPossible(s: Udp, cb: Callbacks, steps: seq<Step>)
    decreases |steps|
  {
    steps == [] || (Possible(s, steps[0]) && AllPossible(Take(s, cb, steps[0]).udp, cb, steps[1..]))
  }

  function Run(s: Udp, cb: Callbacks, steps: seq<Step>): Result
    requires AllPossible(s, cb, steps)
    decreases |steps|
  {
    if steps == [] then Result(s, []) else
    var first := Take(s, cb, steps[0]);
    var rest := Run(first.udp, cb, steps[1..]);
    Result(rest.udp, first.events + rest.events)
  }

  // ----------------------------------------------------------------- sender

  /** Each frame number stands for one image, cut into 1 to 256 chunks. */
  type Sender = f: byte -> seq<seq<byte>> | (forall n: byte :: 1 <= |f(n)| <= 256) witness ((n: byte) => [[]])

  function Concat(chunks: seq<seq<byte>>): seq<byte> {
    if chunks == [] then [] else Concat(chunks[..|chunks| - 1]) + chunks[|chunks| - 1]
  }

  /** A fragment as the sender cuts it; when and how often it arrives is up to the network. */
  predicate Sent(step: Step, sender: Sender) {
    step.Arrive? ==>
      step.seqNo < |sender(step.frame)| == step.maxSeq + 1 && step.data == sender(step.frame)[step.seqNo]
  }

  predicate AllSent(steps: seq<Step>, sender: Sender) {
    forall i :: 0 <= i < |steps| ==> Sent(steps[i], sender)
  }

  // ----------------------------------------------------------------- safety

  /** What is held belongs to the current frame and is not all of it. */
  ghost predicate Holds(s: Udp, sender: Sender) {
    var chunks := sender(s.currentFrame);
    && |s.fragments| < |chunks|
    && (forall q :: q in s.fragments ==> q < |chunks| && s.fragments[q] == chunks[q])
    && (s.expectedMaxSeq + 1 == |chunks| || (s.armed.None? && s.queued == multiset{}))
  }

  /** Numbers below `n` only, and as many as `n`, are all of them. */
  lemma {:induction false} FullWhenCounted(held: set<byte>, n: nat)
    requires n <= 256 && forall q :: q in held ==> q < n
    ensures |held| <= n
    ensures |held| == n <==> forall q: byte :: q < n ==> q in held
  {
    if n > 0 {
      var last: byte := n - 1;
      FullWhenCounted(held - {last}, n - 1);
      if forall q: byte :: q < n ==> q in held {
        assert forall q: byte :: q < n - 1 ==> q in held - {last};
      }
    } else {
      assert held == {};
    }
  }

  lemma {:induction false} AssembleIsConcat(fragments: map<byte, seq<byte>>, chunks: seq<seq<byte>>, n: nat)
    requires n <= |chunks| <= 256 && forall q: byte :: q < n ==> q in fragments && fragments[q] == chunks[q]
    ensures Assemble(fragments, n) == Concat(chunks[..n])
  {
    if n > 0 {
      AssembleIsConcat(fragments, chunks, n - 1);
      assert chunks[..n][..n - 1] == chunks[..n - 1];
    }
  }

  /** Each image delivered is a whole frame of the sender, in order. */
  ghost predicate WholeFrame(e: Event, sender: Sender) {
    e.Deliver? ==> exists f: byte :: e.image == Concat(sender(f))
  }

  /** The sequence numbers held once `step` has arrived, were nothing cleared. */
  function HeldWith(s: Udp, step: Step): set<byte>
    requires step.Arrive?
  {
    OpenFrame(s, step.frame, step.maxSeq).fragments.Keys + {step.seqNo}
  }

  function Complete(frame: seq<seq<byte>>, meta: string, cb: Callbacks): seq<Event> {
    (if cb.onComplete then [Deliver(Concat(frame), meta)] else []) + (if cb.sendControl then [Ack] else [])
  }

  lemma OpenHolds(s: Udp, step: Step, sender: Sender)
    requires Holds(s, sender) && step.Arrive? && Sent(step, sender)
    ensures var started := OpenFrame(s, step.frame, step.maxSeq);
            Holds(started, sender) && started.currentFrame == step.frame && started.expectedMeta == s.expectedMeta
  {
  }

  /** The last chunk: the image is the whole frame. */
  lemma LastChunk(s: Udp, step: Step, sender: Sender)
    requires Holds(s, sender) && step.Arrive? && Sent(step, sender) && s.currentFrame == step.frame
    requires step.seqNo !in s.fragments && |s.fragments| + 1 == |sender(step.frame)|
    ensures Assemble(s.fragments[step.seqNo := step.data], step.maxSeq + 1) == Concat(sender(step.frame))
  {
    var chunks := sender(step.frame);
    var held := s.fragments[step.seqNo := step.data];
    assert held.Keys == s.fragments.Keys + {step.seqNo};
    FullWhenCounted(held.Keys, |chunks|);
    AssembleIsConcat(held, chunks, |chunks|);
    assert chunks[..|chunks|] == chunks;
  }

  /** A fragment of the current frame keeps the invariant, and completes the frame exactly when it
      is the last chunk. */
  /** What adding a fragment to the frame under assembly comes to. */
  ghost predicate Added(s: Udp, cb: Callbacks, step: Step, sender: Sender)
    requires step.Arrive?
  {
    var r := AddFragment(s, cb, step.seqNo, step.maxSeq, step.data);
    var held := s.fragments.Keys + {step.seqNo};
    && Holds(r.udp, sender)
    && r.udp.currentFrame == step.frame
    && if |held| == |sender(step.frame)|
       then r.udp.fragments == map[] && r.events == Complete(sender(step.frame), s.expectedMeta, cb)
       else r.udp.fragments.Keys == held && r.events == []
  }

  lemma RepeatSafe(s: Udp, cb: Callbacks, step: Step, sender: Sender)
    requires Holds(s, sender) && step.Arrive? && s.currentFrame == step.frame && step.seqNo in s.fragments
    ensures Added(s, cb, step, sender)
  {
    assert s.fragments.Keys + {step.seqNo} == s.fragments.Keys;
  }

  /** The last missing fragment hands over the whole frame. */
  lemma LastCompletes(s: Udp, cb: Callbacks, step: Step, sender: Sender)
    requires Holds(s, sender) && step.Arrive? && Sent(step, sender) && s.currentFrame == step.frame
    requires step.seqNo !in s.fragments && |s.fragments| + 1 == |sender(step.frame)|
    ensures AddFragment(s, cb, step.seqNo, step.maxSeq, step.data)
         == Result(s.(fragments := map[], armed := None), Complete(sender(step.frame), s.expectedMeta, cb))
  {
    LastChunk(s, step, sender);
  }

  lemma ClearedHolds(s: Udp, sender: Sender)
    requires Holds(s, sender)
    ensures Holds(s.(fragments := map[], armed := None), sender)
  {
  }

  lemma OneMoreKey(fragments: map<byte, seq<byte>>, q: byte)
    requires q !in fragments
    ensures |fragments.Keys + {q}| == |fragments| + 1
  {
    assert |fragments.Keys| == |fragments|;
  }

  lemma LastSafe(s: Udp, cb: Callbacks, step: Step, sender: Sender)
    requires Holds(s, sender) && step.Arrive? && Sent(step, sender) && s.currentFrame == step.frame
    requires step.seqNo !in s.fragments && |s.fragments| + 1 == |sender(step.frame)|
    ensures Added(s, cb, step, sender)
  {
    LastCompletes(s, cb, step, sender);
    ClearedHolds(s, sender);
    OneMoreKey(s.fragments, step.seqNo);
  }

  lemma MoreSafe(s: Udp, cb: Callbacks, step: Step, sender: Sender)
    requires Holds(s, sender) && step.Arrive? && Sent(step, sender) && s.currentFrame == step.frame
    requires step.seqNo !in s.fragments && |s.fragments| + 1 != |sender(step.frame)|
    ensures Added(s, cb, step, sender)
  {
    var held := s.fragments[step.seqNo := step.data];
    assert held.Keys == s.fragments.Keys + {step.seqNo} && |held| == |held.Keys|;
    FewerThanAll(held.Keys, |sender(step.frame)|);
  }

  lemma FewerThanAll(held: set<byte>, n: nat)
    requires n <= 256 && (forall q :: q in held ==> q < n) && |held| != n
    ensures |held| < n
  {
    FullWhenCounted(held, n);
  }

  lemma AddSafe(s: Udp, cb: Callbacks, step: Step, sender: Sender)
    requires Holds(s, sender) && step.Arrive? && Sent(step, sender) && s.currentFrame == step.frame
    ensures Added(s, cb, step, sender)
  {
    if step.seqNo in s.fragments {
      RepeatSafe(s, cb, step, sender);
    } else if |s.fragments| + 1 == |sender(step.frame)| {
      LastSafe(s, cb, step, sender);
    } else {
      MoreSafe(s, cb, step, sender);
    }
  }

  lemma ArrivalSafe(s: Udp, cb: Callbacks, step: Step, sender: Sender)
    requires Holds(s, sender) && step.Arrive? && Sent(step, sender)
    ensures var r := Take(s, cb, step);
            && Holds(r.udp, sender)
            && r.udp.currentFrame == step.frame
            && if |HeldWith(s, step)| == |sender(step.frame)|
               then r.udp.fragments == map[] && r.events == Complete(sender(step.frame), s.expectedMeta, cb)
               else r.udp.fragments.Keys == HeldWith(s, step) && r.events == []
  {
    OpenHolds(s, step, sender);
    AddSafe(OpenFrame(s, step.frame, step.maxSeq), cb, step, sender);
  }

  lemma StepSafe(s: Udp, cb: Callbacks, step: Step, sender: Sender)
    requires Holds(s, sender) && Possible(s, step) && Sent(step, sender)
    ensures var r := Take(s, cb, step);
            Holds(r.udp, sender) && forall e :: e in r.events ==> WholeFrame(e, sender)
  {
    if step.Arrive? {
      ArrivalSafe(s, cb, step, sender);
    }
  }

  lemma InitialHolds(sender: Sender)
    ensures Holds(INITIAL, sender)
  {
  }

  /** Under any loss, repetition, reordering and interleaving, every image delivered is the in-order
      concatenation of all chunks of one frame of the sender. */
  lemma {:induction false} ReassemblySafe(s: Udp, cb: Callbacks, steps: seq<Step>, sender: Sender)
    requires Holds(s, sender) && AllPossible(s, cb, steps) && AllSent(steps, sender)
    ensures var r := Run(s, cb, steps);
            Holds(r.udp, sender) && forall e :: e in r.events ==> WholeFrame(e, sender)
    decreases |steps|
  {
    if steps != [] {
      StepSafe(s, cb, steps[0], sender);
      ReassemblySafe(Take(s, cb, steps[0]).udp, cb, steps[1..], sender);
    }
  }

  /** Deliveries and acknowledgements come in adjacent pairs. */
  ghost predicate Paired(events: seq<Event>) {
    && (forall i :: 0 <= i < |events| && events[i].Deliver? ==> i + 1 < |events| && events[i + 1].Ack?)
    && (forall i :: 0 <= i < |events| && events[i].Ack? ==> i > 0 && events[i - 1].Deliver?)
  }

  lemma PairedConcat(a: seq<Event>, b: seq<Event>)
    requires Paired(a) && Paired(b)
    ensures Paired(a + b)
  {
    var c := a + b;
    forall i | 0 <= i < |c| && c[i].Deliver? ensures i + 1 < |c| && c[i + 1].Ack? {
      assert i >= |a| ==> b[i - |a|] == c[i];
    }
    forall i | 0 <= i < |c| && c[i].Ack? ensures i > 0 && c[i - 1].Deliver? {
      assert i >= |a| ==> b[i - |a|] == c[i];
    }
  }

  /** With both callbacks set, every delivery is followed at once by its one acknowledgement,
      and nothing is acknowledged that was not delivered; whoever the sender is. */
  lemma {:induction false} EveryDeliveryAcked(s: Udp, steps: seq<Step>)
    requires AllPossible(s, Callbacks(true, true), steps)
    ensures Paired(Run(s, Callbacks(true, true), steps).events)
    decreases |steps|
  {
    var cb := Callbacks(true, true);
    if steps != [] {
      var first := Take(s, cb, steps[0]);
      assert Paired(first.events);
      EveryDeliveryAcked(first.udp, steps[1..]);
      PairedConcat(first.events, Run(first.udp, cb, steps[1..]).events);
    }
  }

  // ---------------------------------------------------------- exactly once

  function Deliveries(events: seq<Event>): nat {
    if events == [] then 0 else (if events[0].Deliver? then 1 else 0) + Deliveries(events[1..])
  }

  lemma {:induction false} DeliveriesConcat(a: seq<Event>, b: seq<Event>)
    ensures Deliveries(a + b) == Deliveries(a) + Deliveries(b)
  {
    if a == [] {
      assert a + b == b;
    } else {
      assert (a + b)[1..] == a[1..] + b;
      DeliveriesConcat(a[1..], b);
    }
  }

  /** The sequence numbers that arrive, in order of arrival. */
  function Arrivals(steps: seq<Step>): seq<byte> {
    if steps == [] then [] else
    (if steps[0].Arrive? then [steps[0].seqNo] else []) + Arrivals(steps[1..])
  }

  predicate OnlyFrame(steps: seq<Step>, frame: byte) {
    forall i :: 0 <= i < |steps| && steps[i].Arrive? ==> steps[i].frame == frame
  }

  /** How often a list of arrivals fills a frame of `n` chunks, starting with `held`. */
  function Fills(arrivals: seq<byte>, n: nat, held: set<byte>): nat {
    if arrivals == [] then 0 else
    var more := held + {arrivals[0]};
    if |more| == n then 1 + Fills(arrivals[1..], n, {}) else Fills(arrivals[1..], n, more)
  }

  predicate Covers(arrivals: seq<byte>, n: nat) {
    forall q: byte :: q < n ==> q in arrivals
  }

  /** While one frame number arrives alone, the session delivers as often as the arrivals fill the frame. */
  lemma {:induction false} DeliversPerFill(s: Udp, cb: Callbacks, steps: seq<Step>, sender: Sender, frame: byte)
    requires cb.onComplete && Holds(s, sender)
    requires AllPossible(s, cb, steps) && AllSent(steps, sender) && OnlyFrame(steps, frame)
    ensures Deliveries(Run(s, cb, steps).events)
            == Fills(Arrivals(steps), |sender(frame)|, HeldOf(s, frame))
    decreases |steps|
  {
    if steps != [] {
      var first := Take(s, cb, steps[0]);
      StepSafe(s, cb, steps[0], sender);
      DeliversPerFill(first.udp, cb, steps[1..], sender, frame);
      DeliveriesConcat(first.events, Run(first.udp, cb, steps[1..]).events);
      StepFills(s, cb, steps[0], sender, frame, Arrivals(steps[1..]));
    }
  }

  /** What one step delivers is what its arrival adds to the fills. */
  lemma StepFills(s: Udp, cb: Callbacks, step: Step, sender: Sender, frame: byte, rest: seq<byte>)
    requires cb.onComplete && Holds(s, sender)
    requires Possible(s, step) && Sent(step, sender) && (step.Arrive? ==> step.frame == frame)
    ensures var r := Take(s, cb, step);
            Fills((if step.Arrive? then [step.seqNo] else []) + rest, |sender(frame)|, HeldOf(s, frame))
            == Deliveries(r.events) + Fills(rest, |sender(frame)|, HeldOf(r.udp, frame))
  {
    if step.Arrive? {
      ArrivalFills(s, cb, step, sender);
      assert ([step.seqNo] + rest)[1..] == rest;
    } else {
      TimerFillsNothing(s, cb, step, frame);
      assert [] + rest == rest;
    }
  }

  /** What is held of `frame`. */
  function HeldOf(s: Udp, frame: byte): set<byte> {
    if s.currentFrame == frame then s.fragments.Keys else {}
  }

  lemma OneImage(frame: seq<seq<byte>>, meta: string, cb: Callbacks)
    requires cb.onComplete
    ensures Deliveries(Complete(frame, meta, cb)) == 1
  {
    var image := [Deliver(Concat(frame), meta)];
    assert image[1..] == [] && ([Ack])[1..] == [];
    assert Deliveries(image) == 1 && Deliveries([Ack]) == 0 && Deliveries([]) == 0;
    DeliveriesConcat(image, if cb.sendControl then [Ack] else []);
  }

  lemma ArrivalFills(s: Udp, cb: Callbacks, step: Step, sender: Sender)
    requires cb.onComplete && Holds(s, sender) && step.Arrive? && Sent(step, sender)
    ensures var r := Take(s, cb, step);
            var more := HeldOf(s, step.frame) + {step.seqNo};
            if |more| == |sender(step.frame)| then Deliveries(r.events) == 1 && HeldOf(r.udp, step.frame) == {}
            else Deliveries(r.events) == 0 && HeldOf(r.udp, step.frame) == more
  {
    ArrivalSafe(s, cb, step, sender);
    HeldWithIs(s, step);
    FillsOrNot(Take(s, cb, step), cb, step.frame, sender(step.frame), s.expectedMeta, HeldWith(s, step));
  }

  lemma HeldWithIs(s: Udp, step: Step)
    requires step.Arrive?
    ensures HeldWith(s, step) == HeldOf(s, step.frame) + {step.seqNo}
  {
  }

  lemma FillsOrNot(r: Result, cb: Callbacks, frame: byte, chunks: seq<seq<byte>>, meta: string, held: set<byte>)
    requires cb.onComplete && r.udp.currentFrame == frame
    requires if |held| == |chunks| then r.udp.fragments == map[] && r.events == Complete(chunks, meta, cb)
             else r.udp.fragments.Keys == held && r.events == []
    ensures Deliveries(r.events) == (if |held| == |chunks| then 1 else 0)
    ensures HeldOf(r.udp, frame) == if |held| == |chunks| then {} else held
  {
    OneImage(chunks, meta, cb);
  }

  lemma TimerFillsNothing(s: Udp, cb: Callbacks, step: Step, frame: byte)
    requires !step.Arrive? && Possible(s, step)
    ensures var r := Take(s, cb, step);
            Deliveries(r.events) == 0 && HeldOf(r.udp, frame) == HeldOf(s, frame)
  {
    var events := Take(s, cb, step).events;
    assert events == [] || (events[0].Request? && events[1..] == []);
  }

  predicate InRange(arrivals: seq<byte>, n: nat) {
    forall i :: 0 <= i < |arrivals| ==> arrivals[i] < n
  }

  ghost predicate CoversWith(arrivals: seq<byte>, n: nat, held: set<byte>) {
    forall q: byte :: q < n ==> q in arrivals || q in held
  }

  /** The arrivals up to the `k`-th are the first to fill the frame. */
  ghost predicate FirstFill(arrivals: seq<byte>, n: nat, held: set<byte>, k: nat) {
    && 0 < k <= |arrivals|
    && CoversWith(arrivals[..k], n, held)
    && !CoversWith(arrivals[..k - 1], n, held)
  }

  lemma {:induction false} NoFill(arrivals: seq<byte>, n: nat, held: set<byte>)
    requires n <= 256 && (forall q :: q in held ==> q < n) && InRange(arrivals, n)
    requires |held| < n && !CoversWith(arrivals, n, held)
    ensures Fills(arrivals, n, held) == 0
  {
    if arrivals != [] {
      var more := held + {arrivals[0]};
      FullWhenCounted(more, n);
      assert arrivals == [arrivals[0]] + arrivals[1..];
      NoFill(arrivals[1..], n, more);
    }
  }

  lemma {:induction false} FillsFrom(arrivals: seq<byte>, n: nat, held: set<byte>) returns (k: nat)
    requires n <= 256 && (forall q :: q in held ==> q < n) && InRange(arrivals, n)
    requires |held| < n && CoversWith(arrivals, n, held)
    ensures FirstFill(arrivals, n, held, k)
    ensures Fills(arrivals, n, held) == 1 + Fills(arrivals[k..], n, {})
  {
    FullWhenCounted(held, n);
    assert arrivals != [];
    var more := held + {arrivals[0]};
    assert arrivals == [arrivals[0]] + arrivals[1..];
    FullWhenCounted(more, n);
    if |more| == n {
      k := 1;
      assert arrivals[..1] == [arrivals[0]] && arrivals[..0] == [];
    } else {
      var j := FillsFrom(arrivals[1..], n, more);
      k := j + 1;
      assert arrivals[..k] == [arrivals[0]] + arrivals[1..][..j];
      assert arrivals[..k - 1] == [arrivals[0]] + arrivals[1..][..j - 1];
      assert arrivals[k..] == arrivals[1..][j..];
    }
  }

  lemma PrefixCovers(arrivals: seq<byte>, n: nat, held: set<byte>, i: nat, j: nat)
    requires i <= j <= |arrivals| && CoversWith(arrivals[..i], n, held)
    ensures CoversWith(arrivals[..j], n, held)
  {
    assert arrivals[..j] == arrivals[..i] + arrivals[i..j];
  }

  lemma FirstFillUnique(arrivals: seq<byte>, n: nat, held: set<byte>, j: nat, k: nat)
    requires FirstFill(arrivals, n, held, j) && FirstFill(arrivals, n, held, k)
    ensures j == k
  {
  }

  /** The `k`-th arrival is the one that completes the frame, and what comes after does not cover it again. */
  ghost predicate CompletedOnceAt(arrivals: seq<byte>, n: nat, k: nat) {
    && 0 < k <= |arrivals|
    && Covers(arrivals[..k], n) && !Covers(arrivals[..k - 1], n)
    && !Covers(arrivals[k..], n)
  }

  lemma FillsOnceIff(arrivals: seq<byte>, n: nat)
    requires 1 <= n <= 256 && InRange(arrivals, n)
    ensures Fills(arrivals, n, {}) == 1 <==> exists k: nat :: CompletedOnceAt(arrivals, n, k)
  {
    assert forall l: seq<byte> :: CoversWith(l, n, {}) <==> Covers(l, n);
    if k: nat :| CompletedOnceAt(arrivals, n, k) {
      PrefixCovers(arrivals, n, {}, k, |arrivals|);
      assert arrivals[..|arrivals|] == arrivals;
      var j := FillsFrom(arrivals, n, {});
      FirstFillUnique(arrivals, n, {}, j, k);
      NoFill(arrivals[k..], n, {});
    }
    if Fills(arrivals, n, {}) == 1 {
      if !Covers(arrivals, n) {
        NoFill(arrivals, n, {});
      }
      var j := FillsFrom(arrivals, n, {});
      if Covers(arrivals[j..], n) {
        var _ := FillsFrom(arrivals[j..], n, {});
      }
      assert CompletedOnceAt(arrivals, n, j);
    }
  }

  /** A frame whose fragments arrive with no other frame number in between is delivered exactly once
      if and only if its chunks all arrive and the arrivals after completion do not cover it again. */
  lemma DeliveredOnceIff(s: Udp, cb: Callbacks, steps: seq<Step>, sender: Sender, frame: byte)
    requires cb.onComplete && Holds(s, sender) && (s.currentFrame == frame ==> s.fragments == map[])
    requires AllPossible(s, cb, steps) && AllSent(steps, sender) && OnlyFrame(steps, frame)
    ensures Deliveries(Run(s, cb, steps).events) == 1
            <==> exists k: nat :: CompletedOnceAt(Arrivals(steps), |sender(frame)|, k)
  {
    DeliversPerFill(s, cb, steps, sender, frame);
    ArrivalsInRange(steps, sender, frame);
    FillsOnceIff(Arrivals(steps), |sender(frame)|);
  }

  lemma {:induction false} ArrivalsInRange(steps: seq<Step>, sender: Sender, frame: byte)
    requires AllSent(steps, sender) && OnlyFrame(steps, frame)
    ensures InRange(Arrivals(steps), |sender(frame)|)
  {
    if steps != [] {
      assert Sent(steps[0], sender);
      ArrivalsInRange(steps[1..], sender, frame);
    }
  }

  /** A concrete run: the one chunk of a frame arrives twice and the image is delivered twice. */
  lemma DuplicateDeliversTwice()
    ensures var cb := Callbacks(true, true);
            var step := Arrive(7, 0, 0, [1, 2, 3]);
            && AllPossible(INITIAL, cb, [step, step])
            && Run(INITIAL, cb, [step, step]).events == [Deliver([1, 2, 3], ""), Ack, Deliver([1, 2, 3], ""), Ack]
  {
    var cb := Callbacks(true, true);
    var step := Arrive(7, 0, 0, [1, 2, 3]);
    var one := map[0 as byte := [1, 2, 3]];
    assert Assemble(one, 1) == Assemble(one, 0) + [1, 2, 3] == [1, 2, 3];
    var u := Take(INITIAL, cb, step);
    assert u.events == [Deliver([1, 2, 3], ""), Ack];
    assert Take(u.udp, cb, step) == Result(u.udp, u.events);
    assert [step, step][1..] == [step];
    assert [step][1..] == [];
    assert Run(u.udp, cb, [step]).events == u.events;
  }
}
