/** Reassembly of image frames from UDP fragments, with the timer that asks for lost ones. */
module UdpReassembly {
  import opened Strings
  import opened Bytes

  /** The session. `armed` is the frame number of the wait the timer holds; `queued` are the handlers of
      waits that had expired before they were cancelled and are still to run. */
  datatype Udp = Udp(
    currentFrame: byte,
    expectedMaxSeq: byte,
    fragments: map<byte, seq<byte>>,
    expectedMeta: string,
    armed: Option<byte>,
    queued: multiset<byte>)

  const INITIAL: Udp := Udp(255, 0, map[], "", None, multiset{})

  /** Which of the two callbacks the session was given. */
  datatype Callbacks = Callbacks(onComplete: bool, sendControl: bool)

  datatype Event =
    | Deliver(image: seq<byte>, meta: string)
    | Ack
    | Request(frame: byte, missing: seq<byte>)

  datatype Result = Result(udp: Udp, events: seq<Event>)

  // ------------------------------------------------------------- operations

  /** The held fragments 0..n-1 in order; a hole contributes nothing. */
  function Assemble(fragments: map<byte, seq<byte>>, n: nat): seq<byte>
    requires n <= 256
  {
    if n == 0 then [] else
    Assemble(fragments, n - 1) + (if n - 1 in fragments then fragments[n - 1] else [])
  }

  /** The sequence numbers below `n` that are not held, ascending. */
  function Missing(fragments: map<byte, seq<byte>>, n: nat): (m: seq<byte>)
    requires n <= 256
  {
    if n == 0 then [] else
    Missing(fragments, n - 1) + (if n - 1 in fragments then [] else [n - 1])
  }

  function OpenFrame(s: Udp, frame: byte, maxSeq: byte): Udp {
    if frame == s.currentFrame then s else
    s.(currentFrame := frame, expectedMaxSeq := maxSeq, fragments := map[], armed := Some(frame))
  }

  function Completion(s: Udp, maxSeq: byte, cb: Callbacks): seq<Event> {
    (if cb.onComplete then [Deliver(Assemble(s.fragments, maxSeq + 1), s.expectedMeta)] else [])
    + (if cb.sendControl then [Ack] else [])
  }

  /** A fragment of the frame being assembled. */
  function AddFragment(s: Udp, cb: Callbacks, seqNo: byte, maxSeq: byte, data: seq<byte>): Result {
    if seqNo in s.fragments then Result(s, []) else
    var held := s.(fragments := s.fragments[seqNo := data]);
    if |held.fragments| != maxSeq + 1 then Result(held, []) else
    Result(held.(fragments := map[], armed := None), Completion(held, maxSeq, cb))
  }

  function AfterFragment(s: Udp, cb: Callbacks, frame: byte, seqNo: byte, maxSeq: byte, data: seq<byte>): Result {
    AddFragment(OpenFrame(s, frame, maxSeq), cb, seqNo, maxSeq, data)
  }

  /** The counter of the scan is eight bits wide: with a maximum of 255 the scan does not come to an end. */
  function AfterScan(s: Udp, cb: Callbacks): Result
    requires s.expectedMaxSeq <= 254
  {
    var missing := Missing(s.fragments, s.expectedMaxSeq + 1);
    if missing == [] || !cb.sendControl then Result(s, []) else
    Result(s.(armed := Some(s.currentFrame)), [Request(s.currentFrame, missing)])
  }

  function AfterExpiry(s: Udp): Udp
    requires s.armed.Some?
  {
    s.(armed := None, queued := s.queued + multiset{s.armed.value})
  }

  /** A handler still does something only if its frame is the current one and some of it is there. */
  predicate HandlerActs(s: Udp, frame: byte) {
    s.currentFrame == frame && s.fragments != map[]
  }

  function AfterHandler(s: Udp, cb: Callbacks, frame: byte): Result
    requires frame in s.queued && (HandlerActs(s, frame) ==> s.expectedMaxSeq <= 254)
  {
    var popped := s.(queued := s.queued - multiset{frame});
    if HandlerActs(s, frame) then AfterScan(popped, cb) else Result(popped, [])
  }

  // ------------------------------------------------------------- the object

  datatype Datagram = Datagram(length: nat, messageType: byte, frame: byte, seqNo: byte, maxSeq: byte, plain: seq<byte>)

  const IMAGE_HEADER_SIZE := 8
  const IMAGE_TYPE: byte := 0x0a

  class UdpSession {
    var currentFrame: byte
    var expectedMaxSeq: byte
    var fragments: map<byte, seq<byte>>
    var expectedMeta: string
    var armed: Option<byte>
    var queued: multiset<byte>
    /** What went to the callbacks so far. */
    var events: seq<Event>
    const callbacks: Callbacks

    constructor (cb: Callbacks)
      ensures State() == INITIAL && events == [] && callbacks == cb
    {
      currentFrame, expectedMaxSeq, fragments, expectedMeta := 255, 0, map[], "";
      armed, queued, events := None, multiset{}, [];
      callbacks := cb;
    }

    ghost function State(): Udp
      reads this
    {
      Udp(currentFrame, expectedMaxSeq, fragments, expectedMeta, armed, queued)
    }

    ghost predicate Did(r: Result, eventsBefore: seq<Event>)
      reads this
    {
      State() == r.udp && events == eventsBefore + r.events
    }

    method SetExpectedMeta(meta: string)
      modifies this`expectedMeta
      ensures expectedMeta == meta
    {
      expectedMeta := meta;
    }

    method HandleImageFragment(frame: byte, seqNo: byte, maxSeq: byte, data: seq<byte>)
      modifies this
      ensures Did(AfterFragment(old(State()), callbacks, frame, seqNo, maxSeq, data), old(events))
    {
      if frame != currentFrame {
        currentFrame := frame;
        expectedMaxSeq := maxSeq;
        fragments := map[];
        armed := Some(frame);
      }
      if seqNo in fragments {
        return;
      }
      fragments := fragments[seqNo := data];
      if |fragments| == maxSeq + 1 {
        armed := None;
        var image: seq<byte> := [];
        var i := 0;
        while i <= maxSeq
          invariant 0 <= i <= maxSeq + 1
          invariant image == Assemble(fragments, i)
        {
          if i in fragments {
            image := image + fragments[i];
          }
          i := i + 1;
        }
        if callbacks.onComplete {
          events := events + [Deliver(image, expectedMeta)];
        }
        if callbacks.sendControl {
          events := events + [Ack];
        }
        fragments := map[];
      }
    }

    method CheckMissingFragments()
      requires expectedMaxSeq <= 254
      modifies this
      ensures Did(AfterScan(old(State()), callbacks), old(events))
    {
      var missing: seq<byte> := [];
      var i: byte := 0;
      while i <= expectedMaxSeq
        invariant 0 <= i <= expectedMaxSeq + 1
        invariant missing == Missing(fragments, i)
        decreases 256 - i
      {
        if i !in fragments {
          missing := missing + [i];
        }
        i := (i + 1) % 256;
      }
      if missing != [] && callbacks.sendControl {
        events := events + [Request(currentFrame, missing)];
        armed := Some(currentFrame);
      }
    }

    method TimerExpires()
      requires armed.Some?
      modifies this`armed, this`queued
      ensures State() == AfterExpiry(old(State()))
    {
      queued := queued + multiset{armed.value};
      armed := None;
    }

    method RunTimerHandler(frame: byte)
      requires frame in queued && (HandlerActs(State(), frame) ==> expectedMaxSeq <= 254)
      modifies this
      ensures Did(AfterHandler(old(State()), callbacks, frame), old(events))
    {
      queued := queued - multiset{frame};
      if currentFrame == frame && fragments != map[] {
        CheckMissingFragments();
      }
    }

    /** `d.plain` is what decryption makes of the datagram's body. */
    method HandlePacket(d: Datagram, handshakeDone: bool)
      modifies this
      ensures if d.length >= IMAGE_HEADER_SIZE && d.messageType == IMAGE_TYPE && handshakeDone && d.plain != []
              then Did(AfterFragment(old(State()), callbacks, d.frame, d.seqNo, d.maxSeq, d.plain), old(events))
              else State() == old(State()) && events == old(events)
    {
      if d.length < IMAGE_HEADER_SIZE {
        return;
      }
      if d.messageType != IMAGE_TYPE {
        return;
      }
      if !handshakeDone {
        return;
      }
      if d.plain != [] {
        HandleImageFragment(d.frame, d.seqNo, d.maxSeq, d.plain);
      }
    }
  }

  // ----------------------------------------------------- the missing-list scan

  /** The list holds exactly the sequence numbers below `n` not held, in ascending order without repeats. */
  lemma {:induction false} MissingIsExact(fragments: map<byte, seq<byte>>, n: nat)
    requires n <= 256
    ensures var m := Missing(fragments, n);
            && (forall q: byte :: q in m <==> q < n && q !in fragments)
            && (forall i, j :: 0 <= i < j < |m| ==> m[i] < m[j])
  {
    if n > 0 {
      MissingIsExact(fragments, n - 1);
      var before := Missing(fragments, n - 1);
      assert forall i :: 0 <= i < |before| ==> before[i] in before;
    }
  }

  function Bump(i: byte): byte {
    if i == 255 then 0 else i + 1
  }

  /** The value of an eight-bit counter after `k` increments from 0. */
  function Counter(k: nat): byte {
    if k == 0 then 0 else Bump(Counter(k - 1))
  }

  lemma ModuloStep(k: nat)
    ensures (k + 1) % 256 == if k % 256 == 255 then 0 else k % 256 + 1
  {
    assert k == 256 * (k / 256) + k % 256;
  }

  lemma {:induction false} CounterCounts(k: nat)
    ensures Counter(k) == k % 256
  {
    if k > 0 {
      CounterCounts(k - 1);
      ModuloStep(k - 1);
    }
  }

  /** The scan's guard `i <= max` fails at some point exactly when `max` is at most 254. */
  lemma ScanEndsIff(max: byte)
    ensures (exists k: nat :: !(Counter(k) <= max)) <==> max <= 254
  {
    if max <= 254 {
      CounterCounts(max + 1);
      assert (max + 1) % 256 == max + 1;
      assert !(Counter(max + 1) <= max);
    }
  }
}
