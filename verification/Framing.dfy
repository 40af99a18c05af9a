/** Frames on the TCP stream: a type byte, a 32-bit little-endian length, the payload. */
module Framing {
  import opened Strings
  import opened Bytes

  datatype Message = Message(kind: byte, payload: seq<byte>)

  const TLS_HANDSHAKE: byte := 0x0b

  // ------------------------------------------------------------------ writer

  /** The buffer is sized for the whole payload, but only as much of it as the 32-bit length says is copied in. */
  function Frame(m: Message): (s: seq<byte>)
    ensures |s| == 5 + |m.payload|
  {
    var len := |m.payload| % LIMIT_32;
    [m.kind] + Le32(len) + m.payload[..len] + seq(|m.payload| - len, _ => 0)
  }

  function Frames(ms: seq<Message>): seq<byte> {
    if ms == [] then [] else Frame(ms[0]) + Frames(ms[1..])
  }

  lemma FrameInParts(m: Message)
    requires |m.payload| < LIMIT_32
    ensures Frame(m) == [m.kind] + Le32(|m.payload|) + m.payload
  {
    var n := |m.payload|;
    assert n % LIMIT_32 == n && m.payload[..n] == m.payload;
  }

  lemma PartsAt(kind: byte, octets: seq<byte>, payload: seq<byte>)
    requires |octets| == 4
    ensures var f := [kind] + octets + payload; f[0] == kind && f[1..5] == octets && f[5..] == payload
  {
  }

  /** A frame is the type, the length with its lowest octet first, and the payload. */
  lemma FrameLayout(m: Message)
    requires |m.payload| < LIMIT_32
    ensures var f := Frame(m);
            && f[0] == m.kind
            && (var n := f[1..5]; |m.payload| == Weighed(n[0], n[1], n[2], n[3]))
            && f[5..] == m.payload
  {
    FrameInParts(m);
    PartsAt(m.kind, Le32(|m.payload|), m.payload);
    LowestFirst(|m.payload|);
  }

  // ------------------------------------------------------------------ reader

  /** The first frame of a stretch of the stream, once it is complete, and the bytes behind it. */
  datatype Head = Incomplete | Head(frame: Message, rest: seq<byte>)

  function FirstFrame(s: seq<byte>): (h: Head)
    ensures h.Head? ==> |h.rest| < |s|
  {
    if |s| < 5 then Incomplete else
    var len := FromLe32(s[1..5]);
    if |s| < 5 + len then Incomplete else Head(Message(s[0], s[5..5 + len]), s[5 + len..])
  }

  /** The frames complete in a stretch of the stream, and the bytes left over. */
  function FramesIn(s: seq<byte>): seq<Message>
    decreases |s|
  {
    match FirstFrame(s)
    case Incomplete => []
    case Head(f, rest) => [f] + FramesIn(rest)
  }

  function LeftOver(s: seq<byte>): seq<byte>
    decreases |s|
  {
    match FirstFrame(s)
    case Incomplete => s
    case Head(_, rest) => LeftOver(rest)
  }

  lemma FirstFrameConcat(a: seq<byte>, b: seq<byte>)
    requires FirstFrame(a).Head?
    ensures FirstFrame(a + b) == Head(FirstFrame(a).frame, FirstFrame(a).rest + b)
  {
    var len := FromLe32(a[1..5]);
    assert (a + b)[1..5] == a[1..5];
    assert (a + b)[5..5 + len] == a[5..5 + len];
    assert (a + b)[5 + len..] == a[5 + len..] + b;
  }

  /** Reading a stream in two stretches is reading it in one. */
  lemma {:induction false} FramesInConcat(a: seq<byte>, b: seq<byte>)
    ensures FramesIn(a + b) == FramesIn(a) + FramesIn(LeftOver(a) + b)
    ensures LeftOver(a + b) == LeftOver(LeftOver(a) + b)
    decreases |a|
  {
    if FirstFrame(a).Head? {
      FirstFrameConcat(a, b);
      FramesInConcat(FirstFrame(a).rest, b);
    }
  }

  lemma {:induction false} LeftOverIncomplete(s: seq<byte>)
    ensures FirstFrame(LeftOver(s)).Incomplete?
    decreases |s|
  {
    if FirstFrame(s).Head? {
      LeftOverIncomplete(FirstFrame(s).rest);
    }
  }

  // -------------------------------------------------------------- round trip

  predicate Fits(m: Message) {
    |m.payload| < LIMIT_32
  }

  predicate AllFit(ms: seq<Message>) {
    forall m <- ms :: Fits(m)
  }

  /** What the reader takes for the first frame of what was written. */
  lemma FirstFrameOfFrame(m: Message, b: seq<byte>)
    ensures FirstFrame(Frame(m) + b).Head?
    ensures FirstFrame(Frame(m) + b).frame == Message(m.kind, m.payload[..|m.payload| % LIMIT_32])
    ensures Fits(m) ==> FirstFrame(Frame(m) + b) == Head(m, b)
  {
    var len := |m.payload| % LIMIT_32;
    var s := Frame(m) + b;
    assert s[1..5] == Le32(len);
    Le32RoundTrip(len);
    assert s[5..5 + len] == m.payload[..len];
    assert Fits(m) ==> s[5 + len..] == b && m.payload[..len] == m.payload;
  }

  /** Reading back what was written yields the same messages in the same order, with nothing left over:
      always, as long as every payload fits the length field. */
  lemma {:induction false} FramingRoundTrip(ms: seq<Message>)
    requires AllFit(ms)
    ensures FramesIn(Frames(ms)) == ms && LeftOver(Frames(ms)) == []
  {
    if ms != [] {
      FirstFrameOfFrame(ms[0], Frames(ms[1..]));
      FramingRoundTrip(ms[1..]);
    }
  }

  lemma HeadIsFirst(s: seq<byte>)
    requires FirstFrame(s).Head?
    ensures FramesIn(s) != [] && FramesIn(s)[0] == FirstFrame(s).frame && FramesIn(s)[1..] == FramesIn(FirstFrame(s).rest)
  {
  }

  lemma HeadFits(m: Message, tail: seq<byte>, ms: seq<Message>)
    requires ms != [] && ms[0] == m && FramesIn(Frame(m) + tail) == ms
    ensures Fits(m) && FramesIn(tail) == ms[1..]
  {
    FirstFrameOfFrame(m, tail);
    HeadIsFirst(Frame(m) + tail);
    assert |m.payload| == |m.payload| % LIMIT_32;
  }

  /** And only then: a payload too long for the field is never read back. */
  lemma {:induction false} FramingRoundTripOnlyIf(ms: seq<Message>)
    requires FramesIn(Frames(ms)) == ms
    ensures AllFit(ms)
  {
    if ms != [] {
      HeadFits(ms[0], Frames(ms[1..]), ms);
      FramingRoundTripOnlyIf(ms[1..]);
    }
  }

  // --------------------------------------------------------------------- TLS

  /** TLS after the handshake, as an ideal in-order stream: the `k`-th record sealed at one end is the `k`-th
      opened at the other. */
  datatype Tls = Tls(seal: (nat, seq<byte>) -> seq<byte>, open: (nat, seq<byte>) -> seq<byte>)

  ghost predicate Ideal(t: Tls) {
    forall k: nat, p: seq<byte> :: p != [] ==> Sealed(t, k, p) != [] && t.open(k, Sealed(t, k, p)) == p
  }

  function Sealed(t: Tls, k: nat, p: seq<byte>): seq<byte> {
    t.seal(k, p)
  }

  /** What `sendMessage` puts into the frame of a message, with `k` records sealed so far: the part of the payload
      its length field covers is sealed, and a payload of length zero is left alone. */
  function Seal(t: Tls, k: nat, m: Message): Message {
    var len := |m.payload| % LIMIT_32;
    if len == 0 then m else Message(m.kind, Sealed(t, k, m.payload[..len]))
  }

  function SealAll(t: Tls, k: nat, ms: seq<Message>): seq<Message>
    decreases |ms|
  {
    if ms == [] then [] else
    [Seal(t, k, ms[0])] + SealAll(t, if |ms[0].payload| % LIMIT_32 == 0 then k else k + 1, ms[1..])
  }

  /** What a frame that was read gives to the message handler: without TLS the frame, with TLS its opened payload,
      and nothing for handshake frames or when nothing was opened. */
  function Handed(tls: Option<Tls>, k: nat, f: Message): seq<Message> {
    match tls
    case None => [f]
    case Some(t) =>
      if f.kind == TLS_HANDSHAKE then []
      else if f.payload == [] then [f]
      else if t.open(k, f.payload) == [] then []
      else [Message(f.kind, t.open(k, f.payload))]
  }

  /** Records opened so far, after one more frame. */
  function Opened(tls: Option<Tls>, k: nat, f: Message): nat {
    if tls.Some? && f.payload != [] then k + 1 else k
  }

  function HandedAll(tls: Option<Tls>, k: nat, frames: seq<Message>): seq<Message>
    decreases |frames|
  {
    if frames == [] then [] else
    Handed(tls, k, frames[0]) + HandedAll(tls, Opened(tls, k, frames[0]), frames[1..])
  }

  function OpenedAll(tls: Option<Tls>, k: nat, frames: seq<Message>): nat
    decreases |frames|
  {
    if frames == [] then k else OpenedAll(tls, Opened(tls, k, frames[0]), frames[1..])
  }

  lemma ThreeParts(a: seq<Message>, b: seq<Message>, c: seq<Message>)
    ensures (a + b) + c == a + (b + c)
  {
  }

  lemma {:induction false} HandedConcat(tls: Option<Tls>, k: nat, a: seq<Message>, b: seq<Message>)
    ensures HandedAll(tls, k, a + b) == HandedAll(tls, k, a) + HandedAll(tls, OpenedAll(tls, k, a), b)
    ensures OpenedAll(tls, k, a + b) == OpenedAll(tls, OpenedAll(tls, k, a), b)
    decreases |a|
  {
    if a == [] {
      assert a + b == b;
    } else {
      var next, rest := Opened(tls, k, a[0]), a[1..];
      assert (a + b)[0] == a[0] && (a + b)[1..] == rest + b;
      HandedConcat(tls, next, rest, b);
      ThreeParts(Handed(tls, k, a[0]), HandedAll(tls, next, rest), HandedAll(tls, OpenedAll(tls, next, rest), b));
    }
  }

  /** Over TLS a frame reaches the handler, once and opened, if and only if it is no handshake frame and has no payload
      or one that opens to something. */
  lemma HandedIff(t: Tls, k: nat, f: Message)
    ensures var h := Handed(Some(t), k, f);
            && (h != [] <==> f.kind != 0x0b && (f.payload == [] || t.open(k, f.payload) != []))
            && (h != [] ==> h == [Message(f.kind, if f.payload == [] then [] else t.open(k, f.payload))])
  {
  }

  /** So an empty message is only ever an empty frame's, and no handshake message comes. */
  lemma {:induction false} NothingEmptyHanded(t: Tls, k: nat, frames: seq<Message>, m: Message)
    requires m in HandedAll(Some(t), k, frames)
    ensures m.kind != 0x0b && (m.payload == [] ==> m in frames)
    decreases |frames|
  {
    HandedIff(t, k, frames[0]);
    if m !in Handed(Some(t), k, frames[0]) {
      NothingEmptyHanded(t, Opened(Some(t), k, frames[0]), frames[1..], m);
    }
  }

  lemma OneMore(a: seq<Message>, f: Message, all: seq<Message>, rest: seq<Message>)
    requires all == [f] + rest
    ensures a + all == a + [f] + rest
  {
  }

  lemma HandedOneMore(tls: Option<Tls>, a: seq<Message>, f: Message)
    ensures HandedAll(tls, 0, a + [f]) == HandedAll(tls, 0, a) + Handed(tls, OpenedAll(tls, 0, a), f)
    ensures OpenedAll(tls, 0, a + [f]) == Opened(tls, OpenedAll(tls, 0, a), f)
  {
    HandedConcat(tls, 0, a, [f]);
  }

  function WithoutHandshakes(ms: seq<Message>): seq<Message> {
    if ms == [] then [] else
    (if ms[0].kind == TLS_HANDSHAKE then [] else [ms[0]]) + WithoutHandshakes(ms[1..])
  }

  lemma OpenOneSealed(t: Tls, k: nat, m: Message)
    requires Ideal(t) && Fits(m)
    ensures Handed(Some(t), k, Seal(t, k, m)) == if m.kind == TLS_HANDSHAKE then [] else [m]
    ensures Opened(Some(t), k, Seal(t, k, m)) == if m.payload == [] then k else k + 1
  {
    assert m.payload[..|m.payload|] == m.payload;
  }

  lemma {:induction false} OpenAllSealed(t: Tls, k: nat, ms: seq<Message>)
    requires Ideal(t) && AllFit(ms)
    ensures HandedAll(Some(t), k, SealAll(t, k, ms)) == WithoutHandshakes(ms)
    decreases |ms|
  {
    if ms != [] {
      var next := if ms[0].payload == [] then k else k + 1;
      assert ms[0] in ms;
      OpenOneSealed(t, k, ms[0]);
      assert SealAll(t, k, ms)[1..] == SealAll(t, next, ms[1..]);
      OpenAllSealed(t, next, ms[1..]);
    }
  }

  /** Over an ideal TLS stream the reader hands on exactly the messages sent, in order, but for handshake frames. */
  lemma TlsRoundTrip(t: Tls, ms: seq<Message>)
    requires Ideal(t) && AllFit(ms) && AllFit(SealAll(t, 0, ms))
    ensures HandedAll(Some(t), 0, FramesIn(Frames(SealAll(t, 0, ms)))) == WithoutHandshakes(ms)
    ensures LeftOver(Frames(SealAll(t, 0, ms))) == []
  {
    FramingRoundTrip(SealAll(t, 0, ms));
    OpenAllSealed(t, 0, ms);
  }

  lemma {:induction false} PlainHandsAll(k: nat, frames: seq<Message>)
    ensures HandedAll(None, k, frames) == frames
  {
    if frames != [] {
      PlainHandsAll(k, frames[1..]);
    }
  }

  /** Without TLS it hands on the messages themselves, if and only if every payload fits the length field. */
  lemma PlainRoundTrip(ms: seq<Message>)
    ensures HandedAll(None, 0, FramesIn(Frames(ms))) == ms <==> AllFit(ms)
  {
    PlainHandsAll(0, FramesIn(Frames(ms)));
    if AllFit(ms) {
      FramingRoundTrip(ms);
    } else if FramesIn(Frames(ms)) == ms {
      FramingRoundTripOnlyIf(ms);
    }
  }

  // ------------------------------------------------------------- the object

  datatype Header = Header(kind: byte, length: nat)

  function HeaderOf(s: seq<byte>): Header
    requires |s| == 5
  {
    Header(s[0], FromLe32(s[1..]))
  }

  lemma HeaderGivesFrame(header: seq<byte>, s: seq<byte>)
    requires |header| == 5
    ensures var h := HeaderOf(header);
            FirstFrame(header + s)
            == if |s| < h.length then Incomplete else Head(Message(h.kind, s[..h.length]), s[h.length..])
  {
    var h := HeaderOf(header);
    assert (header + s)[1..5] == header[1..];
    if |s| >= h.length {
      assert (header + s)[5..5 + h.length] == s[..h.length];
      assert (header + s)[5 + h.length..] == s[h.length..];
    }
  }

  /** The read side of a session: bytes come in pieces of any size; a header read and a body read alternate. */
  class TcpReader {
    /** Bytes that have arrived and no read has taken yet. */
    var pending: seq<byte>
    var headerBuffer: seq<byte>
    /** The header of the message whose body is being read. */
    var current: Option<Header>
    var records: nat
    /** What the message handler was called with. */
    var handed: seq<Message>
    const tls: Option<Tls>

    constructor (tls: Option<Tls>)
      ensures Stands([]) && this.tls == tls
    {
      pending, headerBuffer, current, records, handed := [], [0, 0, 0, 0, 0], None, 0, [];
      this.tls := tls;
    }

    /** The reader after the bytes `received`, in whatever pieces they came: the messages of all frames complete in
        them were handed on, and the rest is kept. */
    ghost predicate Stands(received: seq<byte>)
      reads this
    {
      Reading() && After(FramesIn(received)) && Unread() == LeftOver(received) && !Ready()
    }

    ghost predicate Reading()
      reads this
    {
      |headerBuffer| == 5 && (current.Some? ==> current.value == HeaderOf(headerBuffer) && current.value.length > 0)
    }

    ghost predicate After(frames: seq<Message>)
      reads this
    {
      handed == HandedAll(tls, 0, frames) && records == OpenedAll(tls, 0, frames)
    }

    /** The bytes not yet made into a frame. */
    ghost function Unread(): seq<byte>
      reads this
    {
      if current.Some? then headerBuffer + pending else pending
    }

    /** The read under way has all its bytes. */
    predicate Ready()
      reads this
    {
      |pending| >= if current.Some? then current.value.length else 5
    }

    /** The header read completes. */
    method ReadHeader()
      requires Reading() && current.None? && Ready()
      modifies this
      ensures Reading() && |pending| < |old(pending)|
      ensures current.Some? ==> Unread() == old(pending) && handed == old(handed) && records == old(records)
      ensures current.None? ==> var f := FirstFrame(old(pending));
                                && f.Head? && pending == f.rest
                                && handed == old(handed) + Handed(tls, old(records), f.frame)
                                && records == Opened(tls, old(records), f.frame)
    {
      headerBuffer, pending := pending[..5], pending[5..];
      assert old(pending) == headerBuffer + pending;
      HeaderGivesFrame(headerBuffer, pending);
      var h := HeaderOf(headerBuffer);
      if h.length > 0 {
        current := Some(h);
      } else {
        if !(tls.Some? && h.kind == TLS_HANDSHAKE) {
          handed := handed + [Message(h.kind, [])];
        }
      }
    }

    /** The body read completes. */
    method ReadBody()
      requires Reading() && current.Some? && Ready()
      modifies this
      ensures Reading() && current.None? && |pending| < |old(pending)|
      ensures var f := FirstFrame(old(Unread()));
              && f.Head? && pending == f.rest
              && handed == old(handed) + Handed(tls, old(records), f.frame)
              && records == Opened(tls, old(records), f.frame)
    {
      HeaderGivesFrame(headerBuffer, pending);
      var kind, payload := current.value.kind, pending[..current.value.length];
      pending, current := pending[current.value.length..], None;
      if tls.Some? {
        payload := tls.value.open(records, payload);
        records := records + 1;
        if kind == TLS_HANDSHAKE {
          return;
        }
      }
      if payload != [] {
        handed := handed + [Message(kind, payload)];
      }
    }

    /** A piece of the stream arrives; every read it completes runs its handler. */
    method Receive(chunk: seq<byte>, ghost received: seq<byte>)
      requires Stands(received)
      modifies this
      ensures Stands(received + chunk)
    {
      ghost var all := received + chunk;
      ghost var frames := FramesIn(received);
      FramesInConcat(received, chunk);
      assert LeftOver(received) + chunk == Unread() + chunk;
      pending := pending + chunk;
      assert Unread() == old(Unread()) + chunk;
      while Ready()
        invariant Reading() && After(frames)
        invariant FramesIn(all) == frames + FramesIn(Unread())
        invariant LeftOver(all) == LeftOver(Unread())
        decreases |pending|
      {
        ghost var unread := Unread();
        if current.None? {
          ReadHeader();
        } else {
          ReadBody();
        }
        if current.None? {
          frames := OneFrameOn(all, frames, unread);
        }
      }
      assert FirstFrame(Unread()).Incomplete? by {
        if current.Some? {
          HeaderGivesFrame(headerBuffer, pending);
        }
      }
      assert FramesIn(all) == frames;
    }

    /** Moving one frame from the unread bytes to those read. */
    lemma OneFrameOn(all: seq<byte>, frames: seq<Message>, unread: seq<byte>) returns (more: seq<Message>)
      requires FirstFrame(unread).Head?
      requires FramesIn(all) == frames + FramesIn(unread) && LeftOver(all) == LeftOver(unread)
      ensures more == frames + [FirstFrame(unread).frame]
      ensures FramesIn(all) == more + FramesIn(FirstFrame(unread).rest)
      ensures LeftOver(all) == LeftOver(FirstFrame(unread).rest)
      ensures HandedAll(tls, 0, more)
           == HandedAll(tls, 0, frames) + Handed(tls, OpenedAll(tls, 0, frames), FirstFrame(unread).frame)
      ensures OpenedAll(tls, 0, more) == Opened(tls, OpenedAll(tls, 0, frames), FirstFrame(unread).frame)
    {
      var Head(f, rest) := FirstFrame(unread);
      more := frames + [f];
      OneMore(frames, f, FramesIn(unread), FramesIn(rest));
      HandedOneMore(tls, frames, f);
    }
  }
}
