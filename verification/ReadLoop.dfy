/** The read loop of one client: bytes in whatever pieces recv yields them, pings answered, messages
    reassembled from fragments (section 5.4 of RFC 6455). */
module ReadLoop {
  import opened Common
  import opened WebSocket

  datatype Event = Message(data: Bytes) | Pong(wire: Bytes)

  datatype Loop = Loop(rest: Bytes, assembled: Bytes, events: seq<Event>, closed: bool)

  const START := Loop([], [], [], false)

  function PongWire(payload: Data): Bytes {
    Wire(Frame(true, PONG, payload), 0, None, ShortestForm(|payload|))
  }

  /** What a pong says, whatever follows it: one unmasked final frame with the payload of the ping. */
  lemma PongAnswers(payload: Data, rest: Bytes)
    ensures Parse(PongWire(payload) + rest) == Complete(Frame(true, PONG, payload), rest)
    ensures PongWire(payload)[1] < 128
  {
    hide Parse;
    FrameRoundTrip(Frame(true, PONG, payload), 0, None, ShortestForm(|payload|), rest);
  }

  /** The shortest of the three forms: no other form of a pong has fewer bytes. */
  lemma PongIsShortest(payload: Data, form: Form)
    requires Fits(|payload|, form)
    ensures |PongWire(payload)| <= |Wire(Frame(true, PONG, payload), 0, None, form)|
  {
  }

  predicate IsData(op: Opcode) { op == TEXT || op == BINARY || op == CONTINUATION }

  /** What one frame does. */
  function Handle(s: Loop, f: Frame): (r: Loop)
    ensures r.rest == s.rest
  {
    if f.op == CLOSE then s.(closed := true)
    else if f.op == PING then s.(events := s.events + [Pong(PongWire(f.payload))])
    else if !IsData(f.op) then s
    else if f.fin then s.(events := s.events + [Message(s.assembled + f.payload)], assembled := [])
    else s.(assembled := s.assembled + f.payload)
  }

  /** The inner loop: frames are taken off the buffer until none is complete or one closes. */
  function Consume(s: Loop): Loop
    decreases |s.rest|
  {
    if s.closed then s
    else
      match Parse(s.rest)
      case Complete(f, rest) => Consume(Handle(s.(rest := rest), f))
      case _ => s
  }

  /** The outer loop over the pieces recv returns. */
  function Serve(s: Loop, pieces: seq<Bytes>): Loop
    decreases |pieces|
  {
    if s.closed || pieces == [] then s
    else Serve(Consume(s.(rest := s.rest + pieces[0])), pieces[1..])
  }

  /** The state as far as anyone can tell: after a close the buffer is not looked at again. */
  function Outcome(s: Loop): Loop { if s.closed then s.(rest := []) else s }

  function More(s: Loop, more: Bytes): Loop { s.(rest := s.rest + more) }

  lemma {:induction false} ConsumeMore(s: Loop, more: Bytes)
    ensures Outcome(Consume(More(s, more))) == Outcome(Consume(More(Consume(s), more)))
    decreases |s.rest|
  {
    if !s.closed {
      ParseMore(s.rest, more);
      if Parse(s.rest).Complete? {
        var f, rest := Parse(s.rest).frame, Parse(s.rest).rest;
        var n := Handle(s.(rest := rest), f);
        assert Handle(More(s, more).(rest := rest + more), f) == More(n, more);
        ConsumeMore(n, more);
      }
    }
  }

  /** What the client delivers and answers depends on the bytes received, not on how recv cut them. */
  lemma {:induction false} PiecesDoNotMatter(s: Loop, pieces: seq<Bytes>)
    requires Consume(s) == s
    ensures Outcome(Serve(s, pieces)) == Outcome(Consume(More(s, Concat(pieces))))
    decreases |pieces|
  {
    hide Parse;
    if s.closed {
    } else if pieces == [] {
      assert More(s, []) == s;
    } else {
      var m := More(s, pieces[0]);
      var tail := Concat(pieces[1..]);
      ConsumeStable(m);
      PiecesDoNotMatter(Consume(m), pieces[1..]);
      ConsumeMore(m, tail);
      assert More(m, tail) == More(s, Concat(pieces));
    }
  }

  lemma {:induction false} ConsumeStable(s: Loop)
    ensures Consume(Consume(s)) == Consume(s)
    decreases |s.rest|
  {
    if !s.closed && Parse(s.rest).Complete? {
      ConsumeStable(Handle(s.(rest := Parse(s.rest).rest), Parse(s.rest).frame));
    }
  }

  lemma SameBytesSameBehaviour(a: seq<Bytes>, b: seq<Bytes>)
    requires Concat(a) == Concat(b)
    ensures Outcome(Serve(START, a)) == Outcome(Serve(START, b))
  {
    PiecesDoNotMatter(START, a);
    PiecesDoNotMatter(START, b);
  }

  // ---- fragmented messages ---------------------------------------------------------------------

  /** Frames of no message and no effect: pongs, and opcodes the protocol reserves. */
  type Ignored = x: Opcode | 3 <= x < 8 || x > 9 witness 10

  /** A control frame a peer may put between fragments. */
  datatype Control = PingWith(fin: bool, payload: Data) | IgnoredWith(fin: bool, op: Ignored, payload: Data)

  datatype Fragment = Fragment(before: seq<Control>, data: Data)

  /** A message as sent: cut into fragments, with control frames before any of them. */
  datatype Sent = Sent(binary: bool, fragments: seq<Fragment>)

  /** What follows the last whole message: fragments of one not finished yet, and control frames. */
  datatype Tail = Tail(binary: bool, open: seq<Fragment>, controls: seq<Control>)

  /** How the sender wrote one frame. */
  datatype Encoding = Encoding(reserved: nat, key: Option<Key>, form: Form)

  function ControlFrame(c: Control): Frame {
    Frame(c.fin, if c.PingWith? then PING else c.op, c.payload)
  }

  function ControlFrames(cs: seq<Control>): seq<Frame> {
    if cs == [] then [] else [ControlFrame(cs[0])] + ControlFrames(cs[1..])
  }

  function FragmentFrames(op: Opcode, fs: seq<Fragment>): seq<Frame> {
    if fs == [] then []
    else ControlFrames(fs[0].before) + [Frame(|fs| == 1, op, fs[0].data)] + FragmentFrames(CONTINUATION, fs[1..])
  }

  function SentFrames(ms: seq<Sent>): seq<Frame> {
    if ms == [] then []
    else FragmentFrames(if ms[0].binary then BINARY else TEXT, ms[0].fragments) + SentFrames(ms[1..])
  }

  function OpenFrames(op: Opcode, fs: seq<Fragment>): seq<Frame> {
    if fs == [] then []
    else ControlFrames(fs[0].before) + [Frame(false, op, fs[0].data)] + OpenFrames(CONTINUATION, fs[1..])
  }

  function TailFrames(t: Tail): seq<Frame> {
    OpenFrames(if t.binary then BINARY else TEXT, t.open) + ControlFrames(t.controls)
  }

  predicate Encodable(f: Frame, e: Encoding) { e.reserved < 8 && Fits(|f.payload|, e.form) }

  predicate AllEncodable(fs: seq<Frame>, es: seq<Encoding>) {
    |es| == |fs| && forall i | 0 <= i < |fs| :: Encodable(fs[i], es[i])
  }

  function WireAll(fs: seq<Frame>, es: seq<Encoding>): Bytes
    requires AllEncodable(fs, es)
  {
    if fs == [] then []
    else Wire(fs[0], es[0].reserved, es[0].key, es[0].form) + WireAll(fs[1..], es[1..])
  }

  /** The pongs owed for control frames, in order. */
  function Pongs(cs: seq<Control>): seq<Event> {
    if cs == [] then []
    else (if cs[0].PingWith? then [Pong(PongWire(cs[0].payload))] else []) + Pongs(cs[1..])
  }

  /** What a message must cause: each ping answered where it stands, the whole payload delivered at the end. */
  function FragmentEvents(sofar: Bytes, fs: seq<Fragment>): seq<Event>
    decreases |fs|
  {
    if fs == [] then []
    else
      Pongs(fs[0].before)
      + (if |fs| == 1 then [Message(sofar + fs[0].data)] else FragmentEvents(sofar + fs[0].data, fs[1..]))
  }

  function SentEvents(ms: seq<Sent>): seq<Event> {
    if ms == [] then [] else FragmentEvents([], ms[0].fragments) + SentEvents(ms[1..])
  }

  function OpenPongs(fs: seq<Fragment>): seq<Event> {
    if fs == [] then [] else Pongs(fs[0].before) + OpenPongs(fs[1..])
  }

  function Payload(fs: seq<Fragment>): Bytes {
    if fs == [] then [] else fs[0].data + Payload(fs[1..])
  }

  function Payloads(ms: seq<Sent>): seq<Bytes> {
    if ms == [] then [] else [Payload(ms[0].fragments)] + Payloads(ms[1..])
  }

  function Messages(es: seq<Event>): seq<Bytes> {
    if es == [] then [] else (if es[0].Message? then [es[0].data] else []) + Messages(es[1..])
  }

  function HandleAll(s: Loop, fs: seq<Frame>): Loop
    decreases |fs|
  {
    if fs == [] then s else HandleAll(Handle(s, fs[0]), fs[1..])
  }

  lemma {:induction false} HandleAllConcat(s: Loop, a: seq<Frame>, b: seq<Frame>)
    ensures HandleAll(s, a + b) == HandleAll(HandleAll(s, a), b)
    decreases |a|
  {
    if a == [] {
      assert a + b == b;
    } else {
      assert (a + b)[1..] == a[1..] + b;
      HandleAllConcat(Handle(s, a[0]), a[1..], b);
    }
  }

  lemma {:induction false} HandleControls(s: Loop, cs: seq<Control>)
    ensures HandleAll(s, ControlFrames(cs)) == s.(events := s.events + Pongs(cs))
    decreases |cs|
  {
    hide PongWire;
    if cs == [] {
      assert s.events + [] == s.events;
    } else {
      assert ControlFrames(cs)[1..] == ControlFrames(cs[1..]);
      var e: seq<Event> := if cs[0].PingWith? then [Pong(PongWire(cs[0].payload))] else [];
      var n := s.(events := s.events + e);
      assert s.events + [] == s.events;
      assert Handle(s, ControlFrame(cs[0])) == n;
      HandleControls(n, cs[1..]);
      Assoc(s.events, e, Pongs(cs[1..]));
    }
  }

  lemma {:induction false} HandleFragments(s: Loop, op: Opcode, fs: seq<Fragment>)
    requires fs != [] && IsData(op)
    ensures HandleAll(s, FragmentFrames(op, fs))
            == s.(events := s.events + FragmentEvents(s.assembled, fs), assembled := [])
    decreases |fs|
  {
    hide PongWire;
    var controls := ControlFrames(fs[0].before);
    var f := Frame(|fs| == 1, op, fs[0].data);
    var tail := FragmentFrames(CONTINUATION, fs[1..]);
    assert FragmentFrames(op, fs) == controls + ([f] + tail);
    HandleAllConcat(s, controls, [f] + tail);
    HandleControls(s, fs[0].before);
    var c := s.(events := s.events + Pongs(fs[0].before));
    assert ([f] + tail)[1..] == tail;
    var n := Handle(c, f);
    if |fs| == 1 {
      assert fs[1..] == [] && tail == [];
      Assoc(s.events, Pongs(fs[0].before), [Message(s.assembled + f.payload)]);
    } else {
      HandleFragments(n, CONTINUATION, fs[1..]);
      Assoc(s.events, Pongs(fs[0].before), FragmentEvents(n.assembled, fs[1..]));
    }
  }

  predicate Whole(ms: seq<Sent>) { forall m | m in ms :: m.fragments != [] }

  lemma {:induction false} HandleSent(s: Loop, ms: seq<Sent>)
    requires Whole(ms) && s.assembled == []
    ensures HandleAll(s, SentFrames(ms)) == s.(events := s.events + SentEvents(ms))
    decreases |ms|
  {
    hide PongWire;
    if ms == [] {
      assert s.events + [] == s.events;
    } else {
      assert ms[0] in ms;
      var op := if ms[0].binary then BINARY else TEXT;
      HandleAllConcat(s, FragmentFrames(op, ms[0].fragments), SentFrames(ms[1..]));
      HandleFragments(s, op, ms[0].fragments);
      var n := s.(events := s.events + FragmentEvents([], ms[0].fragments));
      HandleSent(n, ms[1..]);
      Assoc(s.events, FragmentEvents([], ms[0].fragments), SentEvents(ms[1..]));
    }
  }

  lemma {:induction false} HandleOpen(s: Loop, op: Opcode, fs: seq<Fragment>)
    requires IsData(op)
    ensures HandleAll(s, OpenFrames(op, fs))
            == s.(events := s.events + OpenPongs(fs), assembled := s.assembled + Payload(fs))
    decreases |fs|
  {
    hide PongWire;
    if fs == [] {
      assert s.events + [] == s.events && s.assembled + [] == s.assembled;
    } else {
      var controls := ControlFrames(fs[0].before);
      var f := Frame(false, op, fs[0].data);
      var tail := OpenFrames(CONTINUATION, fs[1..]);
      assert OpenFrames(op, fs) == controls + ([f] + tail);
      HandleAllConcat(s, controls, [f] + tail);
      HandleControls(s, fs[0].before);
      assert ([f] + tail)[1..] == tail;
      var c := s.(events := s.events + Pongs(fs[0].before));
      HandleOpen(Handle(c, f), CONTINUATION, fs[1..]);
      Assoc(s.events, Pongs(fs[0].before), OpenPongs(fs[1..]));
      Assoc(s.assembled, fs[0].data, Payload(fs[1..]));
    }
  }

  lemma HandleTail(s: Loop, t: Tail)
    requires s.assembled == []
    ensures HandleAll(s, TailFrames(t))
            == s.(events := s.events + (OpenPongs(t.open) + Pongs(t.controls)), assembled := Payload(t.open))
  {
    hide PongWire, Handle, HandleAll;
    var op := if t.binary then BINARY else TEXT;
    HandleAllConcat(s, OpenFrames(op, t.open), ControlFrames(t.controls));
    HandleOpen(s, op, t.open);
    var o := s.(events := s.events + OpenPongs(t.open), assembled := s.assembled + Payload(t.open));
    HandleControls(o, t.controls);
    Assoc(s.events, OpenPongs(t.open), Pongs(t.controls));
    assert [] + Payload(t.open) == Payload(t.open);
  }

  predicate NoClose(fs: seq<Frame>) { forall i | 0 <= i < |fs| :: fs[i].op != CLOSE }

  lemma {:induction false} ConsumeWire(s: Loop, fs: seq<Frame>, es: seq<Encoding>, tail: Bytes)
    requires AllEncodable(fs, es) && NoClose(fs) && !s.closed
    ensures Consume(s.(rest := WireAll(fs, es) + tail)) == Consume(HandleAll(s.(rest := tail), fs))
    decreases |fs|
  {
    hide Parse;
    if fs == [] {
      assert [] + tail == tail;
    } else {
      assert Encodable(fs[0], es[0]);
      var first := Wire(fs[0], es[0].reserved, es[0].key, es[0].form);
      var more := WireAll(fs[1..], es[1..]) + tail;
      FrameRoundTrip(fs[0], es[0].reserved, es[0].key, es[0].form, more);
      Assoc(first, WireAll(fs[1..], es[1..]), tail);
      var b := s.(rest := first + more);
      var n := Handle(s.(rest := tail), fs[0]);
      assert Handle(b.(rest := more), fs[0]) == n.(rest := more);
      ConsumeWire(n, fs[1..], es[1..], tail);
    }
  }

  lemma ConsumeCut(s: Loop)
    requires Parse(s.rest).Incomplete?
    ensures Consume(s) == s
  {
  }

  /** The frames of whole messages and of a tail leave the loop with these events and this unfinished message. */
  lemma HandleConversation(s: Loop, ms: seq<Sent>, t: Tail)
    requires Whole(ms) && s.assembled == [] && s.events == []
    ensures HandleAll(s, SentFrames(ms) + TailFrames(t))
            == s.(events := SentEvents(ms) + (OpenPongs(t.open) + Pongs(t.controls)), assembled := Payload(t.open))
  {
    hide Handle, HandleAll, SentFrames, TailFrames, SentEvents, OpenPongs, Pongs;
    HandleAllConcat(s, SentFrames(ms), TailFrames(t));
    HandleSent(s, ms);
    HandleTail(s.(events := s.events + SentEvents(ms)), t);
    assert [] + SentEvents(ms) == SentEvents(ms);
  }

  lemma SentNeverCloses(ms: seq<Sent>)
    ensures NoClose(SentFrames(ms))
  {
    if ms != [] {
      FragmentsNeverClose(if ms[0].binary then BINARY else TEXT, ms[0].fragments);
      SentNeverCloses(ms[1..]);
    }
  }

  lemma FragmentsNeverClose(op: Opcode, fs: seq<Fragment>)
    requires IsData(op)
    ensures NoClose(FragmentFrames(op, fs))
    decreases |fs|
  {
    if fs != [] {
      ControlsNeverClose(fs[0].before);
      FragmentsNeverClose(CONTINUATION, fs[1..]);
    }
  }

  lemma OpenNeverCloses(op: Opcode, fs: seq<Fragment>)
    requires IsData(op)
    ensures NoClose(OpenFrames(op, fs))
    decreases |fs|
  {
    if fs != [] {
      ControlsNeverClose(fs[0].before);
      OpenNeverCloses(CONTINUATION, fs[1..]);
    }
  }

  lemma ControlsNeverClose(cs: seq<Control>)
    ensures NoClose(ControlFrames(cs))
  {
    if cs != [] { ControlsNeverClose(cs[1..]); }
  }

  /** At any point of a conversation: whole messages, cut into any fragments with pings and pongs between them, then
      perhaps part of a message, more control frames and part of a frame, each frame written with any key and length
      form, received in any pieces. Every whole message has been delivered in one piece and in order, every ping
      answered in its place, and what is unfinished is kept. */
  lemma MessagesDeliveredWhole(ms: seq<Sent>, t: Tail, es: seq<Encoding>, cut: Bytes, pieces: seq<Bytes>)
    requires Whole(ms) && AllEncodable(SentFrames(ms) + TailFrames(t), es) && Parse(cut).Incomplete?
    requires Concat(pieces) == WireAll(SentFrames(ms) + TailFrames(t), es) + cut
    ensures Serve(START, pieces)
            == Loop(cut, Payload(t.open), SentEvents(ms) + (OpenPongs(t.open) + Pongs(t.controls)), false)
    ensures Messages(Serve(START, pieces).events) == Payloads(ms)
  {
    hide Parse, Handle, HandleAll, SentFrames, TailFrames, SentEvents, OpenPongs, Pongs, Consume, Serve;
    NeverCloses(ms, t);
    ServeIs(pieces);
    ConsumeWire(START, SentFrames(ms) + TailFrames(t), es, cut);
    HandleConversation(START.(rest := cut), ms, t);
    ConsumeCut(HandleAll(START.(rest := cut), SentFrames(ms) + TailFrames(t)));
    assert More(START, Concat(pieces)) == START.(rest := Concat(pieces));
    SentMessages(ms);
    MessagesConcat(SentEvents(ms), OpenPongs(t.open) + Pongs(t.controls));
    MessagesConcat(OpenPongs(t.open), Pongs(t.controls));
    OpenDeliversNothing(t.open);
    PongsDeliverNothing(t.controls);
    assert Payloads(ms) + [] == Payloads(ms);
  }

  /** A close frame, at any point of a conversation, ends it: what came before has had its effect, what is unfinished is
      not delivered, and nothing that follows has any. */
  lemma CloseEnds(ms: seq<Sent>, t: Tail, es: seq<Encoding>, close: Frame, e: Encoding, after: Bytes, pieces: seq<Bytes>)
    requires Whole(ms) && AllEncodable(SentFrames(ms) + TailFrames(t), es) && Encodable(close, e) && close.op == CLOSE
    requires Concat(pieces)
             == WireAll(SentFrames(ms) + TailFrames(t), es) + (Wire(close, e.reserved, e.key, e.form) + after)
    ensures Serve(START, pieces).closed
    ensures Serve(START, pieces).events == SentEvents(ms) + (OpenPongs(t.open) + Pongs(t.controls))
    ensures Messages(Serve(START, pieces).events) == Payloads(ms)
  {
    hide Parse, Wire, Handle, HandleAll, SentFrames, TailFrames, SentEvents, OpenPongs, Pongs, Consume, Serve;
    var last := Wire(close, e.reserved, e.key, e.form) + after;
    NeverCloses(ms, t);
    PiecesDoNotMatter(START, pieces) by { StartStable(); }
    ConsumeWire(START, SentFrames(ms) + TailFrames(t), es, last);
    HandleConversation(START.(rest := last), ms, t);
    ConsumeClose(HandleAll(START.(rest := last), SentFrames(ms) + TailFrames(t)), close, e, after);
    assert More(START, Concat(pieces)) == START.(rest := Concat(pieces));
    SentMessages(ms);
    MessagesConcat(SentEvents(ms), OpenPongs(t.open) + Pongs(t.controls));
    MessagesConcat(OpenPongs(t.open), Pongs(t.controls));
    OpenDeliversNothing(t.open);
    PongsDeliverNothing(t.controls);
    assert Payloads(ms) + [] == Payloads(ms);
  }

  lemma StartStable()
    ensures Consume(START) == START
  {
  }

  lemma ConsumeClose(s: Loop, close: Frame, e: Encoding, after: Bytes)
    requires !s.closed && Encodable(close, e) && close.op == CLOSE
    requires s.rest == Wire(close, e.reserved, e.key, e.form) + after
    ensures Consume(s) == s.(rest := after, closed := true)
  {
    hide Parse;
    FrameRoundTrip(close, e.reserved, e.key, e.form, after);
  }

  lemma ServeIs(pieces: seq<Bytes>)
    ensures var c := Consume(More(START, Concat(pieces))); !c.closed ==> Serve(START, pieces) == c
  {
    PiecesDoNotMatter(START, pieces);
  }

  lemma NeverCloses(ms: seq<Sent>, t: Tail)
    ensures NoClose(SentFrames(ms) + TailFrames(t))
  {
    SentNeverCloses(ms);
    OpenNeverCloses(if t.binary then BINARY else TEXT, t.open);
    ControlsNeverClose(t.controls);
  }

  /** Part of a frame is incomplete. */
  lemma CutIsIncomplete(f: Frame, e: Encoding, k: nat)
    requires Encodable(f, e) && k < |Wire(f, e.reserved, e.key, e.form)|
    ensures Parse(Wire(f, e.reserved, e.key, e.form)[..k]).Incomplete?
  {
    ProperPrefixIncomplete(f, e.reserved, e.key, e.form, k);
  }

  lemma OpenDeliversNothing(fs: seq<Fragment>)
    ensures Messages(OpenPongs(fs)) == []
  {
    if fs != [] {
      PongsDeliverNothing(fs[0].before);
      OpenDeliversNothing(fs[1..]);
      MessagesConcat(Pongs(fs[0].before), OpenPongs(fs[1..]));
    }
  }

  lemma {:induction false} MessagesConcat(a: seq<Event>, b: seq<Event>)
    ensures Messages(a + b) == Messages(a) + Messages(b)
  {
    if a == [] {
      assert a + b == b;
    } else {
      assert (a + b)[1..] == a[1..] + b;
      MessagesConcat(a[1..], b);
    }
  }

  lemma PongsDeliverNothing(cs: seq<Control>)
    ensures Messages(Pongs(cs)) == []
  {
    if cs != [] {
      PongsDeliverNothing(cs[1..]);
      MessagesConcat(if cs[0].PingWith? then [Pong(PongWire(cs[0].payload))] else [], Pongs(cs[1..]));
    }
  }

  lemma {:induction false} FragmentMessages(sofar: Bytes, fs: seq<Fragment>)
    requires fs != []
    ensures Messages(FragmentEvents(sofar, fs)) == [sofar + Payload(fs)]
    decreases |fs|
  {
    hide PongWire;
    PongsDeliverNothing(fs[0].before);
    var last := if |fs| == 1 then [Message(sofar + fs[0].data)] else FragmentEvents(sofar + fs[0].data, fs[1..]);
    MessagesConcat(Pongs(fs[0].before), last);
    if |fs| == 1 {
      assert fs[1..] == [] && Payload(fs) == fs[0].data;
      assert last[1..] == [] && Messages(last) == [sofar + fs[0].data];
    } else {
      FragmentMessages(sofar + fs[0].data, fs[1..]);
      Assoc(sofar, fs[0].data, Payload(fs[1..]));
    }
  }

  lemma {:induction false} SentMessages(ms: seq<Sent>)
    requires Whole(ms)
    ensures Messages(SentEvents(ms)) == Payloads(ms)
    decreases |ms|
  {
    if ms != [] {
      assert ms[0] in ms;
      FragmentMessages([], ms[0].fragments);
      MessagesConcat(FragmentEvents([], ms[0].fragments), SentEvents(ms[1..]));
      SentMessages(ms[1..]);
      assert [] + Payload(ms[0].fragments) == Payload(ms[0].fragments);
    }
  }

  // ---- the loop itself -------------------------------------------------------------------------

  lemma {:induction false} OversizedStays(s: Loop, pieces: seq<Bytes>)
    requires !s.closed && Parse(s.rest).Oversized?
    ensures !Serve(s, pieces).closed && Parse(Serve(s, pieces).rest).Oversized?
    decreases |pieces|
  {
    if pieces != [] {
      ParseMore(s.rest, pieces[0]);
      OversizedStays(More(s, pieces[0]), pieces[1..]);
    }
  }

  /** ClientReadLoop, with what recv returns as a list of pieces and the stop flag down. The bytes must
      never announce a length of 2^63 or more. */
  method ClientReadLoop(pieces: seq<Bytes>) returns (events: seq<Event>)
    requires Serve(START, pieces).closed || !Parse(Serve(START, pieces).rest).Oversized?
    ensures events == Serve(START, pieces).events
  {
    hide Parse, Wire;
    var dec := new WsDecoder();
    var assembled: Bytes := [];
    events := [];
    for i := 0 to |pieces|
      invariant Serve(Loop(dec.buf, assembled, events, false), pieces[i..]) == Serve(START, pieces)
    {
      dec.Feed(pieces[i]);
      ghost var tail := pieces[i + 1..];
      ghost var goal := Serve(START, pieces);
      assert goal == Serve(Consume(Loop(dec.buf, assembled, events, false)), tail);
      NotOversized(Loop(dec.buf, assembled, events, false), tail);
      var r, frame := dec.TryDecode();
      while r == 1
        invariant r == 1 || (r == 0 && Parse(dec.buf).Incomplete?)
        invariant goal == Serve(Consume(if r == 1 then Handle(Loop(dec.buf, assembled, events, false), frame)
                                        else Loop(dec.buf, assembled, events, false)), tail)
        decreases |dec.buf|, r
      {
        ghost var handled := Handle(Loop(dec.buf, assembled, events, false), frame);
        if frame.op == CLOSE { return; }
        if frame.op == PING {
          var pong := EncodeFrame(Frame(true, PONG, frame.payload), []);
          assert pong == PongWire(frame.payload);
          events := events + [Pong(pong)];
        } else if frame.op == TEXT || frame.op == BINARY || frame.op == CONTINUATION {
          assembled := assembled + frame.payload;
          if frame.fin {
            events := events + [Message(assembled)];
            assembled := [];
          }
        }
        assert Loop(dec.buf, assembled, events, false) == handled;
        NotOversized(handled, tail);
        r, frame := dec.TryDecode();
      }
    }
  }

  lemma NotOversized(s: Loop, tail: seq<Bytes>)
    requires !s.closed
    requires Serve(Consume(s), tail).closed || !Parse(Serve(Consume(s), tail).rest).Oversized?
    ensures !Parse(s.rest).Oversized?
  {
    hide Parse;
    if Parse(s.rest).Oversized? { OversizedStays(s, tail); }
  }
}
