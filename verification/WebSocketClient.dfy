/**
 The WebSocket client: the receive loop with its buffer and fragment reassembly, sendFrame, and the split of
 the handshake response into header and leftover bytes.
 */
module WebSocketClient {
  import opened Bytes
  import opened Incremental
  import opened WebSocketFrames
  import opened Handshake

  // ----- What frames mean -----

  /** What the client does as a result of a frame, in order. */
  datatype Event = Text(text: seq<byte>) | Binary(data: seq<byte>) | Sent(frame: Frame)

  /** Which callbacks the caller installed. */
  datatype Handlers = Handlers(text: bool, binary: bool)

  /** The reassembly state of section 5.4: fragActive, fragOpcode, fragPayload. */
  datatype Assembly = Assembly(active: bool, opcode: byte, payload: seq<byte>)

  const IDLE := Assembly(false, 0, [])

  datatype Outcome = Outcome(assembly: Assembly, events: seq<Event>)

  function Deliver(h: Handlers, op: byte, payload: seq<byte>): seq<Event> {
    if op == TEXT && h.text then [Text(payload)]
    else if op == BINARY && h.binary then [Binary(payload)]
    else []
  }

  function OnFrame(h: Handlers, g: Assembly, f: Frame): Outcome {
    if f.opcode == CONTINUATION then
      if !g.active then Outcome(g, [])
      else
        var whole := g.payload + f.payload;
        if f.fin then Outcome(Assembly(false, g.opcode, []), Deliver(h, g.opcode, whole))
        else Outcome(Assembly(true, g.opcode, whole), [])
    else if f.opcode == TEXT || f.opcode == BINARY then
      if f.fin then Outcome(g, Deliver(h, f.opcode, f.payload))
      else Outcome(Assembly(true, f.opcode, f.payload), [])
    else if f.opcode == PING then Outcome(g, [Sent(Frame(true, PONG, f.payload))])
    else Outcome(g, [])
  }

  function Interpret(h: Handlers, g: Assembly, fs: seq<Frame>): Outcome
    decreases |fs|
  {
    if fs == [] then Outcome(g, [])
    else
      var now := OnFrame(h, g, fs[0]);
      var later := Interpret(h, now.assembly, fs[1..]);
      Outcome(later.assembly, now.events + later.events)
  }

  lemma {:induction false} InterpretAppend(h: Handlers, g: Assembly, xs: seq<Frame>, ys: seq<Frame>)
    ensures var x := Interpret(h, g, xs);
            var y := Interpret(h, x.assembly, ys);
            Interpret(h, g, xs + ys) == Outcome(y.assembly, x.events + y.events)
    decreases |xs|
  {
    if xs == [] {
      assert xs + ys == ys;
    } else {
      var now := OnFrame(h, g, xs[0]);
      InterpretAppend(h, now.assembly, xs[1..], ys);
      assert (xs + ys)[1..] == xs[1..] + ys;
      var x := Interpret(h, now.assembly, xs[1..]);
      Associative(now.events, x.events, Interpret(h, x.assembly, ys).events);
    }
  }

  // ----- Fragment reassembly (section 5.4) -----

  /** Anything a server may put between fragments: pings, pongs, and opcodes the client ignores. */
  type Interleaved = f: Frame | f.opcode >= 3 && f.opcode != CLOSE witness Frame(true, PING, [])

  /** What follows the first fragment of a message: further parts, each after any interleaved frames. */
  datatype Remainder = Last | Next(between: seq<Interleaved>, part: seq<byte>, more: Remainder)

  function RemainderFrames(r: Remainder): seq<Frame> {
    match r
    case Last => []
    case Next(between, part, more) => between + [Frame(more.Last?, CONTINUATION, part)] + RemainderFrames(more)
  }

  function RemainderPayload(r: Remainder): seq<byte> {
    match r
    case Last => []
    case Next(_, part, more) => part + RemainderPayload(more)
  }

  /** The pongs the interleaved pings call for, in order. */
  function Pongs(fs: seq<Interleaved>): seq<Event> {
    if fs == [] then []
    else (if fs[0].opcode == PING then [Sent(Frame(true, PONG, fs[0].payload))] else []) + Pongs(fs[1..])
  }

  function RemainderPongs(r: Remainder): seq<Event> {
    match r
    case Last => []
    case Next(between, _, more) => Pongs(between) + RemainderPongs(more)
  }

  /** The frames of one text or binary message sent as one or more fragments. */
  function MessageFrames(op: byte, first: seq<byte>, r: Remainder): seq<Frame> {
    [Frame(r.Last?, op, first)] + RemainderFrames(r)
  }

  lemma {:induction false} InterleavedLeaveAssembly(h: Handlers, g: Assembly, fs: seq<Interleaved>)
    ensures Interpret(h, g, fs) == Outcome(g, Pongs(fs))
  {
    if fs != [] {
      InterleavedLeaveAssembly(h, g, fs[1..]);
    }
  }

  lemma InterpretCons(h: Handlers, g: Assembly, f: Frame, fs: seq<Frame>)
    ensures var now := OnFrame(h, g, f);
            var later := Interpret(h, now.assembly, fs);
            Interpret(h, g, [f] + fs) == Outcome(later.assembly, now.events + later.events)
  {
    assert ([f] + fs)[1..] == fs;
  }

  lemma OnePart(h: Handlers, g: Assembly, between: seq<Interleaved>, f: Frame, fs: seq<Frame>)
    ensures var now := OnFrame(h, g, f);
            var later := Interpret(h, now.assembly, fs);
            Interpret(h, g, between + [f] + fs) == Outcome(later.assembly, Pongs(between) + (now.events + later.events))
  {
    Associative(between, [f], fs);
    InterleavedLeaveAssembly(h, g, between);
    InterpretAppend(h, g, between, [f] + fs);
    InterpretCons(h, g, f, fs);
  }

  lemma {:induction false} RemainderReassembles(h: Handlers, g: Assembly, r: Remainder)
    requires g.active && r.Next?
    ensures Interpret(h, g, RemainderFrames(r))
         == Outcome(Assembly(false, g.opcode, []), RemainderPongs(r) + Deliver(h, g.opcode, g.payload + RemainderPayload(r)))
    decreases r
  {
    var last := r.more.Last?;
    OnePart(h, g, r.between, Frame(last, CONTINUATION, r.part), RemainderFrames(r.more));
    Associative(g.payload, r.part, RemainderPayload(r.more));
    var all := Deliver(h, g.opcode, g.payload + RemainderPayload(r));
    if last {
      assert g.payload + r.part + [] == g.payload + r.part;
      assert Pongs(r.between) + [] == Pongs(r.between);
      assert all + [] == all;
    } else {
      RemainderReassembles(h, Assembly(true, g.opcode, g.payload + r.part), r.more);
      Associative(Pongs(r.between), RemainderPongs(r.more), all);
      assert [] + (RemainderPongs(r.more) + all) == RemainderPongs(r.more) + all;
    }
  }

  /**
   A message split into any number of fragments, with anything interleaved, is handed over exactly once, whole,
   to the handler of its own opcode, after the pongs for the interleaved pings. An unfinished earlier
   fragmentation is dropped by a fragmented message and left alone by an unfragmented one.
   */
  lemma FragmentReassembly(h: Handlers, g: Assembly, op: byte, first: seq<byte>, r: Remainder)
    requires op == TEXT || op == BINARY
    ensures Interpret(h, g, MessageFrames(op, first, r))
         == Outcome(if r.Last? then g else Assembly(false, op, []),
                    RemainderPongs(r) + Deliver(h, op, first + RemainderPayload(r)))
  {
    InterpretCons(h, g, Frame(r.Last?, op, first), RemainderFrames(r));
    if r.Last? {
      assert first + [] == first;
    } else {
      RemainderReassembles(h, Assembly(true, op, first), r);
    }
  }

  /** A text or binary message as a server sends it: frames that may precede it, its first fragment, and the others. */
  datatype Fragmented = Fragmented(before: seq<Interleaved>, op: byte, first: seq<byte>, rest: Remainder)

  type Message = m: Fragmented | m.op == TEXT || m.op == BINARY witness Fragmented([], TEXT, [], Last)

  function FramesOf(ms: seq<Message>): seq<Frame> {
    if ms == [] then [] else ms[0].before + MessageFrames(ms[0].op, ms[0].first, ms[0].rest) + FramesOf(ms[1..])
  }

  function Whole(m: Message): seq<byte> {
    m.first + RemainderPayload(m.rest)
  }

  /** What is to be handed over: opcode 1 as text, opcode 2 as binary, each whole, when its handler is installed. */
  function Deliveries(h: Handlers, ms: seq<Message>): seq<Event> {
    if ms == [] then []
    else
      (if ms[0].op == 1 && h.text then [Text(Whole(ms[0]))]
       else if ms[0].op == 2 && h.binary then [Binary(Whole(ms[0]))]
       else [])
      + Deliveries(h, ms[1..])
  }

  /** With both handlers installed there is one callback for each message, of its own kind and with its own bytes. */
  lemma {:induction false} EachMessageIsDelivered(h: Handlers, ms: seq<Message>)
    requires h.text && h.binary
    ensures |Deliveries(h, ms)| == |ms|
    ensures forall i :: 0 <= i < |ms| ==>
      Deliveries(h, ms)[i] == if ms[i].op == 1 then Text(Whole(ms[i])) else Binary(Whole(ms[i]))
  {
    if ms != [] {
      EachMessageIsDelivered(h, ms[1..]);
    }
  }

  /** A message's bytes are those of its fragments, joined: the data frames of its sequence, in order. */
  function DataOf(fs: seq<Frame>): seq<byte> {
    if fs == [] then [] else (if fs[0].opcode < 3 then fs[0].payload else []) + DataOf(fs[1..])
  }

  lemma {:induction false} DataAppend(xs: seq<Frame>, ys: seq<Frame>)
    ensures DataOf(xs + ys) == DataOf(xs) + DataOf(ys)
  {
    if xs == [] {
      assert xs + ys == ys;
    } else {
      DataAppend(xs[1..], ys);
      assert (xs + ys)[0] == xs[0] && (xs + ys)[1..] == xs[1..] + ys;
      Associative(if xs[0].opcode < 3 then xs[0].payload else [], DataOf(xs[1..]), DataOf(ys));
    }
  }

  lemma {:induction false} NoDataBetween(fs: seq<Interleaved>)
    ensures DataOf(fs) == []
  {
    if fs != [] {
      NoDataBetween(fs[1..]);
    }
  }

  lemma {:induction false} RemainderData(r: Remainder)
    ensures DataOf(RemainderFrames(r)) == RemainderPayload(r)
    decreases r
  {
    if r.Next? {
      var f := Frame(r.more.Last?, CONTINUATION, r.part);
      RemainderData(r.more);
      NoDataBetween(r.between);
      DataAppend(r.between, [f]);
      DataAppend(r.between + [f], RemainderFrames(r.more));
      assert [f][1..] == [] && DataOf([f]) == r.part + [];
    }
  }

  lemma WholeIsItsFragments(m: Message)
    ensures Whole(m) == DataOf(MessageFrames(m.op, m.first, m.rest))
  {
    RemainderData(m.rest);
    var f := Frame(m.rest.Last?, m.op, m.first);
    assert ([f] + RemainderFrames(m.rest))[1..] == RemainderFrames(m.rest);
  }

  /** Those with the pongs that fall due in between. */
  function EventsOf(h: Handlers, ms: seq<Message>): seq<Event> {
    if ms == [] then []
    else
      Pongs(ms[0].before)
      + (RemainderPongs(ms[0].rest) + Deliver(h, ms[0].op, ms[0].first + RemainderPayload(ms[0].rest)))
      + EventsOf(h, ms[1..])
  }

  /** What the handlers see of some events. */
  function Callbacks(es: seq<Event>): seq<Event> {
    if es == [] then [] else (if es[0].Sent? then [] else [es[0]]) + Callbacks(es[1..])
  }

  lemma {:induction false} CallbacksAppend(xs: seq<Event>, ys: seq<Event>)
    ensures Callbacks(xs + ys) == Callbacks(xs) + Callbacks(ys)
  {
    if xs == [] {
      assert xs + ys == ys;
    } else {
      CallbacksAppend(xs[1..], ys);
      assert (xs + ys)[0] == xs[0] && (xs + ys)[1..] == xs[1..] + ys;
      Associative(if xs[0].Sent? then [] else [xs[0]], Callbacks(xs[1..]), Callbacks(ys));
    }
  }

  lemma {:induction false} PongsAreNoCallbacks(fs: seq<Interleaved>)
    ensures Callbacks(Pongs(fs)) == []
  {
    if fs != [] {
      PongsAreNoCallbacks(fs[1..]);
      CallbacksAppend(if fs[0].opcode == PING then [Sent(Frame(true, PONG, fs[0].payload))] else [], Pongs(fs[1..]));
    }
  }

  lemma {:induction false} RemainderPongsAreNoCallbacks(r: Remainder)
    ensures Callbacks(RemainderPongs(r)) == []
    decreases r
  {
    if r.Next? {
      PongsAreNoCallbacks(r.between);
      RemainderPongsAreNoCallbacks(r.more);
      CallbacksAppend(Pongs(r.between), RemainderPongs(r.more));
    }
  }

  lemma DeliverIsCallback(h: Handlers, op: byte, payload: seq<byte>)
    ensures Callbacks(Deliver(h, op, payload))
         == if op == 1 && h.text then [Text(payload)] else if op == 2 && h.binary then [Binary(payload)] else []
  {
  }

  lemma {:induction false} HandlersSeeTheMessages(h: Handlers, ms: seq<Message>)
    ensures Callbacks(EventsOf(h, ms)) == Deliveries(h, ms)
  {
    if ms != [] {
      var m := ms[0];
      var delivery := Deliver(h, m.op, m.first + RemainderPayload(m.rest));
      hide Deliver, Pongs, RemainderPongs;
      HandlersSeeTheMessages(h, ms[1..]);
      PongsAreNoCallbacks(m.before);
      RemainderPongsAreNoCallbacks(m.rest);
      DeliverIsCallback(h, m.op, m.first + RemainderPayload(m.rest));
      CallbacksAppend(RemainderPongs(m.rest), delivery);
      CallbacksAppend(Pongs(m.before), RemainderPongs(m.rest) + delivery);
      CallbacksAppend(Pongs(m.before) + (RemainderPongs(m.rest) + delivery), EventsOf(h, ms[1..]));
    }
  }

  /** Any sequence of messages, each fragmented and interleaved in its own way, is handed over as that sequence. */
  lemma {:induction false} MessagesReassemble(h: Handlers, g: Assembly, ms: seq<Message>)
    ensures Interpret(h, g, FramesOf(ms)).events == EventsOf(h, ms)
    decreases |ms|
  {
    if ms != [] {
      var m := ms[0];
      var frames := MessageFrames(m.op, m.first, m.rest);
      hide MessageFrames, RemainderPongs, Deliver, Pongs, OnFrame;
      InterleavedLeaveAssembly(h, g, m.before);
      FragmentReassembly(h, g, m.op, m.first, m.rest);
      InterpretAppend(h, g, m.before, frames);
      var x := Interpret(h, g, m.before + frames);
      InterpretAppend(h, g, m.before + frames, FramesOf(ms[1..]));
      MessagesReassemble(h, x.assembly, ms[1..]);
    }
  }

  lemma {:induction false} RemainderHasNoClose(r: Remainder)
    ensures NoClose(RemainderFrames(r))
    decreases r
  {
    if r.Next? {
      RemainderHasNoClose(r.more);
    }
  }

  lemma {:induction false} MessagesHaveNoClose(ms: seq<Message>)
    ensures NoClose(FramesOf(ms))
  {
    if ms != [] {
      MessagesHaveNoClose(ms[1..]);
      RemainderHasNoClose(ms[0].rest);
    }
  }

  lemma {:induction false} AllBeforeClose(fs: seq<Frame>)
    requires NoClose(fs)
    ensures UpToClose(fs) == fs
  {
    if fs != [] {
      assert NoClose(fs[1..]);
      AllBeforeClose(fs[1..]);
    }
  }

  /** Frames that are not part of such a sequence: a stray continuation, a Close, a Pong or an unknown opcode do nothing. */
  lemma StrayFramesDoNothing(h: Handlers, g: Assembly, f: Frame)
    requires (f.opcode == 0 && !g.active) || (f.opcode > 2 && f.opcode != 9)
    ensures OnFrame(h, g, f) == Outcome(g, [])
  {
  }

  // ----- The stream as a whole -----

  ghost function DrainFrames(b: seq<byte>): Drained<Frame> {
    FramesAreFraming();
    Drain(TakeFrame, b)
  }

  ghost function FeedFrames(carry: seq<byte>, chunks: seq<seq<byte>>): Drained<Frame> {
    FramesAreFraming();
    Feed(TakeFrame, carry, chunks)
  }

  /** Everything a run of the receive loop does, given the bytes kept from the handshake and what recv returns. */
  ghost function Session(h: Handlers, pending: seq<byte>, chunks: seq<seq<byte>>): seq<Event> {
    Interpret(h, IDLE, FeedFrames(pending, chunks).items).events
  }

  /** Everything in the bytes, acted on in one pass. */
  ghost function OnePass(h: Handlers, bytes: seq<byte>): seq<Event> {
    Interpret(h, IDLE, DrainFrames(bytes).items).events
  }

  /**
   Receiving is independent of chunking: the callbacks and pongs are those of one pass over all the bytes, unless
   nothing arrives after the handshake and the bytes kept from it hold something to act on. While no Close has been
   seen the bytes left over are a proper prefix of a frame.
   */
  lemma SessionIndependentOfChunks(h: Handlers, pending: seq<byte>, chunks: seq<seq<byte>>)
    ensures Session(h, pending, chunks) == OnePass(h, pending + Arrived(chunks))
       <==> Arrived(chunks) != [] || OnePass(h, pending) == []
    ensures var f := FeedFrames(pending, chunks);
            Arrived(chunks) != [] && !f.done ==>
              exists ext: seq<byte> :: ext != [] && TakeFrame(f.rest + ext).Item? && TakeFrame(f.rest + ext).used == |f.rest + ext|
  {
    FramesAreFraming();
    ChunkIndependence(TakeFrame, pending, chunks);
    var f := FeedFrames(pending, chunks);
    if Arrived(chunks) == [] {
      assert pending + [] == pending;
    } else if !f.done {
      DrainLeavesMore(TakeFrame, pending + Arrived(chunks));
      var ext := MoreIsProperPrefix(f.rest);
    }
  }

  /**
   End to end: whatever a server encodes, under whatever masks, and however TCP cuts it, the client acts on
   exactly those frames up to the first Close.
   */
  lemma ServerToHandlers(h: Handlers, ps: seq<Packet>, chunks: seq<seq<byte>>)
    requires Arrived(chunks) == EncodeAll(ps)
    ensures Session(h, [], chunks) == Interpret(h, IDLE, UpToClose(Frames(ps))).events
  {
    FramesAreFraming();
    assert TakeFrame([]).More? && OnePass(h, []) == [];
    SessionIndependentOfChunks(h, [], chunks);
    SendsDecode(ps);
    assert [] + Arrived(chunks) == Arrived(chunks);
  }

  /**
   Messages over TCP: any sequence of messages, each fragmented and interleaved in its own way, its frames encoded
   under any masks and the bytes cut in any way, reaches the handlers as that sequence, each message once and whole.
   */
  lemma MessagesReachHandlers(h: Handlers, ms: seq<Message>, ps: seq<Packet>, chunks: seq<seq<byte>>)
    requires Frames(ps) == FramesOf(ms) && Arrived(chunks) == EncodeAll(ps)
    ensures Session(h, [], chunks) == EventsOf(h, ms) && Callbacks(Session(h, [], chunks)) == Deliveries(h, ms)
  {
    ServerToHandlers(h, ps, chunks);
    MessagesHaveNoClose(ms);
    AllBeforeClose(FramesOf(ms));
    MessagesReassemble(h, IDLE, ms);
    HandlersSeeTheMessages(h, ms);
  }

  // ----- Continuations: what is still to come at a given point of the loop -----

  ghost function FromRead(h: Handlers, g: Assembly, carry: seq<byte>, chunks: seq<seq<byte>>): seq<Event> {
    Interpret(h, g, FeedFrames(carry, chunks).items).events
  }

  ghost function FromParse(h: Handlers, g: Assembly, b: seq<byte>, chunks: seq<seq<byte>>): seq<Event> {
    FramesAreFraming();
    Interpret(h, g, Pass(TakeFrame, b, chunks).items).events
  }

  lemma ReadStep(h: Handlers, g: Assembly, carry: seq<byte>, chunks: seq<seq<byte>>)
    ensures chunks == [] || chunks[0] == [] ==> FromRead(h, g, carry, chunks) == []
    ensures chunks != [] && chunks[0] != [] ==>
              FromRead(h, g, carry, chunks) == FromParse(h, g, carry + chunks[0], chunks[1..])
  {
    FramesAreFraming();
    FeedStep(TakeFrame, carry, chunks);
  }

  lemma ParseMore(h: Handlers, g: Assembly, b: seq<byte>, chunks: seq<seq<byte>>)
    requires TakeFrame(b).More?
    ensures FromParse(h, g, b, chunks) == FromRead(h, g, b, chunks)
  {
    FramesAreFraming();
    PassStep(TakeFrame, b, chunks);
  }

  lemma ParseItem(log: seq<Event>, h: Handlers, g: Assembly, buf: seq<byte>, offset: nat, chunks: seq<seq<byte>>,
                  f: Frame, used: nat)
    requires offset + used <= |buf| && TakeFrame(buf[offset..]) == Item(f, used, f.opcode == CLOSE)
    ensures log + FromParse(h, g, buf[offset..], chunks)
         == (log + OnFrame(h, g, f).events)
          + (if f.opcode == CLOSE then [] else FromParse(h, OnFrame(h, g, f).assembly, buf[offset + used..], chunks))
  {
    FramesAreFraming();
    PassStep(TakeFrame, buf[offset..], chunks);
    var rest := buf[offset + used..];
    assert buf[offset..][used..] == rest;
    if f.opcode == CLOSE {
      InterpretCons(h, g, f, []);
      assert [f] + [] == [f];
    } else {
      InterpretCons(h, g, f, Pass(TakeFrame, rest, chunks).items);
      Associative(log, OnFrame(h, g, f).events, FromParse(h, OnFrame(h, g, f).assembly, rest, chunks));
    }
  }

  // ----- From the handshake to the receive loop -----

  /**
   Between handshake and receive loop nothing is parsed twice, and nothing is lost, exactly unless the bytes pushed
   with the handshake hold something to act on and no byte ever follows them: the frames acted on are otherwise those
   of one pass over everything the server sent after its first empty line, wherever the reads were cut.
   */
  lemma HandshakeLosesNothing(h: Handlers, chunks: seq<seq<byte>>)
    requires ReadResponse([], chunks).Response?
    ensures var r, stream := ReadResponse([], chunks), Arrived(chunks);
            && Find(stream, CRLF_CRLF, 0) >= 0 && Find(r.bytes, CRLF_CRLF, 0) >= 0
            && (Session(h, Leftover(r.bytes), r.later) == OnePass(h, Leftover(stream))
                <==> Arrived(r.later) != [] || OnePass(h, Leftover(r.bytes)) == [])
  {
    var r := ReadResponse([], chunks);
    ResponseKeepsStream([], chunks);
    hide Find, Leftover;
    assert [] + Arrived(chunks) == Arrived(chunks);
    LeftoverThenMore(r.bytes, Arrived(r.later));
    SessionIndependentOfChunks(h, Leftover(r.bytes), r.later);
  }

  /**
   Whatever a server pushes in the very read that completes a response connect accepts, if nothing follows it none of
   it is acted on.
   */
  lemma PushedBytesAreIgnored(h: Handlers, nonce: seq<byte>, lines: seq<seq<byte>>, k: nat, rest: seq<byte>)
    requires Conforms(nonce, lines, k)
    ensures var read := Written(lines) + CRLF + rest;
            var r := ReadResponse([], [read, []]);
            && r.Response? && r.bytes == read && Accepts(nonce, read)
            && Find(read, CRLF_CRLF, 0) >= 0 && Leftover(read) == rest && Session(h, rest, r.later) == []
  {
    ConformingResponseIsAccepted(nonce, lines, k, rest);
    hide Find, Conforms, Written, Accepts, Leftover, TakeFrame, ReadResponse;
    ReadAtOnce(Written(lines) + CRLF + rest);
    FramesAreFraming();
    FeedStep(TakeFrame, rest, [[]]);
  }

  /** A text frame pushed right behind the shortest such response, with nothing after it, is never handed over. */
  lemma PushedFrameIsLost(h: Handlers, nonce: seq<byte>)
    requires h.text
    ensures var read := Written(Answer(nonce)) + CRLF + [129, 1, 97];
            var r := ReadResponse([], [read, []]);
            && r.Response? && Accepts(nonce, r.bytes) && Find(read, CRLF_CRLF, 0) >= 0 && Leftover(read) == [129, 1, 97]
            && Session(h, Leftover(read), r.later) == [] && OnePass(h, Leftover(read)) == [Text([97])]
  {
    AnswerConforms(nonce);
    hide Find, Conforms, Written, Accepts, Leftover, TakeFrame, ReadResponse, Answer;
    PushedBytesAreIgnored(h, nonce, Answer(nonce), 1, [129, 1, 97]);
    PushedFrame();
    assert Interpret(h, IDLE, [Frame(true, TEXT, [97])]).events == [Text([97])] + [];
  }

  lemma ReadAtOnce(read: seq<byte>)
    requires |read| >= 4 && Find(read, CRLF_CRLF, 0) >= 0
    ensures ReadResponse([], [read, []]) == Response(read, [[]])
  {
    hide Find;
    var chunks := [read, []];
    assert Find([], CRLF_CRLF, 0) == -1;
    assert [] + read == read && chunks[1..] == [[]];
    assert ReadResponse(read, chunks[1..]) == Response(read, [[]]);
  }

  lemma PushedFrame()
    ensures DrainFrames([129, 1, 97]) == Drained([Frame(true, TEXT, [97])], [], false)
  {
    FramesAreFraming();
    var b: seq<byte> := [129, 1, 97];
    var f := Frame(true, TEXT, [97]);
    assert EncodeFrame(f, Unmasked) + [] == b;
    FrameRoundTrip(f, Unmasked, []);
    assert b[3..] == [] && TakeFrame([]).More?;
  }

  // ----- The examples of section 5.7 -----

  const HELLO: seq<byte> := [72, 101, 108, 108, 111]

  /** Hel, a ping in between, lo; a masked Hello; a one-byte binary message. */
  function Examples(): seq<Packet> {
    [RawPacket(Frame(false, 1, [72, 101, 108]), Unmasked), RawPacket(Frame(true, 9, HELLO), Unmasked),
     RawPacket(Frame(true, 0, [108, 111]), Unmasked), RawPacket(Frame(true, 1, HELLO), Key([0x37, 0xfa, 0x21, 0x3d])),
     RawPacket(Frame(true, 2, [97]), Unmasked)]
  }

  lemma MaskedHello()
    ensures ApplyKey(HELLO, [0x37, 0xfa, 0x21, 0x3d]) == [0x7f, 0x9f, 0x4d, 0x51, 0x58]
  {
    hide Xor;
    Masked0();
    Masked1();
    Masked2();
    Masked3();
    Masked4();
  }

  lemma Masked0()
    ensures Xor(72, 0x37) == 0x7f
  {
    assert XorBits(0, 0, 1) == 0;
    assert XorBits(1, 0, 2) == 1;
    assert XorBits(2, 1, 3) == 3;
    assert XorBits(4, 3, 4) == 7;
    assert XorBits(9, 6, 5) == 15;
    assert XorBits(18, 13, 6) == 31;
    assert XorBits(36, 27, 7) == 63;
  }

  lemma Masked1()
    ensures Xor(101, 0xfa) == 0x9f
  {
    assert XorBits(0, 1, 1) == 1;
    assert XorBits(1, 3, 2) == 2;
    assert XorBits(3, 7, 3) == 4;
    assert XorBits(6, 15, 4) == 9;
    assert XorBits(12, 31, 5) == 19;
    assert XorBits(25, 62, 6) == 39;
    assert XorBits(50, 125, 7) == 79;
  }

  lemma Masked2()
    ensures Xor(108, 0x21) == 0x4d
  {
    assert XorBits(0, 0, 1) == 0;
    assert XorBits(1, 0, 2) == 1;
    assert XorBits(3, 1, 3) == 2;
    assert XorBits(6, 2, 4) == 4;
    assert XorBits(13, 4, 5) == 9;
    assert XorBits(27, 8, 6) == 19;
    assert XorBits(54, 16, 7) == 38;
  }

  lemma Masked3()
    ensures Xor(108, 0x3d) == 0x51
  {
    assert XorBits(0, 0, 1) == 0;
    assert XorBits(1, 0, 2) == 1;
    assert XorBits(3, 1, 3) == 2;
    assert XorBits(6, 3, 4) == 5;
    assert XorBits(13, 7, 5) == 10;
    assert XorBits(27, 15, 6) == 20;
    assert XorBits(54, 30, 7) == 40;
  }

  lemma Masked4()
    ensures Xor(111, 0x37) == 0x58
  {
    assert XorBits(0, 0, 1) == 0;
    assert XorBits(1, 0, 2) == 1;
    assert XorBits(3, 1, 3) == 2;
    assert XorBits(6, 3, 4) == 5;
    assert XorBits(13, 6, 5) == 11;
    assert XorBits(27, 13, 6) == 22;
    assert XorBits(55, 27, 7) == 44;
  }

  /** The bytes of each example. */
  lemma ExampleBytes()
    ensures EncodeFrame(Examples()[0].frame, Examples()[0].mask) == [0x01, 0x03, 0x48, 0x65, 0x6c]
    ensures EncodeFrame(Examples()[1].frame, Examples()[1].mask) == [0x89, 0x05, 0x48, 0x65, 0x6c, 0x6c, 0x6f]
    ensures EncodeFrame(Examples()[2].frame, Examples()[2].mask) == [0x80, 0x02, 0x6c, 0x6f]
    ensures EncodeFrame(Examples()[3].frame, Examples()[3].mask)
         == [0x81, 0x85, 0x37, 0xfa, 0x21, 0x3d, 0x7f, 0x9f, 0x4d, 0x51, 0x58]
    ensures EncodeFrame(Examples()[4].frame, Examples()[4].mask) == [0x82, 0x01, 0x61]
  {
    MaskedHello();
    hide ApplyKey;
  }

  /** What the client makes of them, byte for byte and callback for callback. */
  lemma ExamplesAreUnderstood(h: Handlers, chunks: seq<seq<byte>>)
    requires h.text && h.binary
    requires Arrived(chunks)
          == [0x01, 0x03, 0x48, 0x65, 0x6c] + ([0x89, 0x05, 0x48, 0x65, 0x6c, 0x6c, 0x6f] + ([0x80, 0x02, 0x6c, 0x6f]
             + ([0x81, 0x85, 0x37, 0xfa, 0x21, 0x3d, 0x7f, 0x9f, 0x4d, 0x51, 0x58] + ([0x82, 0x01, 0x61] + []))))
    ensures Session(h, [], chunks) == [Sent(Frame(true, 10, HELLO)), Text(HELLO), Text(HELLO), Binary([97])]
  {
    ExampleBytes();
    var ps := Examples();
    AllEncoded(ps);
    FiveFrames(ps);
    ServerToHandlers(h, ps, chunks);
    hide EncodeFrame, TakeFrame;
    ExampleEvents(h);
    AllBeforeClose(Frames(ps));
  }

  lemma FirstThree(h: Handlers)
    requires h.text
    ensures OnFrame(h, IDLE, Frame(false, 1, [72, 101, 108])) == Outcome(Assembly(true, 1, [72, 101, 108]), [])
    ensures OnFrame(h, Assembly(true, 1, [72, 101, 108]), Frame(true, 9, HELLO))
         == Outcome(Assembly(true, 1, [72, 101, 108]), [Sent(Frame(true, 10, HELLO))])
    ensures OnFrame(h, Assembly(true, 1, [72, 101, 108]), Frame(true, 0, [108, 111])) == Outcome(Assembly(false, 1, []), [Text(HELLO)])
  {
    assert [72, 101, 108] + [108, 111] == HELLO;
  }

  lemma LastTwo(h: Handlers)
    requires h.text && h.binary
    ensures OnFrame(h, Assembly(false, 1, []), Frame(true, 1, HELLO)) == Outcome(Assembly(false, 1, []), [Text(HELLO)])
    ensures OnFrame(h, Assembly(false, 1, []), Frame(true, 2, [97])) == Outcome(Assembly(false, 1, []), [Binary([97])])
  {
  }

  lemma AllEncoded(ps: seq<Packet>)
    requires |ps| == 5
    ensures EncodeAll(ps)
         == EncodeFrame(ps[0].frame, ps[0].mask) + (EncodeFrame(ps[1].frame, ps[1].mask) + (EncodeFrame(ps[2].frame, ps[2].mask)
            + (EncodeFrame(ps[3].frame, ps[3].mask) + (EncodeFrame(ps[4].frame, ps[4].mask) + []))))
  {
    hide EncodeFrame;
    assert EncodeAll(ps[4..]) == EncodeFrame(ps[4].frame, ps[4].mask) + EncodeAll(ps[5..]);
    assert EncodeAll(ps[3..]) == EncodeFrame(ps[3].frame, ps[3].mask) + EncodeAll(ps[4..]);
    assert EncodeAll(ps[2..]) == EncodeFrame(ps[2].frame, ps[2].mask) + EncodeAll(ps[3..]);
    assert EncodeAll(ps[1..]) == EncodeFrame(ps[1].frame, ps[1].mask) + EncodeAll(ps[2..]);
    assert ps[4..][1..] == ps[5..] && ps[3..][1..] == ps[4..] && ps[2..][1..] == ps[3..] && ps[1..][1..] == ps[2..];
  }

  lemma FiveFrames(ps: seq<Packet>)
    requires |ps| == 5
    ensures Frames(ps) == [ps[0].frame, ps[1].frame, ps[2].frame, ps[3].frame, ps[4].frame]
  {
    assert ps[1..][1..] == ps[2..] && ps[2..][1..] == ps[3..] && ps[3..][1..] == ps[4..] && ps[4..][1..] == [];
    assert Frames(ps[4..]) == [ps[4].frame] && Frames(ps[3..]) == [ps[3].frame] + Frames(ps[4..]);
    assert Frames(ps[2..]) == [ps[2].frame] + Frames(ps[3..]) && Frames(ps[1..]) == [ps[1].frame] + Frames(ps[2..]);
  }

  lemma ExampleEvents(h: Handlers)
    requires h.text && h.binary
    ensures Interpret(h, IDLE, [Frame(false, 1, [72, 101, 108]), Frame(true, 9, HELLO), Frame(true, 0, [108, 111]),
                                Frame(true, 1, HELLO), Frame(true, 2, [97])]).events
         == [Sent(Frame(true, 10, HELLO)), Text(HELLO), Text(HELLO), Binary([97])]
  {
    var a, b, c, d, e := Frame(false, 1, [72, 101, 108]), Frame(true, 9, HELLO), Frame(true, 0, [108, 111]),
                         Frame(true, 1, HELLO), Frame(true, 2, [97]);
    var g, k := Assembly(true, 1, [72, 101, 108]), Assembly(false, 1, []);
    FirstThree(h);
    LastTwo(h);
    hide OnFrame;
    InterpretCons(h, k, e, []);
    InterpretCons(h, k, d, [e]);
    InterpretCons(h, g, c, [d, e]);
    InterpretCons(h, g, b, [c, d, e]);
    InterpretCons(h, IDLE, a, [b, c, d, e]);
    assert [e] + [] == [e] && [d] + [e] == [d, e] && [c] + [d, e] == [c, d, e] && [b] + [c, d, e] == [b, c, d, e];
    assert [a] + [b, c, d, e] == [a, b, c, d, e];
  }

  // ----- The client object -----

  type MaskKey = k: seq<byte> | |k| == 4 witness [0, 0, 0, 0]

  /** What an event puts on the wire: a pong's frame under its mask, or as much of it as the socket takes. */
  function BytesOf(e: Event, key: MaskKey, room: nat): seq<byte> {
    if e.Sent? && Encodable(e.frame) then
      var bytes := EncodeFrame(e.frame, Key(key));
      if |bytes| <= room then bytes else bytes[..room]
    else []
  }

  /** The same for all events from number n on, each with its own mask and room. */
  function OnWire(log: seq<Event>, n: nat, keys: nat -> MaskKey, room: nat -> nat): seq<byte>
    requires n <= |log|
  {
    if |log| == n then []
    else OnWire(log[..|log| - 1], n, keys, room) + BytesOf(log[|log| - 1], keys(|log| - 1), room(|log| - 1))
  }

  lemma OnWireMore(log: seq<Event>, n: nat, keys: nat -> MaskKey, room: nat -> nat, e: Event)
    requires n <= |log|
    ensures OnWire(log + [e], n, keys, room) == OnWire(log, n, keys, room) + BytesOf(e, keys(|log|), room(|log|))
  {
    assert (log + [e])[..|log|] == log;
  }

  class Client {
    var fd: int
    var pendingBytes: seq<byte>
    /** Bytes the kernel accepted on the socket since the handshake. */
    var wire: seq<byte>
    var log: seq<Event>

    constructor (fd: int)
      ensures this.fd == fd && pendingBytes == [] && wire == [] && log == []
    {
      this.fd, pendingBytes, wire, log := fd, [], [], [];
    }

    /**
     Reads the handshake response and checks it against the nonce the client drew. On success `later` is what recv
     still has to offer.
     */
    method ReadHandshake(chunks: seq<seq<byte>>, nonce: seq<byte>) returns (ok: bool, later: seq<seq<byte>>)
      requires fd >= 0
      modifies this`fd, this`pendingBytes
      ensures var r := ReadResponse([], chunks);
              ok == (r.Response? && Accepts(nonce, r.bytes)) &&
              (ok ==> && later == r.later && fd == old(fd) && Find(r.bytes, CRLF_CRLF, 0) >= 0
                      && pendingBytes == if Leftover(r.bytes) == [] then old(pendingBytes) else Leftover(r.bytes))
      ensures !ok ==> fd == -1 && pendingBytes == old(pendingBytes)
    {
      hide Find, Accepts;
      var response: seq<byte> := [];
      later := chunks;
      while Find(response, CRLF_CRLF, 0) < 0
        invariant ReadResponse([], chunks) == ReadResponse(response, later)
        decreases |later|
      {
        if later == [] || later[0] == [] {
          fd := -1;
          return false, later;
        }
        response := response + later[0];
        later := later[1..];
      }
      var accepted := CheckResponse(nonce, response);
      if !accepted {
        fd := -1;
        return false, later;
      }
      var headerEnd := Find(response, CRLF_CRLF, 0) + 4;
      if headerEnd < |response| {
        pendingBytes := response[headerEnd..];
      }
      return true, later;
    }

    /** Sends one final masked frame; `room` is how many bytes the socket takes before it fails. */
    method SendFrame(opcode: byte, payload: seq<byte>, mask: MaskKey, room: nat) returns (ok: bool)
      requires |payload| < WRAP64
      modifies this`wire, this`log
      ensures var f := Frame(true, opcode % 16, payload);
              var bytes := EncodeFrame(f, Key(mask));
              && ok == (|bytes| <= room)
              && wire == old(wire) + (if ok then bytes else bytes[..room])
              && log == old(log) + [Sent(f)]
    {
      var frame := BuildLead(opcode, payload, mask);
      frame := frame + mask;
      var headerLen := |frame|;
      ghost var header := frame;
      var i := 0;
      while i < |payload|
        invariant 0 <= i <= |payload|
        invariant frame == header + ApplyKey(payload, mask)[..i]
      {
        frame := frame + [Xor(payload[i], mask[i % 4])];
        i := i + 1;
      }
      assert ApplyKey(payload, mask)[..i] == ApplyKey(payload, mask);
      log := log + [Sent(Frame(true, opcode % 16, payload))];
      ok := |frame| <= room;
      wire := wire + if ok then frame else frame[..room];
    }

    /** The first two bytes of an outgoing frame and its extended length, if any. */
    method BuildLead(opcode: byte, payload: seq<byte>, mask: MaskKey) returns (frame: seq<byte>)
      requires |payload| < WRAP64
      ensures frame == EncodeLead(Frame(true, opcode % 16, payload), Key(mask))
    {
      var len := |payload|;
      frame := [128 + opcode % 16];
      if len < 126 {
        frame := frame + [128 + len];
      } else if len <= 0xFFFF {
        frame := frame + [128 + 126];
        frame := frame + [ShiftRight(len, 1) % 256];
        frame := frame + [len % 256];
        ShortLength(len);
      } else {
        frame := frame + [128 + 127];
        frame := AppendLength(frame, len);
      }
    }

    /**
     The receive loop. `chunks` is what recv returns, an empty one standing for end of stream or an error;
     `keys` are the masks drawn for outgoing pongs and `room` how much of each the socket takes.
     */
    method RunReadLoop(h: Handlers, chunks: seq<seq<byte>>, keys: nat -> MaskKey, room: nat -> nat)
      modifies this
      ensures log == old(log) + Session(h, old(pendingBytes), chunks)
      ensures wire == old(wire) + OnWire(log, |old(log)|, keys, room)
      ensures fd == -1 && pendingBytes == []
    {
      var buf := pendingBytes;
      pendingBytes := [];
      var frag := IDLE;
      var sawClose := false;
      var later := chunks;
      while later != [] && later[0] != [] && !sawClose
        invariant pendingBytes == []
        invariant |old(log)| <= |log| && wire == old(wire) + OnWire(log, |old(log)|, keys, room)
        invariant old(log) + Session(h, old(pendingBytes), chunks)
               == log + if sawClose then [] else FromRead(h, frag, buf, later)
        decreases |later|
      {
        ReadStep(h, frag, buf, later);
        buf := buf + later[0];
        later := later[1..];
        buf, frag, sawClose := ParseBuffer(h, buf, frag, keys, room, later, old(wire), |old(log)|);
      }
      if !sawClose {
        ReadStep(h, frag, buf, later);
      }
      fd := -1;
    }

    /** The inner loop: acts on every complete frame in the buffer and keeps what is left of it. */
    method ParseBuffer(h: Handlers, buf: seq<byte>, frag: Assembly, keys: nat -> MaskKey, room: nat -> nat,
                       ghost later: seq<seq<byte>>, ghost base: seq<byte>, ghost start: nat)
        returns (buf': seq<byte>, frag': Assembly, sawClose: bool)
      requires start <= |log| && wire == base + OnWire(log, start, keys, room)
      modifies this`wire, this`log
      ensures start <= |log| && wire == base + OnWire(log, start, keys, room)
      ensures old(log) + FromParse(h, frag, buf, later) == log + if sawClose then [] else FromRead(h, frag', buf', later)
    {
      hide FromParse, FromRead, TakeFrame, OnFrame, OnWire, BytesOf;
      var offset := 0;
      frag', sawClose := frag, false;
      var frame, used := ParseFrame(buf, offset);
      while used > 0 && !sawClose
        invariant 0 <= offset <= |buf|
        invariant !sawClose ==> Found(buf[offset..], frame, used)
        invariant start <= |log| && wire == base + OnWire(log, start, keys, room)
        invariant old(log) + FromParse(h, frag, buf, later)
               == log + if sawClose then [] else FromParse(h, frag', buf[offset..], later)
        decreases |buf| - offset
      {
        ParseItem(log, h, frag', buf, offset, later, frame, used);
        ghost var before, sent := log, wire;
        frag', sawClose := Dispatch(h, frame, frag', keys(|log|), room(|log|));
        OneMoreOnWire(before, log, base, sent, wire, start, keys, room);
        offset := offset + used;
        frame, used := ParseFrame(buf, offset);
      }
      if !sawClose {
        ParseMore(h, frag', buf[offset..], later);
      }
      buf' := buf[offset..];
    }

    /** The frame at `offset`, or `used` zero when more bytes are needed. */
    method ParseFrame(buf: seq<byte>, offset: nat) returns (frame: Frame, used: nat)
      requires offset <= |buf|
      ensures Found(buf[offset..], frame, used)
    {
      hide TakeFrame, ApplyKey, HeaderBytes, PayloadBytes, Found, ExtendedBytes;
      frame, used := Frame(false, 0, []), 0;
      var ready, headerLen, payloadLen := ParseHeader(buf, offset);
      if !ready || |buf| - offset < headerLen + payloadLen {
        NothingFound(buf[offset..], frame);
        return;
      }
      frame := WholeFrame(buf, offset, headerLen, payloadLen);
      used := headerLen + payloadLen;
    }

    /** The frame at `offset` once all of it is there. */
    method WholeFrame(buf: seq<byte>, offset: nat, headerLen: nat, payloadLen: nat) returns (frame: Frame)
      requires offset + 2 <= |buf| && |buf| - offset >= headerLen + payloadLen
      requires |buf| - offset >= 2 + ExtendedBytes(buf[offset..][1] % 128)
      requires headerLen == HeaderBytes(buf[offset..][1]) && payloadLen == PayloadBytes(buf[offset..]) < WRAP64
      ensures Found(buf[offset..], frame, headerLen + payloadLen)
    {
      hide TakeFrame, ApplyKey, PayloadBytes, Found, HeaderBytes, ExtendedBytes;
      ghost var b := buf[offset..];
      var masked := buf[offset + 1] >= 128;
      HeaderHoldsKey(b);
      var start := offset + headerLen;
      var payload := CopyPayload(buf, start, payloadLen, masked);
      SameSlice(buf, offset, headerLen, headerLen + payloadLen);
      if masked {
        SameSlice(buf, offset, headerLen - 4, headerLen);
      }
      WholeFrameFound(b, headerLen, payloadLen, payload);
      frame := Frame(buf[offset] >= 128, buf[offset] % 16, payload);
    }

    /** The payload bytes, unmasked with the four bytes before them when there is a key. */
    method CopyPayload(buf: seq<byte>, start: nat, len: nat, masked: bool) returns (payload: seq<byte>)
      requires start + len <= |buf| && (masked ==> start >= 4)
      ensures payload == if masked then ApplyKey(buf[start..start + len], buf[start - 4..start]) else buf[start..start + len]
    {
      payload := [];
      for i := 0 to len
        invariant |payload| == i
        invariant forall j :: 0 <= j < i ==> payload[j] == if masked then Xor(buf[start + j], buf[start - 4 + j % 4]) else buf[start + j]
      {
        XorZero(buf[start + i]);
        payload := payload + [Xor(buf[start + i], if masked then buf[start - 4 + i % 4] else 0)];
      }
    }

    /** Header and payload lengths of the frame at `offset`, once enough of it has arrived to know them. */
    method ParseHeader(buf: seq<byte>, offset: nat) returns (ready: bool, headerLen: nat, payloadLen: nat)
      requires offset <= |buf|
      ensures var b := buf[offset..];
              && ready == (|b| >= 2 && |b| >= 2 + ExtendedBytes(b[1] % 128))
              && (ready ==> headerLen == HeaderBytes(b[1]) && payloadLen == PayloadBytes(b) < WRAP64)
    {
      ghost var b := buf[offset..];
      ready, headerLen, payloadLen := false, 2, 0;
      if |buf| - offset < 2 {
        return;
      }
      var b1 := buf[offset + 1];
      var masked, len7 := b1 >= 128, b1 % 128;
      payloadLen := len7;
      Pow256Values();
      if len7 == 126 {
        if |buf| - offset < headerLen + 2 {
          return;
        }
        payloadLen := TwoBytes(buf[offset + 2], buf[offset + 3]);
        headerLen := headerLen + 2;
        assert b[2..4] == [buf[offset + 2], buf[offset + 3]];
        TwoByteLength(buf[offset + 2], buf[offset + 3]);
      } else if len7 == 127 {
        if |buf| - offset < headerLen + 8 {
          return;
        }
        payloadLen := 0;
        for i := 0 to 8
          invariant payloadLen == FromBigEndian(b[2..2 + i])
        {
          payloadLen := payloadLen * 256 + buf[offset + 2 + i];
          assert b[2..2 + (i + 1)][..i] == b[2..2 + i];
        }
        headerLen := headerLen + 8;
        FromBigEndianBound(b[2..10]);
      }
      if masked {
        headerLen := headerLen + 4;
      }
      ready := true;
    }

    /** The switch on the opcode. */
    method Dispatch(h: Handlers, f: Frame, frag: Assembly, key: MaskKey, room: nat)
        returns (frag': Assembly, sawClose: bool)
      requires |f.payload| < WRAP64 && FitsOpcode(f.opcode)
      modifies this`wire, this`log
      ensures frag' == OnFrame(h, frag, f).assembly
      ensures log == old(log) + OnFrame(h, frag, f).events
      ensures sawClose == (f.opcode == CLOSE)
      ensures if log == old(log) then wire == old(wire)
              else exists e :: log == old(log) + [e] && wire == old(wire) + BytesOf(e, key, room)
    {
      frag', sawClose := frag, false;
      if f.opcode == CONTINUATION {
        if frag.active {
          frag' := frag'.(payload := frag.payload + f.payload);
          if f.fin {
            if frag.opcode == TEXT && h.text {
              log := log + [Text(frag'.payload)];
            } else if frag.opcode == BINARY && h.binary {
              log := log + [Binary(frag'.payload)];
            }
            frag' := frag'.(active := false, payload := []);
          }
        }
      } else if f.opcode == TEXT || f.opcode == BINARY {
        if !f.fin {
          frag' := Assembly(true, f.opcode, f.payload);
        } else if f.opcode == TEXT && h.text {
          log := log + [Text(f.payload)];
        } else if f.opcode == BINARY && h.binary {
          log := log + [Binary(f.payload)];
        }
      } else if f.opcode == CLOSE {
        sawClose := true;
      } else if f.opcode == PING {
        var _ := SendFrame(PONG, f.payload, key, room);
      }
    }
  }

  lemma OneMoreOnWire(before: seq<Event>, log: seq<Event>, base: seq<byte>, sent: seq<byte>, wire: seq<byte>,
                      n: nat, keys: nat -> MaskKey, room: nat -> nat)
    requires n <= |before| && sent == base + OnWire(before, n, keys, room)
    requires if log == before then wire == sent
             else exists e :: log == before + [e] && wire == sent + BytesOf(e, keys(|before|), room(|before|))
    ensures n <= |log| && wire == base + OnWire(log, n, keys, room)
  {
    hide BytesOf, OnWire;
    if log != before {
      var e :| log == before + [e] && wire == sent + BytesOf(e, keys(|before|), room(|before|));
      OnWireMore(before, n, keys, room, e);
      Associative(base, OnWire(before, n, keys, room), BytesOf(e, keys(|before|), room(|before|)));
    }
  }

  /** What ParseFrame reports about the front of the buffer. */
  ghost predicate Found(b: seq<byte>, frame: Frame, used: nat) {
    if used == 0 then TakeFrame(b).More?
    else && used <= |b| && TakeFrame(b) == Item(frame, used, frame.opcode == CLOSE)
         && |frame.payload| < WRAP64 && FitsOpcode(frame.opcode)
  }

  lemma NothingFound(b: seq<byte>, frame: Frame)
    requires |b| < 2 || |b| < 2 + ExtendedBytes(b[1] % 128) || |b| < HeaderBytes(b[1]) + PayloadBytes(b)
    ensures Found(b, frame, 0)
  {
  }

  lemma SameSlice(buf: seq<byte>, offset: nat, i: nat, j: nat)
    requires offset <= |buf| && i <= j <= |buf| - offset
    ensures buf[offset..][i..j] == buf[offset + i..offset + j]
  {
  }

  lemma HeaderHoldsKey(b: seq<byte>)
    requires |b| >= 2
    ensures HeaderBytes(b[1]) >= 2 && (b[1] >= 128 ==> HeaderBytes(b[1]) >= 6)
  {
  }

  lemma WholeFrameFound(b: seq<byte>, h: nat, n: nat, payload: seq<byte>)
    requires |b| >= 2 && |b| >= 2 + ExtendedBytes(b[1] % 128) && |b| >= h + n && n < WRAP64
    requires h == HeaderBytes(b[1]) && n == PayloadBytes(b)
    requires payload == if b[1] >= 128 then ApplyKey(b[h..h + n], b[h - 4..h]) else b[h..h + n]
    ensures h + n > 0 && Found(b, Frame(b[0] >= 128, b[0] % 16, payload), h + n)
  {
    hide ApplyKey, FromBigEndian, PayloadBytes, ExtendedBytes;
  }

  lemma ShortLength(n: nat)
    requires n <= 0xFFFF
    ensures BigEndian(n, 2) == [ShiftRight(n, 1) % 256, n % 256]
  {
    assert BigEndian(n / 256, 1) == BigEndian(n / 256 / 256, 0) + [n / 256 % 256];
  }

  function TwoBytes(hi: nat, lo: nat): nat {
    hi * 256 + lo
  }

  lemma TwoByteLength(hi: byte, lo: byte)
    ensures FromBigEndian([hi, lo]) == TwoBytes(hi, lo)
  {
    assert [hi, lo][..1] == [hi];
    assert FromBigEndian([hi]) == FromBigEndian([hi][..0]) * 256 + hi;
  }
}
