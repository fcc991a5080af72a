/** The SpyServer wire format: client commands and server messages, every field a little-endian 32-bit word. */
module SpyProtocol {
  import opened Bytes
  import opened Incremental
  import VirtualReceiver

  /** One more than the largest uint32_t. */
  const WRAP32: nat := 0x1_0000_0000

  /** Version 2.0.1700. */
  const PROTOCOL: nat := 0x0200_06A4

  const MAX_BODY: nat := 256
  const COMMAND_HEADER: nat := 8
  const MESSAGE_HEADER: nat := 20

  const HELLO: nat := 0
  const SET_SETTING: nat := 2
  const PING: nat := 3

  const STREAMING_MODE: nat := 0
  const STREAMING_ENABLED: nat := 1
  const IQ_FREQUENCY: nat := 101

  const STATUS_STREAM: nat := 0
  const IQ_STREAM: nat := 1

  const DEVICE_INFO: nat := 0
  const CLIENT_SYNC: nat := 1
  const PONG: nat := 2
  const UINT8_IQ: nat := 100

  // ----- Words -----

  /** The field at a byte offset. */
  function Word(b: seq<byte>, at: nat): (w: nat)
    requires at + 4 <= |b|
    ensures w < WRAP32
  {
    FromLittleEndianBound(b[at..at + 4]);
    assert Pow256(4) == WRAP32;
    FromLittleEndian(b[at..at + 4])
  }

  /** The first of the four bytes weighs least. */
  lemma WordIs(b: seq<byte>, at: nat)
    requires at + 4 <= |b|
    ensures Word(b, at) == b[at] as nat + 0x100 * b[at + 1] as nat + 0x10000 * b[at + 2] as nat + 0x1000000 * b[at + 3] as nat
  {
    var s := b[at..at + 4];
    assert s[1..][0] == b[at + 1] && s[1..][1..][0] == b[at + 2] && s[1..][1..][1..][0] == b[at + 3];
    assert FromLittleEndian(s[1..][1..][1..][1..]) == 0;
    assert FromLittleEndian(s[1..][1..][1..]) == b[at + 3] as nat;
    assert FromLittleEndian(s[1..][1..]) == b[at + 2] as nat + 0x100 * b[at + 3] as nat;
    assert FromLittleEndian(s[1..]) == b[at + 1] as nat + 0x100 * FromLittleEndian(s[1..][1..]);
  }

  /** A struct of 32-bit fields. */
  function Words(ws: seq<nat>): (s: seq<byte>)
    ensures |s| == 4 * |ws|
  {
    if ws == [] then [] else LittleEndian(ws[0], 4) + Words(ws[1..])
  }

  /** Storing a number in a 32-bit field keeps it modulo 2^32. */
  lemma FieldValue(n: nat)
    ensures FromLittleEndian(LittleEndian(n, 4)) == n % WRAP32
  {
    LittleEndianWraps(n, 4);
    assert Pow256(4) == WRAP32;
  }

  lemma {:induction false} LittleEndianWraps(n: nat, k: nat)
    ensures FromLittleEndian(LittleEndian(n, k)) == n % Pow256(k)
  {
    if k != 0 {
      LittleEndianWraps(n / 256, k - 1);
      assert LittleEndian(n, k)[1..] == LittleEndian(n / 256, k - 1);
      SplitRemainder(n, Pow256(k - 1));
    }
  }

  lemma SplitRemainder(n: nat, p: nat)
    requires p > 0
    ensures n % 256 + 256 * (n / 256 % p) == n % (256 * p)
  {
    var q, r := n / 256 / p, n / 256 % p;
    var rest := n % 256 + 256 * r;
    calc {
      n;
      256 * (n / 256) + n % 256;
      256 * (p * q + r) + n % 256;
      256 * p * q + rest;
    }
    assert 0 <= rest < 256 * p by {
      assert 256 * r <= 256 * (p - 1);
    }
    assert 256 * p * q == q * (256 * p);
    QuotientUnique(n, 256 * p, q, rest);
  }

  lemma {:induction false} FieldOf(ws: seq<nat>, i: nat, rest: seq<byte>)
    requires i < |ws|
    ensures Word(Words(ws) + rest, 4 * i) == ws[i] % WRAP32
  {
    hide FromLittleEndian, LittleEndian;
    var b := Words(ws) + rest;
    if i == 0 {
      assert b[0..4] == LittleEndian(ws[0], 4);
      FieldValue(ws[0]);
    } else {
      FieldOf(ws[1..], i - 1, rest);
      var tail := Words(ws[1..]) + rest;
      assert b == LittleEndian(ws[0], 4) + tail;
      assert b[4 * i..4 * i + 4] == tail[4 * (i - 1)..4 * (i - 1) + 4];
    }
  }

  // ----- Commands -----

  datatype Command = Command(kind: nat, body: seq<byte>)

  predicate Sendable(c: Command) {
    c.kind < WRAP32 && |c.body| <= MAX_BODY
  }

  /** A command whose fields fit its header and whose body the server allows. */
  type Request = c: Command | Sendable(c) witness Command(PING, [])

  function TakeCommand(b: seq<byte>): (s: Step<Request>)
    ensures s.Item? ==> 0 < s.used <= |b|
  {
    if |b| < COMMAND_HEADER then More
    else
      var size := Word(b, 4);
      if size > MAX_BODY then Reject
      else if |b| < COMMAND_HEADER + size then More
      else
        var c: Request := Command(Word(b, 0), b[COMMAND_HEADER..COMMAND_HEADER + size]);
        Item(c, COMMAND_HEADER + size, false)
  }

  lemma CommandsAreFraming()
    ensures Framing(TakeCommand)
  {
    forall b, more | !TakeCommand(b).More? ensures TakeCommand(b + more) == TakeCommand(b) {
      TakeCommandStable(b, more);
    }
  }

  lemma TakeCommandStable(b: seq<byte>, more: seq<byte>)
    requires !TakeCommand(b).More?
    ensures TakeCommand(b + more) == TakeCommand(b)
  {
    hide FromLittleEndian;
    assert (b + more)[4..8] == b[4..8] && (b + more)[0..4] == b[0..4];
    var size := Word(b, 4);
    if size <= MAX_BODY {
      assert (b + more)[8..8 + size] == b[8..8 + size];
    }
  }

  ghost function FeedCommands(carry: seq<byte>, chunks: seq<seq<byte>>): Drained<Request> {
    CommandsAreFraming();
    Feed(TakeCommand, carry, chunks)
  }

  /** Everything the command loop takes from bytes that are all there. */
  ghost function ParseCommands(b: seq<byte>): Drained<Request> {
    CommandsAreFraming();
    Drain(TakeCommand, b)
  }

  function EncodeCommand(c: Request): (b: seq<byte>)
    ensures |b| == COMMAND_HEADER + |c.body|
  {
    LittleEndian(c.kind, 4) + LittleEndian(|c.body|, 4) + c.body
  }

  function EncodeCommands(cs: seq<Request>): seq<byte> {
    if cs == [] then [] else EncodeCommand(cs[0]) + EncodeCommands(cs[1..])
  }

  lemma CommandRoundTrip(c: Request, rest: seq<byte>)
    ensures TakeCommand(EncodeCommand(c) + rest) == Item(c, |EncodeCommand(c)|, false)
  {
    hide FromLittleEndian, LittleEndian;
    var b := EncodeCommand(c) + rest;
    assert b[0..4] == LittleEndian(c.kind, 4) && b[4..8] == LittleEndian(|c.body|, 4);
    FieldValue(c.kind);
    FieldValue(|c.body|);
    assert b[8..8 + |c.body|] == c.body;
  }

  lemma {:induction false} LittleEndianInverse(s: seq<byte>)
    ensures LittleEndian(FromLittleEndian(s), |s|) == s
  {
    if s != [] {
      var low, rest := s[0], FromLittleEndian(s[1..]);
      LittleEndianInverse(s[1..]);
      assert (low + 256 * rest) % 256 == low && (low + 256 * rest) / 256 == rest;
      hide FromLittleEndian;
      assert [s[0]] + s[1..] == s;
    }
  }

  lemma TakenCommandEncodes(b: seq<byte>)
    requires TakeCommand(b).Item?
    ensures EncodeCommand(TakeCommand(b).item) + b[TakeCommand(b).used..] == b
  {
    LittleEndianInverse(b[0..4]);
    LittleEndianInverse(b[4..8]);
    hide FromLittleEndian, LittleEndian;
    var n := TakeCommand(b).used;
    assert b == b[0..4] + b[4..8] + b[8..n] + b[n..];
  }

  /** The first header in b announces a body the server refuses. */
  predicate Oversized(b: seq<byte>) {
    |b| >= COMMAND_HEADER && Word(b, 4) > MAX_BODY
  }

  /**
   What the loop takes, re-encoded, is exactly the bytes before the point where it stopped: at the first oversized
   header when it disconnects, otherwise short of a complete command, so with at most 263 bytes kept.
   */
  lemma {:induction false} ParseIsExact(b: seq<byte>)
    ensures var d := ParseCommands(b);
            && EncodeCommands(d.items) + d.rest == b
            && (d.done <==> Oversized(d.rest))
            && (!d.done ==> |d.rest| < COMMAND_HEADER + MAX_BODY)
    decreases |b|
  {
    CommandsAreFraming();
    if TakeCommand(b).Item? {
      var n := TakeCommand(b).used;
      hide TakeCommand, EncodeCommand;
      ParseIsExact(b[n..]);
      TakenCommandEncodes(b);
      var d := ParseCommands(b[n..]);
      var c := TakeCommand(b).item;
      assert ([c] + d.items)[1..] == d.items;
      Associative(EncodeCommand(c), EncodeCommands(d.items), d.rest);
    } else {
      assert [] + b == b;
    }
  }

  /** Commands sent back to back are handled in order; whatever follows them is parsed as if it came first. */
  lemma {:induction false} SentCommandsAreTaken(cs: seq<Request>, rest: seq<byte>)
    ensures var d := ParseCommands(rest);
            ParseCommands(EncodeCommands(cs) + rest) == Drained(cs + d.items, d.rest, d.done)
  {
    CommandsAreFraming();
    if cs == [] {
      assert EncodeCommands(cs) + rest == rest && cs + ParseCommands(rest).items == ParseCommands(rest).items;
    } else {
      hide TakeCommand, EncodeCommand;
      var tail := EncodeCommands(cs[1..]) + rest;
      SentCommandsAreTaken(cs[1..], rest);
      Associative(EncodeCommand(cs[0]), EncodeCommands(cs[1..]), rest);
      CommandRoundTrip(cs[0], tail);
      assert (EncodeCommand(cs[0]) + tail)[|EncodeCommand(cs[0])|..] == tail;
      Prepend(cs[0], cs[1..], ParseCommands(rest).items);
      assert [cs[0]] + cs[1..] == cs;
    }
  }

  lemma {:induction false} EncodeCommandsAppend(cs: seq<Request>, c: Request)
    ensures EncodeCommands(cs + [c]) == EncodeCommands(cs) + EncodeCommand(c)
  {
    hide EncodeCommand;
    if cs == [] {
      assert [c][1..] == [] && EncodeCommands([c]) == EncodeCommand(c) + [];
    } else {
      EncodeCommandsAppend(cs[1..], c);
      assert (cs + [c])[1..] == cs[1..] + [c];
      Associative(EncodeCommand(cs[0]), EncodeCommands(cs[1..]), EncodeCommand(c));
    }
  }

  /** Taking one command off the buffer keeps what was handled plus what is buffered equal to what was received. */
  lemma TakenIsAccounted(cs: seq<Request>, b: seq<byte>)
    requires TakeCommand(b).Item?
    ensures EncodeCommands(cs + [TakeCommand(b).item]) + b[TakeCommand(b).used..] == EncodeCommands(cs) + b
  {
    TakenCommandEncodes(b);
    hide TakeCommand, EncodeCommand, EncodeCommands;
    var c := TakeCommand(b).item;
    EncodeCommandsAppend(cs, c);
    Associative(EncodeCommands(cs), EncodeCommand(c), b[TakeCommand(b).used..]);
  }

  /** The commands handled are the first ones of the stream; all of them once no complete one is buffered. */
  lemma HandledOfReceived(cs: seq<Request>, b: seq<byte>)
    ensures cs <= ParseCommands(EncodeCommands(cs) + b).items
    ensures !TakeCommand(b).Item? ==> cs == ParseCommands(EncodeCommands(cs) + b).items
  {
    CommandsAreFraming();
    SentCommandsAreTaken(cs, b);
    hide EncodeCommands, TakeCommand;
    assert cs + [] == cs;
  }

  /** Later bytes only add commands. */
  lemma ParseGrows(b: seq<byte>, all: seq<byte>)
    requires b <= all
    ensures ParseCommands(b).items <= ParseCommands(all).items
  {
    CommandsAreFraming();
    hide TakeCommand;
    assert all == b + all[|b|..];
    DrainAppend(TakeCommand, b, all[|b|..]);
  }

  /**
   However a client's bytes arrive, the server handles the same commands in the same order. If the stream is some
   commands and then an oversized header, it handles those commands, nothing after them, and hangs up.
   */
  lemma CommandsIndependentOfChunks(chunks: seq<seq<byte>>)
    ensures var f := FeedCommands([], chunks);
            SameOutcome(f, ParseCommands(Arrived(chunks))) && (!f.done ==> |f.rest| <= 263)
    ensures forall cs: seq<Request>, rest: seq<byte> :: Arrived(chunks) == EncodeCommands(cs) + rest && Oversized(rest)
              ==> FeedCommands([], chunks).items == cs && FeedCommands([], chunks).done
  {
    CommandsAreFraming();
    ChunkIndependence(TakeCommand, [], chunks);
    assert [] + Arrived(chunks) == Arrived(chunks);
    ParseIsExact(Arrived(chunks));
    forall cs: seq<Request>, rest: seq<byte> | Arrived(chunks) == EncodeCommands(cs) + rest && Oversized(rest)
      ensures FeedCommands([], chunks).items == cs && FeedCommands([], chunks).done
    {
      SentCommandsAreTaken(cs, rest);
      assert ParseCommands(rest) == Drained([], rest, true);
      assert cs + [] == cs;
    }
  }

  /** The limit on a command's body. */
  lemma OversizedIsOver256(b: seq<byte>)
    ensures Oversized(b) <==> |b| >= 8 && Word(b, 4) > 256
  {
  }

  // ----- Messages -----

  /** What one sendMessage or broadcast puts on the wire. */
  datatype Message = Message(kind: nat, stream: nat, number: nat, body: seq<byte>)

  function Header(kind: nat, stream: nat, number: nat, length: nat): (h: seq<byte>)
    ensures |h| == MESSAGE_HEADER
  {
    Words([PROTOCOL, kind, stream, number, length])
  }

  function EncodeMessage(m: Message): (b: seq<byte>)
    ensures |b| == MESSAGE_HEADER + |m.body|
  {
    Header(m.kind, m.stream, m.number, |m.body|) + m.body
  }

  /** How a client splits the byte stream into messages. */
  function TakeMessage(b: seq<byte>): Step<Message> {
    if |b| < MESSAGE_HEADER || |b| < MESSAGE_HEADER + Word(b, 16) then More
    else
      var n := MESSAGE_HEADER + Word(b, 16);
      Item(Message(Word(b, 4), Word(b, 8), Word(b, 12), b[MESSAGE_HEADER..n]), n, false)
  }

  lemma MessagesAreFraming()
    ensures Framing(TakeMessage)
  {
    forall b, more | !TakeMessage(b).More? ensures TakeMessage(b + more) == TakeMessage(b) {
      TakeMessageStable(b, more);
    }
  }

  lemma SameWord(b: seq<byte>, more: seq<byte>, at: nat)
    requires at + 4 <= |b|
    ensures Word(b + more, at) == Word(b, at)
  {
    assert (b + more)[at..at + 4] == b[at..at + 4];
  }

  lemma TakeMessageStable(b: seq<byte>, more: seq<byte>)
    requires !TakeMessage(b).More?
    ensures TakeMessage(b + more) == TakeMessage(b)
  {
    hide Word;
    SameWord(b, more, 4);
    SameWord(b, more, 8);
    SameWord(b, more, 12);
    SameWord(b, more, 16);
    var n := MESSAGE_HEADER + Word(b, 16);
    assert (b + more)[MESSAGE_HEADER..n] == b[MESSAGE_HEADER..n];
  }

  ghost function ParseMessages(b: seq<byte>): Drained<Message> {
    MessagesAreFraming();
    Drain(TakeMessage, b)
  }

  predicate FieldsFit(m: Message) {
    m.kind < WRAP32 && m.stream < WRAP32 && m.number < WRAP32
  }

  /** A client recovers a message exactly when the body's length fits the 32-bit field it is cast to. */
  lemma MessageRoundTrip(m: Message, rest: seq<byte>)
    requires FieldsFit(m)
    ensures TakeMessage(EncodeMessage(m) + rest) == Item(m, |EncodeMessage(m)|, false) <==> |m.body| < WRAP32
  {
    hide Word, Words;
    var b, ws := EncodeMessage(m) + rest, [PROTOCOL, m.kind, m.stream, m.number, |m.body|];
    Associative(Words(ws), m.body, rest);
    FieldOf(ws, 1, m.body + rest);
    FieldOf(ws, 2, m.body + rest);
    FieldOf(ws, 3, m.body + rest);
    FieldOf(ws, 4, m.body + rest);
    assert Word(b, 16) == |m.body| % WRAP32;
    if |m.body| < WRAP32 {
      assert b[MESSAGE_HEADER..MESSAGE_HEADER + |m.body|] == m.body;
    }
  }

  /** Where each field of a message lies: protocol 2.0.1700, type, stream, number, length, then the body. */
  lemma MessageLayout(m: Message)
    ensures var b := EncodeMessage(m);
            && |b| == 20 + |m.body| && b[20..] == m.body
            && Word(b, 0) == 2 * 0x1000000 + 1700 && Word(b, 4) == m.kind % WRAP32 && Word(b, 8) == m.stream % WRAP32
            && Word(b, 12) == m.number % WRAP32 && Word(b, 16) == |m.body| % WRAP32
  {
    hide Word, Words;
    var ws := [PROTOCOL, m.kind, m.stream, m.number, |m.body|];
    FieldOf(ws, 0, m.body);
    FieldOf(ws, 1, m.body);
    FieldOf(ws, 2, m.body);
    FieldOf(ws, 3, m.body);
    FieldOf(ws, 4, m.body);
  }

  function EncodeMessages(ms: seq<Message>): seq<byte> {
    if ms == [] then [] else EncodeMessage(ms[0]) + EncodeMessages(ms[1..])
  }

  predicate Fits(m: Message) {
    FieldsFit(m) && |m.body| < WRAP32
  }

  /** Whole messages back to back parse back into exactly themselves, with nothing left over. */
  lemma {:induction false} MessagesParseBack(ms: seq<Message>)
    requires forall i :: 0 <= i < |ms| ==> Fits(ms[i])
    ensures ParseMessages(EncodeMessages(ms)) == Drained(ms, [], false)
  {
    MessagesAreFraming();
    if ms != [] {
      hide TakeMessage, EncodeMessage;
      var tail := EncodeMessages(ms[1..]);
      MessagesParseBack(ms[1..]);
      assert Fits(ms[0]);
      MessageRoundTrip(ms[0], tail);
      assert (EncodeMessage(ms[0]) + tail)[|EncodeMessage(ms[0])|..] == tail;
      assert [ms[0]] + ms[1..] == ms;
    }
  }

  // ----- The handshake replies -----

  /** What the server knows of its receiver: the capture it is cut from and its own rate. */
  datatype Facts = Facts(widebandCenterHz: real, widebandSampleRateHz: real, sampleRateHz: real)

  function Low(f: Facts): real {
    VirtualReceiver.Lowest(f.widebandCenterHz, f.widebandSampleRateHz)
  }

  function High(f: Facts): real {
    VirtualReceiver.Highest(f.widebandCenterHz, f.widebandSampleRateHz)
  }

  /** A cast to uint32_t: truncation. Out of range the language leaves it open; here it wraps. */
  function Cast(x: real): (n: nat)
    ensures n < WRAP32
  {
    VirtualReceiver.Truncated(x) % WRAP32
  }

  /** Device type RtlSdr, no serial, no decimation or gain stages, resolution 1, forced 8-bit samples. */
  function DeviceInfoBody(f: Facts): (b: seq<byte>)
    ensures |b| == 48
  {
    Words([3, 0, Cast(f.sampleRateHz), Cast(f.sampleRateHz), 0, 0, 0, Cast(Low(f)), Cast(High(f)), 1, 0, 1])
  }

  function ClientSyncBody(f: Facts, centerHz: real): (b: seq<byte>)
    ensures |b| == 36
  {
    Words([1, 0, Cast(f.widebandCenterHz), Cast(centerHz), 0, Cast(Low(f)), Cast(High(f)), 0, 0])
  }

  /** The values whose truncation a uint32_t holds; the language leaves every other cast open. */
  predicate Castable(x: real) {
    -1.0 < x < WRAP32 as real
  }

  /**
   Both handshake replies carry the same tuning range, and it is the range the receiver accepts, but for a minimum
   that truncation lowered.
   */
  lemma RepliesAdvertiseTuning(f: Facts, centerHz: real, v: nat)
    requires Castable(Low(f)) && Castable(High(f))
    ensures var lo, hi := Word(DeviceInfoBody(f), 28), Word(DeviceInfoBody(f), 32);
            && lo == Word(ClientSyncBody(f, centerHz), 20) && hi == Word(ClientSyncBody(f, centerHz), 24)
            && (VirtualReceiver.WithinSpan(f.widebandCenterHz, f.widebandSampleRateHz, v as real)
                <==> High(f) >= 0.0 && lo <= v <= hi && (v == lo ==> Low(f) <= lo as real))
  {
    hide Word, Words;
    var info := [3, 0, Cast(f.sampleRateHz), Cast(f.sampleRateHz), 0, 0, 0, Cast(Low(f)), Cast(High(f)), 1, 0, 1];
    var sync := [1, 0, Cast(f.widebandCenterHz), Cast(centerHz), 0, Cast(Low(f)), Cast(High(f)), 0, 0];
    assert Words(info) + [] == Words(info) && Words(sync) + [] == Words(sync);
    FieldOf(info, 7, []);
    FieldOf(info, 8, []);
    FieldOf(sync, 5, []);
    FieldOf(sync, 6, []);
    InRange(Low(f));
    InRange(High(f));
    VirtualReceiver.AdvertisedRange(f.widebandCenterHz, f.widebandSampleRateHz, v);
  }

  /** A capture from 999999.5 Hz up: the advertised minimum, 999999 Hz, is refused. */
  lemma MinimumCanBeRefused()
    ensures var f := Facts(1000000.5, 2.0, 1.0);
            Word(DeviceInfoBody(f), 28) == 999999 && !VirtualReceiver.WithinSpan(f.widebandCenterHz, f.widebandSampleRateHz, 999999.0)
  {
    var f := Facts(1000000.5, 2.0, 1.0);
    MinimumField(f);
    hide Word, DeviceInfoBody;
    assert Low(f) == 999999.5;
    TruncatesTo(Low(f), 999999);
  }

  /** Every field of DeviceInfo: an RtlSdr without serial, stages or gain, at one rate, forced to 8-bit samples. */
  lemma DeviceInfoLayout(f: Facts)
    ensures var b := DeviceInfoBody(f);
            && |b| == 48 && Word(b, 0) == 3 && Word(b, 4) == 0
            && Word(b, 8) == Cast(f.sampleRateHz) && Word(b, 12) == Cast(f.sampleRateHz)
            && Word(b, 16) == 0 && Word(b, 20) == 0 && Word(b, 24) == 0
            && Word(b, 28) == Cast(f.widebandCenterHz - f.widebandSampleRateHz / 2.0)
            && Word(b, 32) == Cast(f.widebandCenterHz + f.widebandSampleRateHz / 2.0)
            && Word(b, 36) == 1 && Word(b, 40) == 0 && Word(b, 44) == 1
  {
    var info := [3, 0, Cast(f.sampleRateHz), Cast(f.sampleRateHz), 0, 0, 0, Cast(Low(f)), Cast(High(f)), 1, 0, 1];
    assert Low(f) == f.widebandCenterHz - f.widebandSampleRateHz / 2.0;
    assert High(f) == f.widebandCenterHz + f.widebandSampleRateHz / 2.0;
    assert DeviceInfoBody(f) == Words(info);
    hide Word, Words, Cast, Low, High, DeviceInfoBody;
    FieldAt(info, 0, 0);
    FieldAt(info, 1, 4);
    FieldAt(info, 2, 8);
    FieldAt(info, 3, 12);
    FieldAt(info, 4, 16);
    FieldAt(info, 5, 20);
    FieldAt(info, 6, 24);
    FieldAt(info, 7, 28);
    FieldAt(info, 8, 32);
    FieldAt(info, 9, 36);
    FieldAt(info, 10, 40);
    FieldAt(info, 11, 44);
  }

  /** Every field of ClientSync: control allowed, no gain, the capture's centre, the receiver's centre, the tuning range. */
  lemma ClientSyncLayout(f: Facts, centerHz: real)
    ensures var b := ClientSyncBody(f, centerHz);
            && |b| == 36 && Word(b, 0) == 1 && Word(b, 4) == 0
            && Word(b, 8) == Cast(f.widebandCenterHz) && Word(b, 12) == Cast(centerHz) && Word(b, 16) == 0
            && Word(b, 20) == Cast(f.widebandCenterHz - f.widebandSampleRateHz / 2.0)
            && Word(b, 24) == Cast(f.widebandCenterHz + f.widebandSampleRateHz / 2.0)
            && Word(b, 28) == 0 && Word(b, 32) == 0
  {
    var sync := [1, 0, Cast(f.widebandCenterHz), Cast(centerHz), 0, Cast(Low(f)), Cast(High(f)), 0, 0];
    assert Low(f) == f.widebandCenterHz - f.widebandSampleRateHz / 2.0;
    assert High(f) == f.widebandCenterHz + f.widebandSampleRateHz / 2.0;
    assert ClientSyncBody(f, centerHz) == Words(sync);
    hide Word, Words, Cast, Low, High, ClientSyncBody;
    FieldAt(sync, 0, 0);
    FieldAt(sync, 1, 4);
    FieldAt(sync, 2, 8);
    FieldAt(sync, 3, 12);
    FieldAt(sync, 4, 16);
    FieldAt(sync, 5, 20);
    FieldAt(sync, 6, 24);
    FieldAt(sync, 7, 28);
    FieldAt(sync, 8, 32);
  }

  lemma FieldAt(ws: seq<nat>, i: nat, at: nat)
    requires i < |ws| && ws[i] < WRAP32 && at == 4 * i
    ensures Word(Words(ws), at) == ws[i]
  {
    hide Word, Words;
    FieldOf(ws, i, []);
    assert Words(ws) + [] == Words(ws);
  }

  lemma TruncatesTo(x: real, n: nat)
    requires n as real <= x < n as real + 1.0 && n < WRAP32
    ensures Cast(x) == n
  {
  }

  lemma MinimumField(f: Facts)
    ensures Word(DeviceInfoBody(f), 28) == Cast(Low(f))
  {
    hide Word, Words, Cast;
    var info := [3, 0, Cast(f.sampleRateHz), Cast(f.sampleRateHz), 0, 0, 0, Cast(Low(f)), Cast(High(f)), 1, 0, 1];
    assert Words(info) + [] == Words(info);
    FieldOf(info, 7, []);
    FieldIsWord(Cast(Low(f)));
  }

  lemma FieldIsWord(n: nat)
    requires n < WRAP32
    ensures n % WRAP32 == n
  {
  }

  lemma InRange(x: real)
    requires Castable(x)
    ensures Cast(x) == VirtualReceiver.Truncated(x) && 0 <= VirtualReceiver.Truncated(x) < WRAP32
  {
  }
}
