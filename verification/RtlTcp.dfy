/** The rtl_tcp server as an object: its command stream, its client table and its read loop. */
module RtlTcp {
  import opened Bytes
  import opened Incremental
  import opened Descriptors
  import VirtualReceiver

  // ----- Commands -----

  datatype Command = Command(cmd: byte, param: nat)

  const COMMAND_LENGTH: nat := 5
  const SET_FREQUENCY: byte := 1

  /** Five bytes: a command and a big-endian parameter. */
  function TakeCommand(b: seq<byte>): Step<Command> {
    if |b| < COMMAND_LENGTH then More
    else Item(Command(b[0], FromBigEndian(b[1..5])), COMMAND_LENGTH, false)
  }

  lemma CommandsAreFraming()
    ensures Framing(TakeCommand)
  {
    hide FromBigEndian;
    forall b, more | !TakeCommand(b).More? ensures TakeCommand(b + more) == TakeCommand(b) {
      assert (b + more)[1..5] == b[1..5];
    }
  }

  ghost function FeedCommands(carry: seq<byte>, chunks: seq<seq<byte>>): Drained<Command> {
    CommandsAreFraming();
    Feed(TakeCommand, carry, chunks)
  }

  /** The commands a byte stream holds, five bytes at a time. */
  function CommandsIn(b: seq<byte>): seq<Command>
    decreases |b|
  {
    if |b| < 5 then [] else [Command(b[0], FromBigEndian(b[1..5]))] + CommandsIn(b[5..])
  }

  lemma {:induction false} DrainIsCommandsIn(b: seq<byte>)
    ensures Framing(TakeCommand)
    ensures Drain(TakeCommand, b) == Drained(CommandsIn(b), b[|b| - |b| % 5..], false)
    decreases |b|
  {
    hide FromBigEndian;
    CommandsAreFraming();
    if |b| >= 5 {
      DrainIsCommandsIn(b[5..]);
      assert b[5..][|b| - 5 - (|b| - 5) % 5..] == b[|b| - |b| % 5..];
    } else {
      assert b[0..] == b;
    }
  }

  /** However the bytes arrive, each complete command is decoded once, in order, and fewer than five bytes are kept. */
  lemma CommandsIndependentOfChunks(chunks: seq<seq<byte>>)
    ensures FeedCommands([], chunks).items == CommandsIn(Arrived(chunks))
    ensures !FeedCommands([], chunks).done && |FeedCommands([], chunks).rest| == |Arrived(chunks)| % 5
  {
    CommandsAreFraming();
    ChunkIndependence(TakeCommand, [], chunks);
    assert [] + Arrived(chunks) == Arrived(chunks);
    DrainIsCommandsIn(Arrived(chunks));
  }

  /** A tuning request on the wire: command 1, then the frequency, most significant byte first. */
  lemma TuningRequest(a: byte, b: byte, c: byte, d: byte)
    ensures CommandsIn([1, a, b, c, d])
         == [Command(1, a as nat * 0x1000000 + b as nat * 0x10000 + c as nat * 0x100 + d as nat)]
    ensures Frequencies(CommandsIn([1, a, b, c, d]))
         == [(a as nat * 0x1000000 + b as nat * 0x10000 + c as nat * 0x100 + d as nat) as real]
  {
    var s: seq<byte> := [1, a, b, c, d];
    assert s[1..5] == [a, b, c, d] && s[5..] == [];
    FourByteValue(a, b, c, d);
    hide FromBigEndian;
    var cs := CommandsIn(s);
    assert CommandsIn(s[5..]) == [];
    assert cs[1..] == [];
  }

  /** The tuning requests among some commands. */
  function Frequencies(cs: seq<Command>): seq<real> {
    if cs == [] then []
    else (if cs[0].cmd == SET_FREQUENCY then [cs[0].param as real] else []) + Frequencies(cs[1..])
  }

  // ----- The client table -----

  function Without(table: seq<Fd>, fd: Fd): seq<Fd> {
    if table == [] then []
    else (if table[0] == fd then [] else [table[0]]) + Without(table[1..], fd)
  }

  lemma {:induction false} WithoutAppend(a: seq<Fd>, x: Fd, fd: Fd)
    ensures Without(a + [x], fd) == Without(a, fd) + (if x == fd then [] else [x])
  {
    if a == [] {
      assert [x][1..] == [];
    } else {
      WithoutAppend(a[1..], x, fd);
      assert (a + [x])[1..] == a[1..] + [x];
    }
  }

  ghost predicate NoDuplicates(table: seq<Fd>) {
    table == [] || (table[0] !in table[1..] && NoDuplicates(table[1..]))
  }

  lemma {:induction false} WithoutMembers(table: seq<Fd>, fd: Fd)
    ensures forall g :: g in Without(table, fd) <==> g in table && g != fd
    ensures NoDuplicates(table) ==> NoDuplicates(Without(table, fd))
  {
    if table != [] {
      WithoutMembers(table[1..], fd);
      var rest := Without(table[1..], fd);
      assert table == [table[0]] + table[1..];
      if table[0] != fd {
        assert Without(table, fd)[1..] == rest;
      } else {
        assert Without(table, fd) == rest;
      }
    }
  }

  lemma {:induction false} PushMembers(table: seq<Fd>, fd: Fd)
    requires NoDuplicates(table) && fd !in table
    ensures NoDuplicates(table + [fd])
  {
    if table == [] {
      assert [fd][1..] == [];
    } else {
      PushMembers(table[1..], fd);
      assert (table + [fd])[1..] == table[1..] + [fd];
    }
  }

  /** The dongle information every client is greeted with: magic, tuner type 6, no gain steps. */
  const HEADER: seq<byte> := ['R' as int, 'T' as int, 'L' as int, '0' as int, 0, 0, 0, 6, 0, 0, 0, 0]

  /** RTL0, tuner type 6 and no gain steps, both as big-endian words. */
  lemma HeaderLayout()
    ensures |HEADER| == 12 && HEADER[..4] == Chars("RTL0")
    ensures FromBigEndian(HEADER[4..8]) == 6 && FromBigEndian(HEADER[8..12]) == 0
  {
    FourByteValue(0, 0, 0, 6);
    FourByteValue(0, 0, 0, 0);
    assert HEADER[4..8] == [0, 0, 0, 6] && HEADER[8..12] == [0, 0, 0, 0];
  }

  // ----- The object -----

  class Server {
    const vrx: VirtualReceiver.Receiver
    var clientFds: seq<Fd>

    constructor (vrx: VirtualReceiver.Receiver)
      ensures this.vrx == vrx && clientFds == []
    {
      this.vrx := vrx;
      clientFds := [];
    }

    /** What the accept thread sends before it registers a client. */
    method Greet(fd: Fd) returns (calls: seq<SendCall>)
      ensures calls == [SendCall(fd, HEADER)]
    {
      var header: seq<byte> := seq(12, _ => 0);
      header := Chars("RTL0") + header[4..];
      header := header[7 := 6];
      assert header == HEADER;
      calls := [SendCall(fd, header)];
    }

    /** The accept thread's critical region. */
    method Register(fd: Fd)
      modifies this
      ensures clientFds == old(clientFds) + [fd]
    {
      clientFds := clientFds + [fd];
    }

    method RemoveClient(fd: Fd)
      modifies this
      ensures clientFds == Without(old(clientFds), fd)
    {
      var fds, kept: seq<Fd> := clientFds, [];
      for i := 0 to |fds|
        invariant kept == Without(fds[..i], fd)
      {
        WithoutAppend(fds[..i], fds[i], fd);
        assert fds[..i + 1] == fds[..i] + [fds[i]];
        if fds[i] != fd {
          kept := kept + [fds[i]];
        }
      }
      assert fds[..|fds|] == fds;
      clientFds := kept;
    }

    /** One non-blocking send of the whole block to each client, in table order. */
    method BroadcastIq(data: seq<byte>) returns (calls: seq<SendCall>)
      ensures |calls| == |clientFds| && forall i :: 0 <= i < |calls| ==> calls[i] == SendCall(clientFds[i], data)
    {
      calls := [];
      for i := 0 to |clientFds|
        invariant |calls| == i && forall j :: 0 <= j < i ==> calls[j] == SendCall(clientFds[j], data)
      {
        calls := calls + [SendCall(clientFds[i], data)];
      }
    }

    /** Only a tuning request has an effect; one outside the span is refused by the receiver. */
    method HandleCommand(c: Command)
      requires vrx.Valid()
      modifies vrx`centerFrequencyHz, vrx.nco
      ensures vrx.Valid()
      ensures vrx.centerFrequencyHz == Retuned(vrx.widebandCenterHz, vrx.widebandSampleRateHz, old(vrx.centerFrequencyHz), [c])
    {
      hide Retuned;
      RetunedOne(vrx.widebandCenterHz, vrx.widebandSampleRateHz, vrx.centerFrequencyHz, c);
      if c.cmd == SET_FREQUENCY {
        var _ := vrx.RetuneTo(c.param as real);
      }
    }

    /** The receive loop of one client: recv, parse, act, keep the remainder. */
    method ClientReadLoop(chunks: seq<seq<byte>>) returns (carry: seq<byte>)
      requires vrx.Valid()
      modifies vrx`centerFrequencyHz, vrx.nco
      ensures vrx.Valid() && carry == FeedCommands([], chunks).rest && |carry| < COMMAND_LENGTH
      ensures vrx.centerFrequencyHz == Retuned(vrx.widebandCenterHz, vrx.widebandSampleRateHz, old(vrx.centerFrequencyHz), FeedCommands([], chunks).items)
    {
      CommandsAreFraming();
      var recvBuf: seq<byte> := [];
      var later := chunks;
      while later != [] && later[0] != []
        invariant vrx.Valid() && FeedCommands(recvBuf, later).rest == FeedCommands([], chunks).rest
        invariant Retuned(vrx.widebandCenterHz, vrx.widebandSampleRateHz, vrx.centerFrequencyHz, FeedCommands(recvBuf, later).items)
               == Retuned(vrx.widebandCenterHz, vrx.widebandSampleRateHz, old(vrx.centerFrequencyHz), FeedCommands([], chunks).items)
        decreases |later|
      {
        FeedStep(TakeCommand, recvBuf, later);
        recvBuf := recvBuf + later[0];
        later := later[1..];
        recvBuf := ParseBuffer(recvBuf, later);
      }
      FeedStep(TakeCommand, recvBuf, later);
      CommandsIndependentOfChunks(chunks);
      carry := recvBuf;
    }

    method ParseBuffer(buf: seq<byte>, ghost later: seq<seq<byte>>) returns (rest: seq<byte>)
      requires vrx.Valid() && Framing(TakeCommand)
      modifies vrx`centerFrequencyHz, vrx.nco
      ensures vrx.Valid() && FeedCommands(rest, later).rest == Pass(TakeCommand, buf, later).rest
      ensures Retuned(vrx.widebandCenterHz, vrx.widebandSampleRateHz, vrx.centerFrequencyHz, FeedCommands(rest, later).items)
           == Retuned(vrx.widebandCenterHz, vrx.widebandSampleRateHz, old(vrx.centerFrequencyHz), Pass(TakeCommand, buf, later).items)
    {
      hide VirtualReceiver.Receiver.Valid, TakeCommand, Feed, Pass, Framing, Retuned;
      var offset := 0;
      while |buf| - offset >= COMMAND_LENGTH
        invariant 0 <= offset <= |buf| && vrx.Valid()
        invariant Pass(TakeCommand, buf[offset..], later).rest == Pass(TakeCommand, buf, later).rest
        invariant Retuned(vrx.widebandCenterHz, vrx.widebandSampleRateHz, vrx.centerFrequencyHz, Pass(TakeCommand, buf[offset..], later).items)
               == Retuned(vrx.widebandCenterHz, vrx.widebandSampleRateHz, old(vrx.centerFrequencyHz), Pass(TakeCommand, buf, later).items)
      {
        var c := ParseCommand(buf, offset);
        PassStep(TakeCommand, buf[offset..], later);
        OneCommand(buf, offset, c);
        RetunedCons(vrx.widebandCenterHz, vrx.widebandSampleRateHz, vrx.centerFrequencyHz, c, Pass(TakeCommand, buf[offset + 5..], later).items);
        HandleCommand(c);
        offset := offset + COMMAND_LENGTH;
      }
      NoCommand(buf[offset..]);
      PassStep(TakeCommand, buf[offset..], later);
      rest := buf[offset..];
    }
  }

  /** parseCommand at an offset with five bytes left. */
  method ParseCommand(buf: seq<byte>, offset: nat) returns (c: Command)
    requires offset + 5 <= |buf|
    ensures c == Command(buf[offset], FromBigEndian(buf[offset + 1..offset + 5]))
  {
    var b1: nat, b2: nat, b3: nat, b4: nat := buf[offset + 1], buf[offset + 2], buf[offset + 3], buf[offset + 4];
    c := Command(buf[offset], b1 * 0x1000000 + b2 * 0x10000 + b3 * 0x100 + b4);
    assert buf[offset + 1..offset + 5] == [b1, b2, b3, b4];
    FourByteValue(b1, b2, b3, b4);
  }

  lemma OneCommand(buf: seq<byte>, offset: nat, c: Command)
    requires offset + 5 <= |buf| && c == Command(buf[offset], FromBigEndian(buf[offset + 1..offset + 5]))
    ensures TakeCommand(buf[offset..]) == Item(c, 5, false) && buf[offset..][5..] == buf[offset + 5..]
  {
    assert buf[offset..][1..5] == buf[offset + 1..offset + 5];
  }

  lemma NoCommand(b: seq<byte>)
    requires |b| < 5
    ensures TakeCommand(b).More?
  {
  }

  /** Where some commands leave the centre frequency. */
  function Retuned(wideband: real, rate: real, center: real, cs: seq<Command>): real {
    VirtualReceiver.TunedAll(wideband, rate, center, Frequencies(cs))
  }

  lemma RetunedOne(wideband: real, rate: real, center: real, c: Command)
    ensures Retuned(wideband, rate, center, [c])
         == if c.cmd == SET_FREQUENCY then VirtualReceiver.Tuned(wideband, rate, center, c.param as real) else center
  {
    hide VirtualReceiver.Tuned;
    assert Frequencies([c]) == (if c.cmd == SET_FREQUENCY then [c.param as real] else []) + Frequencies([]);
    var f := c.param as real;
    assert [f][1..] == [];
    assert VirtualReceiver.TunedAll(wideband, rate, center, [f])
        == VirtualReceiver.TunedAll(wideband, rate, VirtualReceiver.Tuned(wideband, rate, center, f), []);
  }

  lemma RetunedCons(wideband: real, rate: real, center: real, c: Command, cs: seq<Command>)
    ensures Retuned(wideband, rate, center, [c] + cs) == Retuned(wideband, rate, Retuned(wideband, rate, center, [c]), cs)
  {
    hide VirtualReceiver.Tuned;
    RetunedOne(wideband, rate, center, c);
    assert ([c] + cs)[1..] == cs;
    if c.cmd == SET_FREQUENCY {
      var f := c.param as real;
      assert ([f] + Frequencies(cs))[1..] == Frequencies(cs);
    } else {
      assert [] + Frequencies(cs) == Frequencies(cs);
    }
  }
}
