/** The SpyServer object: its client table, the critical regions that change it, and the command loop of one client. */
module SpyServer {
  import opened Bytes
  import opened Incremental
  import opened Descriptors
  import opened SpyProtocol
  import VirtualReceiver

  datatype ClientState = ClientState(handshakeDone: bool, streamingEnabled: bool, streamingMode: nat, sequenceNumber: nat)

  const NEW_CLIENT := ClientState(false, false, 0, 0)

  type Table = map<Fd, ClientState>

  /** Whether a broadcast goes to a client: its handshake is done, streaming is on, and bit 0 of the mode is set. */
  predicate Streams(c: ClientState) {
    c.handshakeDone && c.streamingEnabled && c.streamingMode % 2 == IQ_STREAM
  }

  // ----- What a command does, one critical region at a time -----

  /** One region of a handler that runs under the lock, or one call of retune. */
  datatype Action = Greet | SetMode(mode: nat) | SetEnabled(on: bool) | Reply(kind: nat) | Tune(hz: nat)

  function ActionsOf(c: Request): seq<Action> {
    if c.kind == HELLO then
      if |c.body| < 4 then [] else [Greet, Reply(DEVICE_INFO), Reply(CLIENT_SYNC)]
    else if c.kind == SET_SETTING then
      if |c.body| < 8 then [] else SettingActions(Word(c.body, 0), Word(c.body, 4))
    else if c.kind == PING then [Reply(PONG)]
    else []
  }

  function SettingActions(setting: nat, value: nat): seq<Action> {
    if setting == STREAMING_MODE then [SetMode(value)]
    else if setting == STREAMING_ENABLED then [SetEnabled(value != 0)]
    else if setting == IQ_FREQUENCY then [Tune(value)]
    else []
  }

  function AllActions(cs: seq<Request>): seq<Action> {
    if cs == [] then [] else ActionsOf(cs[0]) + AllActions(cs[1..])
  }

  /** The table after a region that names fd; a client that is gone is left alone. */
  function ActOnTable(t: Table, fd: Fd, a: Action): Table {
    if fd !in t then t
    else match a
      case Greet => t[fd := t[fd].(handshakeDone := true, streamingMode := IQ_STREAM)]
      case SetMode(v) => t[fd := t[fd].(streamingMode := v)]
      case SetEnabled(on) => t[fd := t[fd].(streamingEnabled := on)]
      case Reply(_) => t[fd := Numbered(t[fd])]
      case Tune(_) => t
  }

  function Numbered(c: ClientState): ClientState {
    c.(sequenceNumber := (c.sequenceNumber + 1) % WRAP32)
  }

  function BodyOf(f: Facts, kind: nat, centerHz: real): seq<byte> {
    if kind == DEVICE_INFO then DeviceInfoBody(f)
    else if kind == CLIENT_SYNC then ClientSyncBody(f, centerHz)
    else []
  }

  function ReplyMessage(f: Facts, kind: nat, number: nat, centerHz: real): Message {
    Message(kind, STATUS_STREAM, number, BodyOf(f, kind, centerHz))
  }

  function IqMessage(number: nat, data: seq<byte>): Message {
    Message(UINT8_IQ, IQ_STREAM, number, data)
  }

  /** What the read loops can change: the table, the receiver's centre, and the calls of send made so far. */
  datatype World = World(clients: Table, centerHz: real, sent: seq<SendCall>)

  function Act(f: Facts, w: World, fd: Fd, a: Action): World {
    World(
      ActOnTable(w.clients, fd, a),
      if a.Tune? then VirtualReceiver.Tuned(f.widebandCenterHz, f.widebandSampleRateHz, w.centerHz, a.hz as real) else w.centerHz,
      if a.Reply? && fd in w.clients
      then w.sent + [SendCall(fd, EncodeMessage(ReplyMessage(f, a.kind, w.clients[fd].sequenceNumber, w.centerHz)))]
      else w.sent)
  }

  function ActAll(f: Facts, w: World, fd: Fd, actions: seq<Action>): World
    decreases |actions|
  {
    if actions == [] then w else ActAll(f, Act(f, w, fd, actions[0]), fd, actions[1..])
  }

  lemma {:induction false} ActAllAppend(f: Facts, w: World, fd: Fd, xs: seq<Action>, ys: seq<Action>)
    ensures ActAll(f, w, fd, xs + ys) == ActAll(f, ActAll(f, w, fd, xs), fd, ys)
    decreases |xs|
  {
    hide Act;
    if xs == [] {
      assert xs + ys == ys;
    } else {
      ActAllAppend(f, Act(f, w, fd, xs[0]), fd, xs[1..], ys);
      assert (xs + ys)[1..] == xs[1..] + ys;
    }
  }

  /** Everything one client's commands do when no other thread gets in between. */
  function HandleAll(f: Facts, w: World, fd: Fd, cs: seq<Request>): World {
    ActAll(f, w, fd, AllActions(cs))
  }

  lemma HandleCons(f: Facts, w: World, fd: Fd, c: Request, cs: seq<Request>)
    ensures HandleAll(f, w, fd, [c] + cs) == HandleAll(f, ActAll(f, w, fd, ActionsOf(c)), fd, cs)
  {
    hide ActAll, ActionsOf;
    assert ([c] + cs)[1..] == cs;
    ActAllAppend(f, w, fd, ActionsOf(c), AllActions(cs));
  }

  lemma ActTwo(f: Facts, w: World, fd: Fd, a: Action, b: Action)
    ensures ActAll(f, w, fd, [a]) == Act(f, w, fd, a)
    ensures ActAll(f, w, fd, [a, b]) == Act(f, Act(f, w, fd, a), fd, b)
  {
    hide Act;
    assert [a][1..] == [] && [a, b][1..] == [b] && [b][1..] == [];
    assert ActAll(f, Act(f, w, fd, a), fd, [b]) == ActAll(f, Act(f, Act(f, w, fd, a), fd, b), fd, []);
  }

  /** A well-formed SetSetting command for one of the settings. */
  predicate Sets(c: Request, setting: nat) {
    c.kind == SET_SETTING && |c.body| >= 8 && Word(c.body, 0) == setting
  }

  /** What each command number means on the wire; short and other commands mean nothing. */
  lemma CommandNumbers(c: Request)
    ensures c.kind == 0 && |c.body| >= 4 ==> ActionsOf(c) == [Greet, Reply(0), Reply(1)]
    ensures c.kind == 3 ==> ActionsOf(c) == [Reply(2)]
    ensures c.kind == 2 && |c.body| >= 8 && Word(c.body, 0) == 0 ==> ActionsOf(c) == [SetMode(Word(c.body, 4))]
    ensures c.kind == 2 && |c.body| >= 8 && Word(c.body, 0) == 1 ==> ActionsOf(c) == [SetEnabled(Word(c.body, 4) != 0)]
    ensures c.kind == 2 && |c.body| >= 8 && Word(c.body, 0) == 101 ==> ActionsOf(c) == [Tune(Word(c.body, 4))]
    ensures c.kind == 2 && |c.body| >= 8 && Word(c.body, 0) !in {0, 1, 101} ==> ActionsOf(c) == []
    ensures (c.kind == 0 && |c.body| < 4) || (c.kind == 2 && |c.body| < 8) || c.kind !in {0, 2, 3} ==> ActionsOf(c) == []
  {
    hide Word;
  }

  /** What each message number means: DeviceInfo, ClientSync and Pong are status messages, 8-bit IQ is stream 1. */
  lemma MessageNumbers(f: Facts, number: nat, centerHz: real, data: seq<byte>)
    ensures ReplyMessage(f, 0, number, centerHz) == Message(0, 0, number, DeviceInfoBody(f))
    ensures ReplyMessage(f, 1, number, centerHz) == Message(1, 0, number, ClientSyncBody(f, centerHz))
    ensures ReplyMessage(f, 2, number, centerHz) == Message(2, 0, number, [])
    ensures IqMessage(number, data) == Message(100, 1, number, data)
  {
    hide DeviceInfoBody, ClientSyncBody;
  }

  // ----- Tuning -----

  /** The frequencies some commands ask for: SetSetting with setting 101. */
  function Tunings(cs: seq<Request>): seq<real> {
    if cs == [] then []
    else
      (if cs[0].kind == 2 && |cs[0].body| >= 8 && Word(cs[0].body, 0) == 101 then [Word(cs[0].body, 4) as real] else [])
      + Tunings(cs[1..])
  }

  lemma OneTuning(f: Facts, w: World, fd: Fd, c: Request)
    ensures ActAll(f, w, fd, ActionsOf(c)).centerHz
         == VirtualReceiver.TunedAll(f.widebandCenterHz, f.widebandSampleRateHz, w.centerHz, Tunings([c]))
  {
    hide Word, VirtualReceiver.Tuned, EncodeMessage, DeviceInfoBody, ClientSyncBody;
    CommandNumbers(c);
    assert [c][1..] == [];
    if c.kind == HELLO && |c.body| >= 4 {
      HelloUnfolds(f, w, fd);
    } else if ActionsOf(c) != [] {
      var a := ActionsOf(c)[0];
      ActTwo(f, w, fd, a, a);
      assert ActionsOf(c) == [a];
      if a.Tune? {
        var hz := a.hz as real;
        assert Tunings([c]) == [hz] && [hz][1..] == [];
      }
    }
  }

  lemma TunedCons(wideband: real, rate: real, center: real, xs: seq<real>, ys: seq<real>)
    requires |xs| <= 1
    ensures VirtualReceiver.TunedAll(wideband, rate, center, xs + ys)
         == VirtualReceiver.TunedAll(wideband, rate, VirtualReceiver.TunedAll(wideband, rate, center, xs), ys)
  {
    hide VirtualReceiver.Tuned;
    if xs == [] {
      assert xs + ys == ys;
    } else {
      assert (xs + ys)[1..] == ys && xs[1..] == [];
      var next := VirtualReceiver.Tuned(wideband, rate, center, xs[0]);
      assert VirtualReceiver.TunedAll(wideband, rate, next, []) == next;
    }
  }

  /** The centre after a client's commands is where its tuning requests, one by one, put it. */
  lemma {:induction false} CentreFollowsTunings(f: Facts, w: World, fd: Fd, cs: seq<Request>)
    ensures HandleAll(f, w, fd, cs).centerHz
         == VirtualReceiver.TunedAll(f.widebandCenterHz, f.widebandSampleRateHz, w.centerHz, Tunings(cs))
    decreases |cs|
  {
    hide ActAll, ActionsOf, VirtualReceiver.TunedAll, Word;
    if cs == [] {
      NothingTuned(f, w, fd);
    } else {
      var c, rest := cs[0], cs[1..];
      var next := ActAll(f, w, fd, ActionsOf(c));
      OneTuning(f, w, fd, c);
      CentreFollowsTunings(f, next, fd, rest);
      HandleCons(f, w, fd, c, rest);
      assert [c] + rest == cs && [c][1..] == [];
      TunedCons(f.widebandCenterHz, f.widebandSampleRateHz, w.centerHz, Tunings([c]), Tunings(rest));
      assert Tunings(cs) == Tunings([c]) + Tunings(rest);
    }
  }

  lemma NothingTuned(f: Facts, w: World, fd: Fd)
    ensures HandleAll(f, w, fd, []).centerHz
         == VirtualReceiver.TunedAll(f.widebandCenterHz, f.widebandSampleRateHz, w.centerHz, [])
  {
  }

  // ----- Broadcasts -----

  lemma NoneMeansEmpty<T>(s: set<T>)
    requires forall x :: x !in s
    ensures s == {}
  {
  }

  lemma {:induction false} HasLeast(s: set<Fd>)
    requires |s| != 0
    ensures exists x :: x in s && forall y :: y in s ==> x <= y
    decreases |s|
  {
    if forall x :: x !in s {
      NoneMeansEmpty(s);
    }
    var x :| x in s;
    var rest := s - {x};
    if rest == {} {
      IsLeast(s, x, x);
    } else {
      HasLeast(rest);
      var m :| m in rest && forall y :: y in rest ==> m <= y;
      IsLeast(s, x, if x <= m then x else m);
    }
  }

  lemma IsLeast(s: set<Fd>, x: Fd, least: Fd)
    requires x in s && least in s && least <= x && forall y :: y in s - {x} ==> least <= y
    ensures exists l :: l in s && forall y :: y in s ==> l <= y
  {
    assert least in s;
    forall y | y in s ensures least <= y {
      assert y == x || y in s - {x};
    }
  }

  ghost function Least(s: set<Fd>): (x: Fd)
    requires s != {}
    ensures x in s && forall y :: y in s ==> x <= y
  {
    HasLeast(s);
    var x :| x in s && forall y :: y in s ==> x <= y;
    x
  }

  /** The order in which the table is walked. */
  ghost function Ascending(s: set<Fd>): seq<Fd>
    decreases |s|
  {
    if s == {} then [] else [Least(s)] + Ascending(s - {Least(s)})
  }

  lemma {:induction false} AscendingMembers(s: set<Fd>)
    ensures forall x :: x in Ascending(s) <==> x in s
    ensures forall i, j :: 0 <= i < j < |Ascending(s)| ==> Ascending(s)[i] < Ascending(s)[j]
    decreases |s|
  {
    if s != {} {
      var x := Least(s);
      AscendingMembers(s - {x});
      var rest := Ascending(s - {x});
      forall i, j | 0 <= i < j < |Ascending(s)| ensures Ascending(s)[i] < Ascending(s)[j] {
        assert Ascending(s)[j] == rest[j - 1] && rest[j - 1] in s - {x};
        if i > 0 {
          assert Ascending(s)[i] == rest[i - 1];
        }
      }
    }
  }

  /** The table when a broadcast still has some clients to visit: each streaming client visited has used one number. */
  function Visited(t: Table, todo: set<Fd>): Table {
    map fd | fd in t :: if fd !in todo && Streams(t[fd]) then Numbered(t[fd]) else t[fd]
  }

  lemma NothingVisited(t: Table)
    ensures Visited(t, t.Keys) == t
  {
  }

  function AfterBroadcast(t: Table): Table {
    Visited(t, {})
  }

  lemma Visit(t: Table, todo: set<Fd>, fd: Fd)
    requires fd in todo && fd in t
    ensures fd in Visited(t, todo) && Visited(t, todo)[fd] == t[fd]
    ensures Visited(t, todo - {fd}) == if Streams(t[fd]) then Visited(t, todo)[fd := Numbered(t[fd])] else Visited(t, todo)
  {
    hide Streams, Numbered;
    var before, after := Visited(t, todo), Visited(t, todo - {fd});
    assert before.Keys == t.Keys && after.Keys == t.Keys;
  }

  /** The send that carries a block to a client under that client's next number. */
  function IqCall(t: Table, fd: Fd, data: seq<byte>): (c: SendCall)
    requires fd in t
    ensures c.fd == fd
  {
    SendCall(fd, EncodeMessage(IqMessage(t[fd].sequenceNumber, data)))
  }

  function IqCalls(t: Table, fds: seq<Fd>, data: seq<byte>): seq<SendCall> {
    if fds == [] then []
    else (if fds[0] in t && Streams(t[fds[0]]) then [IqCall(t, fds[0], data)] else []) + IqCalls(t, fds[1..], data)
  }

  /** Every call carries the block to a streaming client, in order; a call for each is there. */
  ghost predicate OneCallEach(t: Table, s: set<Fd>, data: seq<byte>, calls: seq<SendCall>)
    requires s <= t.Keys
  {
    && (forall i :: 0 <= i < |calls| ==> calls[i].fd in s && Streams(t[calls[i].fd]) && calls[i] == IqCall(t, calls[i].fd, data))
    && (forall i, j :: 0 <= i < j < |calls| ==> calls[i].fd < calls[j].fd)
    && (forall fd :: fd in s && Streams(t[fd]) ==> IqCall(t, fd, data) in calls)
  }

  /** Exactly the streaming clients are sent the block, each once, each under its own next number. */
  lemma {:induction false} OneCallPerStreamingClient(t: Table, s: set<Fd>, data: seq<byte>)
    requires s <= t.Keys
    ensures OneCallEach(t, s, data, IqCalls(t, Ascending(s), data))
    decreases |s|
  {
    hide Streams, IqCall, OneCallEach;
    if s == {} {
      NoCalls(t, data);
    } else {
      var x := Least(s);
      OneCallPerStreamingClient(t, s - {x}, data);
      assert ([x] + Ascending(s - {x}))[1..] == Ascending(s - {x});
      OneMoreCall(t, s, x, data, IqCalls(t, Ascending(s - {x}), data));
    }
  }

  lemma NoCalls(t: Table, data: seq<byte>)
    ensures OneCallEach(t, {}, data, [])
  {
  }

  lemma OneMoreCall(t: Table, s: set<Fd>, x: Fd, data: seq<byte>, rest: seq<SendCall>)
    requires s <= t.Keys && x in s && (forall y :: y in s ==> x <= y) && OneCallEach(t, s - {x}, data, rest)
    ensures OneCallEach(t, s, data, (if Streams(t[x]) then [IqCall(t, x, data)] else []) + rest)
  {
    hide Streams, IqCall;
    if Streams(t[x]) {
      StreamingCall(t, s, x, data, rest);
    } else {
      assert [] + rest == rest;
      assert forall fd :: fd in s && Streams(t[fd]) ==> fd in s - {x};
    }
  }

  lemma StreamingCall(t: Table, s: set<Fd>, x: Fd, data: seq<byte>, rest: seq<SendCall>)
    requires s <= t.Keys && x in s && (forall y :: y in s ==> x <= y) && OneCallEach(t, s - {x}, data, rest) && Streams(t[x])
    ensures OneCallEach(t, s, data, [IqCall(t, x, data)] + rest)
  {
    hide Streams, IqCall;
    var calls := [IqCall(t, x, data)] + rest;
    forall i, j | 0 <= i < j < |calls| ensures calls[i].fd < calls[j].fd {
      assert calls[j] == rest[j - 1];
      if i > 0 {
        assert calls[i] == rest[i - 1];
      }
    }
    forall fd | fd in s && Streams(t[fd]) ensures IqCall(t, fd, data) in calls {
      if fd == x {
        assert calls[0] == IqCall(t, x, data);
      } else {
        assert fd in s - {x};
      }
    }
  }

  // ----- The object -----

  class Server {
    const vrx: VirtualReceiver.Receiver
    const facts: Facts
    var clients: Table
    var broadcastScratch: seq<byte>
    /** Every call of send so far. */
    var sent: seq<SendCall>

    ghost predicate Valid()
      reads this, vrx, vrx.nco, vrx.decimator
    {
      vrx.Valid() && facts.widebandCenterHz == vrx.widebandCenterHz && facts.widebandSampleRateHz == vrx.widebandSampleRateHz
    }

    ghost function Now(): World
      reads this, vrx
    {
      World(clients, vrx.centerFrequencyHz, sent)
    }

    constructor (vrx: VirtualReceiver.Receiver, sampleRateHz: real)
      requires vrx.Valid()
      ensures Valid() && this.vrx == vrx && Now() == World(map[], vrx.centerFrequencyHz, [])
    {
      this.vrx := vrx;
      facts := Facts(vrx.widebandCenterHz, vrx.widebandSampleRateHz, sampleRateHz);
      clients, broadcastScratch, sent := map[], [], [];
    }

    /** The accept thread's critical region. */
    method Register(fd: Fd)
      modifies this`clients
      ensures clients == old(clients)[fd := NEW_CLIENT]
    {
      clients := clients[fd := NEW_CLIENT];
    }

    method RemoveClient(fd: Fd)
      modifies this`clients
      ensures clients == old(clients) - {fd}
    {
      clients := clients - {fd};
    }

    /** Numbers a message and sends header and body in one call. */
    method SendMessage(fd: Fd, kind: nat, stream: nat, body: seq<byte>)
      modifies this`clients, this`sent
      ensures clients == ActOnTable(old(clients), fd, Reply(kind))
      ensures sent == old(sent) + if fd in old(clients)
                                  then [SendCall(fd, EncodeMessage(Message(kind, stream, old(clients)[fd].sequenceNumber, body)))]
                                  else []
    {
      if fd !in clients {
        assert sent + [] == sent;
        return;
      }
      var number := clients[fd].sequenceNumber;
      clients := clients[fd := clients[fd].(sequenceNumber := (number + 1) % WRAP32)];
      sent := sent + [SendCall(fd, Header(kind, stream, number, |body|) + body)];
    }

    /** Under one lock: one send to each streaming client, rewriting only the header of a shared buffer in between. */
    method BroadcastIq(data: seq<byte>)
      modifies this`clients, this`sent, this`broadcastScratch
      ensures clients == AfterBroadcast(old(clients))
      ensures sent == old(sent) + IqCalls(old(clients), Ascending(old(clients).Keys), data)
    {
      hide EncodeMessage, Header, IqCalls, Ascending, Streams, IqCall, Visited;
      if clients == map[] {
        NoBroadcast(map[], data);
        assert sent + [] == sent && clients.Keys == {};
        return;
      }
      broadcastScratch := Resize(broadcastScratch, MESSAGE_HEADER + |data|);
      broadcastScratch := broadcastScratch[..MESSAGE_HEADER] + data;
      ghost var calls := IqCalls(clients, Ascending(clients.Keys), data);
      assert [] + calls == calls;
      var todo := clients.Keys;
      NothingVisited(clients);
      while todo != {}
        invariant todo <= old(clients).Keys && clients == Visited(old(clients), todo)
        invariant |broadcastScratch| >= MESSAGE_HEADER && broadcastScratch[MESSAGE_HEADER..] == data
        invariant sent + IqCalls(old(clients), Ascending(todo), data) == old(sent) + calls
        decreases |todo|
      {
        var fd := FirstOf(todo);
        NextInOrder(old(clients), todo, fd, data);
        Visit(old(clients), todo, fd);
        if Streams(clients[fd]) {
          var number := clients[fd].sequenceNumber;
          clients := clients[fd := clients[fd].(sequenceNumber := (number + 1) % WRAP32)];
          broadcastScratch := Header(UINT8_IQ, IQ_STREAM, number, |data|) + broadcastScratch[MESSAGE_HEADER..];
          BufferIsCall(old(clients), fd, data);
          Associative(sent, [SendCall(fd, broadcastScratch)], IqCalls(old(clients), Ascending(todo - {fd}), data));
          sent := sent + [SendCall(fd, broadcastScratch)];
        }
        todo := todo - {fd};
      }
      NoBroadcast(old(clients), data);
    }

    /** Marks the handshake done and defaults the mode to IQ, unless the client is gone. */
    method MarkGreeted(fd: Fd) returns (present: bool)
      modifies this`clients
      ensures present == (fd in old(clients)) && clients == ActOnTable(old(clients), fd, Greet)
    {
      present := fd in clients;
      if present {
        clients := clients[fd := clients[fd].(handshakeDone := true, streamingMode := IQ_STREAM)];
      }
    }

    method SetStreamingMode(fd: Fd, mode: nat)
      modifies this`clients
      ensures clients == ActOnTable(old(clients), fd, SetMode(mode))
    {
      if fd in clients {
        clients := clients[fd := clients[fd].(streamingMode := mode)];
      }
    }

    method SetStreamingEnabled(fd: Fd, on: bool)
      modifies this`clients
      ensures clients == ActOnTable(old(clients), fd, SetEnabled(on))
    {
      if fd in clients {
        clients := clients[fd := clients[fd].(streamingEnabled := on)];
      }
    }

    /** Hello: mark the handshake, then the two replies, each under its own lock. */
    method HandleHello(fd: Fd, body: seq<byte>)
      requires Valid()
      modifies this`clients, this`sent
      ensures Valid()
      ensures Now() == ActAll(facts, old(Now()), fd, if |body| < 4 then [] else [Greet, Reply(DEVICE_INFO), Reply(CLIENT_SYNC)])
    {
      hide EncodeMessage, DeviceInfoBody, ClientSyncBody;
      if |body| < 4 {
        return;
      }
      HelloUnfolds(facts, Now(), fd);
      var present := MarkGreeted(fd);
      if !present {
        return;
      }
      SendMessage(fd, DEVICE_INFO, STATUS_STREAM, DeviceInfoBody(facts));
      SendMessage(fd, CLIENT_SYNC, STATUS_STREAM, ClientSyncBody(facts, vrx.centerFrequencyHz));
    }

    method HandleSetSetting(fd: Fd, body: seq<byte>)
      requires Valid()
      modifies this`clients, vrx`centerFrequencyHz, vrx.nco
      ensures Valid()
      ensures Now() == ActAll(facts, old(Now()), fd, if |body| < 8 then [] else SettingActions(Word(body, 0), Word(body, 4)))
      ensures vrx.centerFrequencyHz
        == if |body| >= 8 && Word(body, 0) == 101
           then VirtualReceiver.Tuned(vrx.widebandCenterHz, vrx.widebandSampleRateHz, old(vrx.centerFrequencyHz), Word(body, 4) as real)
           else old(vrx.centerFrequencyHz)
    {
      hide Word, VirtualReceiver.Tuned;
      if |body| < 8 {
        return;
      }
      var setting, value := Word(body, 0), Word(body, 4);
      if setting == STREAMING_MODE {
        ActTwo(facts, Now(), fd, SetMode(value), Greet);
        SetStreamingMode(fd, value);
      } else if setting == STREAMING_ENABLED {
        ActTwo(facts, Now(), fd, SetEnabled(value != 0), Greet);
        SetStreamingEnabled(fd, value != 0);
      } else if setting == IQ_FREQUENCY {
        ActTwo(facts, Now(), fd, Tune(value), Greet);
        var _ := vrx.RetuneTo(value as real);
      }
    }

    method HandleCommand(fd: Fd, c: Request)
      requires Valid()
      modifies this`clients, this`sent, vrx`centerFrequencyHz, vrx.nco
      ensures Valid() && Now() == ActAll(facts, old(Now()), fd, ActionsOf(c))
    {
      hide ActAll, Word, EncodeMessage;
      if c.kind == HELLO {
        HandleHello(fd, c.body);
      } else if c.kind == SET_SETTING {
        HandleSetSetting(fd, c.body);
      } else if c.kind == PING {
        ActTwo(facts, Now(), fd, Reply(PONG), Greet);
        SendMessage(fd, PONG, STATUS_STREAM, []);
      } else {
        NoActions(facts, Now(), fd);
      }
    }

    /** The receive loop of one client, from its first read to its removal from the table. */
    method ClientReadLoop(fd: Fd, chunks: seq<seq<byte>>) returns (protocolError: bool)
      requires Valid()
      modifies this`clients, this`sent, vrx`centerFrequencyHz, vrx.nco
      ensures Valid() && protocolError == FeedCommands([], chunks).done
      ensures var w := HandleAll(facts, old(Now()), fd, FeedCommands([], chunks).items);
              Now() == w.(clients := w.clients - {fd})
      ensures vrx.centerFrequencyHz
           == VirtualReceiver.TunedAll(vrx.widebandCenterHz, vrx.widebandSampleRateHz, old(vrx.centerFrequencyHz),
                                       Tunings(FeedCommands([], chunks).items))
    {
      CentreFollowsTunings(facts, Now(), fd, FeedCommands([], chunks).items);
      hide HandleAll, TakeCommand, Feed, Pass, Framing, VirtualReceiver.Receiver.Valid, VirtualReceiver.TunedAll, Tunings;
      CommandsAreFraming();
      ghost var goal := HandleAll(facts, Now(), fd, FeedCommands([], chunks).items);
      var recvBuf: seq<byte> := [];
      var later := chunks;
      protocolError := false;
      while !protocolError && later != [] && later[0] != []
        invariant Valid()
        invariant FeedCommands([], chunks).done == (protocolError || FeedCommands(recvBuf, later).done)
        invariant HandleAll(facts, Now(), fd, if protocolError then [] else FeedCommands(recvBuf, later).items) == goal
        decreases |later|
      {
        FeedStep(TakeCommand, recvBuf, later);
        recvBuf := recvBuf + later[0];
        later := later[1..];
        recvBuf, protocolError := ParseBuffer(fd, recvBuf, later);
      }
      FeedStep(TakeCommand, recvBuf, later);
      NothingHandled(facts, Now(), fd);
      RemoveClient(fd);
    }

    method ParseBuffer(fd: Fd, buf: seq<byte>, ghost later: seq<seq<byte>>) returns (rest: seq<byte>, protocolError: bool)
      requires Valid() && Framing(TakeCommand)
      modifies this`clients, this`sent, vrx`centerFrequencyHz, vrx.nco
      ensures Valid()
      ensures Pass(TakeCommand, buf, later).done == (protocolError || FeedCommands(rest, later).done)
      ensures HandleAll(facts, Now(), fd, if protocolError then [] else FeedCommands(rest, later).items)
           == HandleAll(facts, old(Now()), fd, Pass(TakeCommand, buf, later).items)
    {
      hide HandleAll, Feed, Pass, Framing, VirtualReceiver.Receiver.Valid, Word, FromLittleEndian, ActAll;
      var offset := 0;
      protocolError := false;
      while |buf| - offset >= COMMAND_HEADER
        invariant 0 <= offset <= |buf| && Valid()
        invariant Pass(TakeCommand, buf[offset..], later).done == Pass(TakeCommand, buf, later).done
        invariant HandleAll(facts, Now(), fd, Pass(TakeCommand, buf[offset..], later).items)
               == HandleAll(facts, old(Now()), fd, Pass(TakeCommand, buf, later).items)
      {
        ghost var front := buf[offset..];
        PassStep(TakeCommand, front, later);
        var size := Word(buf[offset..], 4);
        if size > MAX_BODY {
          return buf[offset..], true;
        }
        if |buf| - offset < COMMAND_HEADER + size {
          break;
        }
        var c: Request := Command(Word(buf[offset..], 0), buf[offset + COMMAND_HEADER..offset + COMMAND_HEADER + size]);
        assert front[COMMAND_HEADER..COMMAND_HEADER + size] == buf[offset + COMMAND_HEADER..offset + COMMAND_HEADER + size];
        FrontIsCommand(front, c);
        HandleCons(facts, Now(), fd, c, Pass(TakeCommand, front[COMMAND_HEADER + size..], later).items);
        HandleCommand(fd, c);
        offset := offset + COMMAND_HEADER + size;
        assert buf[offset..] == front[COMMAND_HEADER + size..];
      }
      PassStep(TakeCommand, buf[offset..], later);
      rest := buf[offset..];
    }
  }

  /** Where an ordered map's iteration goes next. */
  method FirstOf(todo: set<Fd>) returns (fd: Fd)
    requires todo != {}
    ensures fd in todo && forall g :: g in todo ==> fd <= g
  {
    HasLeast(todo);
    fd :| fd in todo && forall g :: g in todo ==> fd <= g;
  }

  /** std::vector::resize: the front is kept and any new bytes are zero. */
  function Resize(s: seq<byte>, n: nat): (r: seq<byte>)
    ensures |r| == n
  {
    if |s| >= n then s[..n] else s + seq(n - |s|, _ => 0)
  }

  lemma BufferIsCall(t: Table, fd: Fd, data: seq<byte>)
    requires fd in t
    ensures IqCall(t, fd, data) == SendCall(fd, Header(UINT8_IQ, IQ_STREAM, t[fd].sequenceNumber, |data|) + data)
  {
  }

  lemma NoBroadcast(t: Table, data: seq<byte>)
    ensures IqCalls(t, Ascending({}), data) == [] && Visited(map[], {}) == map[]
  {
  }

  lemma FrontIsCommand(b: seq<byte>, c: Request)
    requires |b| >= COMMAND_HEADER && Word(b, 4) <= MAX_BODY && |b| >= COMMAND_HEADER + Word(b, 4)
    requires c == Command(Word(b, 0), b[COMMAND_HEADER..COMMAND_HEADER + Word(b, 4)])
    ensures TakeCommand(b) == Item(c, COMMAND_HEADER + Word(b, 4), false)
  {
  }

  lemma NextInOrder(t: Table, todo: set<Fd>, fd: Fd, data: seq<byte>)
    requires fd in todo && todo <= t.Keys && forall g :: g in todo ==> fd <= g
    ensures IqCalls(t, Ascending(todo), data)
         == (if Streams(t[fd]) then [IqCall(t, fd, data)] else [])
            + IqCalls(t, Ascending(todo - {fd}), data)
  {
    hide Streams, IqCall;
    assert Least(todo) == fd;
    assert ([fd] + Ascending(todo - {fd}))[1..] == Ascending(todo - {fd});
  }

  lemma HelloUnfolds(f: Facts, w: World, fd: Fd)
    ensures ActAll(f, w, fd, [Greet, Reply(DEVICE_INFO), Reply(CLIENT_SYNC)])
         == Act(f, Act(f, Act(f, w, fd, Greet), fd, Reply(DEVICE_INFO)), fd, Reply(CLIENT_SYNC))
    ensures fd !in w.clients ==> ActAll(f, w, fd, [Greet, Reply(DEVICE_INFO), Reply(CLIENT_SYNC)]) == w
  {
    hide EncodeMessage;
    var hello := [Greet, Reply(DEVICE_INFO), Reply(CLIENT_SYNC)];
    assert hello[1..] == [Reply(DEVICE_INFO), Reply(CLIENT_SYNC)];
    ActTwo(f, Act(f, w, fd, Greet), fd, Reply(DEVICE_INFO), Reply(CLIENT_SYNC));
  }

  lemma NoActions(f: Facts, w: World, fd: Fd)
    ensures ActAll(f, w, fd, []) == w
  {
  }

  lemma NothingHandled(f: Facts, w: World, fd: Fd)
    ensures HandleAll(f, w, fd, []) == w
  {
  }
}
