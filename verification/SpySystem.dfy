/**
 Every interleaving of the SpyServer's threads: the accept thread, one read thread per client, and the streaming
 thread. Each mutex-held region and each system call that touches a descriptor is one step, so a command's handler
 is several steps, with broadcasts and other clients' commands in between.
 */
module SpySystem {
  import opened Bytes
  import opened Descriptors
  import opened SpyProtocol
  import opened SpyServer
  import opened SpyHistory

  /** One send of a whole message, and how many of its bytes the socket took. */
  datatype Attempt = Attempt(message: Message, taken: nat)

  /**
   A connection's side of things: every byte received and those not yet parsed, the commands taken up, their actions
   done and still to do, and the messages sent to it.
   */
  datatype Peer = Peer(
    received: seq<byte>, buf: seq<byte>, cmds: seq<Request>, acts: seq<Action>, pending: seq<Action>, sent: seq<Attempt>)

  const NEW_PEER := Peer([], [], [], [], [], [])

  /** The handler of the latest command has finished, and the buffer holds no complete command: recv, or the end, is next. */
  predicate Settled(p: Peer) {
    p.pending == [] && !TakeCommand(p.buf).Item?
  }

  /** `stray` records a write that reached a closed descriptor or one that is not a client's. */
  datatype State = State(facts: Facts, k: Kernel, table: Table, peers: seq<Peer>, stray: bool)

  datatype Step =
    | Accept(fd: Fd)
    | Register(c: ConnId)
    | Spawn(c: ConnId)
    | Receive(c: ConnId, bytes: seq<byte>)
    | Begin(c: ConnId)
    | Perform(c: ConnId, centerHz: real, taken: nat)
    | Broadcast(data: seq<byte>, takes: map<Fd, nat>)
    | Remove(c: ConnId)
    | Close(c: ConnId)
    | OpenElsewhere(fd: Fd)
    | CloseElsewhere(fd: Fd)

  predicate AtStage(s: State, c: ConnId, stage: Stage) {
    c < |s.k.conns| && c < |s.peers| && s.k.conns[c].stage == stage
  }

  /**
   When a step can happen. accept returns a descriptor that is not open. A read loop calls recv when it has handled
   every complete command, and takes up the next one when the one before is finished; it ends at an oversized header,
   or when recv has nothing more. The centre frequency a reply quotes is whatever an unlocked read returned.
   */
  predicate CanHappen(s: State, step: Step) {
    match step
    case Accept(fd) => fd !in s.k.open
    case Register(c) => AtStage(s, c, Accepted)
    case Spawn(c) => AtStage(s, c, Listed)
    case Receive(c, bytes) => AtStage(s, c, Serving) && s.peers[c].pending == [] && TakeCommand(s.peers[c].buf).More? && bytes != []
    case Begin(c) => AtStage(s, c, Serving) && s.peers[c].pending == [] && TakeCommand(s.peers[c].buf).Item?
    case Perform(c, _, _) => AtStage(s, c, Serving) && s.peers[c].pending != []
    case Broadcast(_, _) => true
    case Remove(c) => AtStage(s, c, Serving) && Settled(s.peers[c])
    case Close(c) => AtStage(s, c, Unlisted)
    case OpenElsewhere(fd) => fd !in s.k.open
    case CloseElsewhere(fd) => fd in s.k.open && s.k.open[fd] == Foreign
  }

  /** A write goes wherever the kernel says the descriptor leads. */
  function Write(s: State, fd: Fd, a: Attempt): (t: State)
    ensures |t.peers| == |s.peers|
  {
    if OpenToConn(s.k, fd) && s.k.open[fd].id < |s.peers| then
      var id := s.k.open[fd].id;
      s.(peers := s.peers[id := s.peers[id].(sent := s.peers[id].sent + [a])])
    else s.(stray := true)
  }

  function IqAttempt(e: ClientState, data: seq<byte>, takes: map<Fd, nat>, fd: Fd): Attempt {
    Attempt(IqMessage(e.sequenceNumber, data), if fd in takes then takes[fd] else 0)
  }

  function WriteAll(s: State, fds: seq<Fd>, data: seq<byte>, takes: map<Fd, nat>): State
    decreases |fds|
  {
    if fds == [] then s
    else if fds[0] in s.table && Streams(s.table[fds[0]]) then
      WriteAll(Write(s, fds[0], IqAttempt(s.table[fds[0]], data, takes, fds[0])), fds[1..], data, takes)
    else WriteAll(s, fds[1..], data, takes)
  }

  function ReplyAttempt(s: State, c: ConnId, kind: nat, centerHz: real, taken: nat): Attempt
    requires c < |s.k.conns| && s.k.conns[c].fd in s.table
  {
    Attempt(ReplyMessage(s.facts, kind, s.table[s.k.conns[c].fd].sequenceNumber, centerHz), taken)
  }

  /** One region of a handler: a reply is numbered and written, a setting changes the client's entry. */
  function PerformNext(s: State, c: ConnId, centerHz: real, taken: nat): State
    requires AtStage(s, c, Serving) && s.peers[c].pending != []
  {
    var fd, a := s.k.conns[c].fd, s.peers[c].pending[0];
    var t := if a.Reply? && fd in s.table then Write(s, fd, ReplyAttempt(s, c, a.kind, centerHz, taken)) else s;
    var p := t.peers[c];
    t.(table := ActOnTable(s.table, fd, a), peers := t.peers[c := p.(acts := p.acts + [a], pending := s.peers[c].pending[1..])])
  }

  /** The next command comes off the buffer. */
  function TakeUp(p: Peer): Peer
    requires TakeCommand(p.buf).Item?
  {
    var t := TakeCommand(p.buf);
    p.(cmds := p.cmds + [t.item], pending := ActionsOf(t.item), buf := p.buf[t.used..])
  }

  ghost function Apply(s: State, step: Step): State {
    if !CanHappen(s, step) then s
    else match step
      case Accept(fd) => s.(k := Enter(s.k, fd), peers := s.peers + [NEW_PEER])
      case Register(c) => s.(k := SetStage(s.k, c, Listed), table := s.table[s.k.conns[c].fd := NEW_CLIENT])
      case Spawn(c) => s.(k := SetStage(s.k, c, Serving))
      case Receive(c, bytes) =>
        s.(peers := s.peers[c := s.peers[c].(received := s.peers[c].received + bytes, buf := s.peers[c].buf + bytes)])
      case Begin(c) => s.(peers := s.peers[c := TakeUp(s.peers[c])])
      case Perform(c, centerHz, taken) => PerformNext(s, c, centerHz, taken)
      case Broadcast(data, takes) =>
        WriteAll(s, Ascending(s.table.Keys), data, takes).(table := AfterBroadcast(s.table))
      case Remove(c) => s.(k := SetStage(s.k, c, Unlisted), table := s.table - {s.k.conns[c].fd})
      case Close(c) => s.(k := Shut(s.k, c))
      case OpenElsewhere(fd) => s.(k := s.k.(open := s.k.open[fd := Foreign]))
      case CloseElsewhere(fd) => s.(k := s.k.(open := s.k.open - {fd}))
  }

  /** The state after any sequence of steps; a step that cannot happen changes nothing. */
  ghost function Run(s: State, steps: seq<Step>): State
    decreases |steps|
  {
    if steps == [] then s else Run(Apply(s, steps[0]), steps[1..])
  }

  function Initial(facts: Facts, k: Kernel): State {
    State(facts, k, map[], [], false)
  }

  // ----- The invariant -----

  function Kinds(sent: seq<Attempt>): seq<nat> {
    seq(|sent|, i requires 0 <= i < |sent| => sent[i].message.kind)
  }

  lemma KindsAppend(sent: seq<Attempt>, a: Attempt)
    ensures Kinds(sent + [a]) == Kinds(sent) + [a.message.kind]
  {
  }

  /** A message as the server builds it, carrying the number of its place among all sends to the connection. */
  ghost predicate Genuine(f: Facts, m: Message, place: nat) {
    && m.number == place % WRAP32
    && (if m.kind == UINT8_IQ then m == IqMessage(m.number, m.body)
        else m.kind in {DEVICE_INFO, CLIENT_SYNC, PONG} && exists hz: real :: m == ReplyMessage(f, m.kind, m.number, hz))
  }

  /** Every reply the actions so far called for was sent, in order, and the opening replies ahead of any IQ. */
  predicate Ordered(cmds: seq<Request>, acts: seq<Action>, pending: seq<Action>, kinds: seq<nat>) {
    && acts + pending == AllActions(cmds)
    && Replies(kinds) == SendsOf(acts)
    && (UINT8_IQ in kinds ==> HasHello(cmds))
    && (UINT8_IQ in kinds && !EnabledFirst(cmds) ==> Opening(cmds) <= BeforeIq(kinds))
  }

  /** And what was taken up, with what is buffered, is what was received. */
  ghost predicate Sound(f: Facts, p: Peer) {
    && EncodeCommands(p.cmds) + p.buf == p.received
    && (forall i :: 0 <= i < |p.sent| ==> Genuine(f, p.sent[i].message, i))
    && Ordered(p.cmds, p.acts, p.pending, Kinds(p.sent))
  }

  /** The table's entry for a connection is what its own history says, and nobody else's. */
  predicate Reflects(e: ClientState, p: Peer) {
    e == ClientState(Seen(false, p.acts), LatestOn(false, p.acts), LatestMode(0, p.acts), |p.sent| % WRAP32)
  }

  ghost predicate Inv(s: State) {
    && Owned(s.k)
    && |s.peers| == |s.k.conns|
    && !s.stray
    && (forall fd :: fd in s.table <==> BelongsInTable(s.k, fd))
    && (forall fd :: fd in s.table ==> s.k.open[fd].id < |s.peers| && Reflects(s.table[fd], s.peers[s.k.open[fd].id]))
    && (forall c: ConnId :: c < |s.peers| ==> Sound(s.facts, s.peers[c]))
    && (forall c: ConnId :: AtStage(s, c, Accepted) ==> s.peers[c] == NEW_PEER)
    && (forall c: ConnId :: AtStage(s, c, Unlisted) || AtStage(s, c, Closed) ==> Settled(s.peers[c]))
  }

  lemma InitialInv(facts: Facts, k: Kernel)
    requires Fresh(k)
    ensures Inv(Initial(facts, k))
  {
  }

  lemma NewPeerIsSound(f: Facts)
    ensures Sound(f, NEW_PEER) && Reflects(NEW_CLIENT, NEW_PEER)
  {
  }

  // ----- One connection's history, step by step -----

  lemma SentOneMore(f: Facts, sent: seq<Attempt>, a: Attempt)
    requires forall i :: 0 <= i < |sent| ==> Genuine(f, sent[i].message, i)
    requires Genuine(f, a.message, |sent|)
    ensures forall i :: 0 <= i < |sent + [a]| ==> Genuine(f, (sent + [a])[i].message, i)
  {
  }

  lemma CommandTaken(cmds: seq<Request>, acts: seq<Action>, kinds: seq<nat>, cmd: Request)
    requires Ordered(cmds, acts, [], kinds)
    ensures Ordered(cmds + [cmd], acts, ActionsOf(cmd), kinds)
  {
    hide ActionsOf;
    OneMore(cmds, cmd);
    LaterCommand(cmds, cmd);
    assert acts + [] == acts;
    assert Opening(cmds) + [] == Opening(cmds);
  }

  lemma ActionDone(cmds: seq<Request>, acts: seq<Action>, pending: seq<Action>, kinds: seq<nat>)
    requires pending != [] && Ordered(cmds, acts, pending, kinds)
    ensures Ordered(cmds, acts + [pending[0]], pending[1..], if pending[0].Reply? then kinds + [pending[0].kind] else kinds)
    ensures pending[0].Reply? ==> pending[0].kind in {DEVICE_INFO, CLIENT_SYNC, PONG}
  {
    var a := pending[0];
    assert acts + pending == (acts + [a]) + pending[1..];
    assert (acts + [a])[..|acts|] == acts;
    assert a in acts + pending;
    RepliesAreNotIq(cmds);
    if a.Reply? {
      LaterMessage(kinds, a.kind);
    }
  }

  lemma SettingDone(f: Facts, p: Peer, e: ClientState, t: Table, fd: Fd)
    requires Sound(f, p) && Reflects(e, p) && p.pending != [] && !p.pending[0].Reply? && fd in t && t[fd] == e
    ensures var q := p.(acts := p.acts + [p.pending[0]], pending := p.pending[1..]);
            Sound(f, q) && Reflects(ActOnTable(t, fd, p.pending[0])[fd], q)
  {
    hide Genuine, Ordered;
    ActionDone(p.cmds, p.acts, p.pending, Kinds(p.sent));
    Latest(false, 0, p.acts, p.pending[0]);
  }

  lemma ReplySent(f: Facts, p: Peer, e: ClientState, centerHz: real, taken: nat)
    requires Sound(f, p) && Reflects(e, p) && p.pending != [] && p.pending[0].Reply?
    ensures var a := Attempt(ReplyMessage(f, p.pending[0].kind, e.sequenceNumber, centerHz), taken);
            var q := p.(acts := p.acts + [p.pending[0]], pending := p.pending[1..], sent := p.sent + [a]);
            Sound(f, q) && Reflects(Numbered(e), q)
  {
    hide Genuine, Ordered, BodyOf;
    var k := p.pending[0].kind;
    var a := Attempt(ReplyMessage(f, k, e.sequenceNumber, centerHz), taken);
    ActionDone(p.cmds, p.acts, p.pending, Kinds(p.sent));
    ReplyIsGenuine(f, k, e.sequenceNumber, centerHz, |p.sent|);
    SentOneMore(f, p.sent, a);
    Latest(false, 0, p.acts, p.pending[0]);
    KindsAppend(p.sent, a);
  }

  lemma ReplyIsGenuine(f: Facts, kind: nat, number: nat, centerHz: real, place: nat)
    requires kind in {DEVICE_INFO, CLIENT_SYNC, PONG} && number == place % WRAP32
    ensures Genuine(f, ReplyMessage(f, kind, number, centerHz), place)
  {
    hide BodyOf;
    var m := ReplyMessage(f, kind, number, centerHz);
    assert m == ReplyMessage(f, m.kind, m.number, centerHz);
  }

  lemma IqIsGenuine(f: Facts, number: nat, data: seq<byte>, place: nat)
    requires number == place % WRAP32
    ensures Genuine(f, IqMessage(number, data), place)
  {
  }

  lemma IqSent(f: Facts, p: Peer, e: ClientState, data: seq<byte>, takes: map<Fd, nat>, fd: Fd)
    requires Sound(f, p) && Reflects(e, p) && Streams(e)
    ensures var q := p.(sent := p.sent + [IqAttempt(e, data, takes, fd)]);
            Sound(f, q) && Reflects(Numbered(e), q)
  {
    hide Genuine, Ordered, Seen, LatestOn, LatestMode;
    var a := IqAttempt(e, data, takes, fd);
    IqIsGenuine(f, e.sequenceNumber, data, |p.sent|);
    SentOneMore(f, p.sent, a);
    KindsAppend(p.sent, a);
    IqOrdered(p.cmds, p.acts, p.pending, Kinds(p.sent));
  }

  lemma IqOrdered(cmds: seq<Request>, acts: seq<Action>, pending: seq<Action>, kinds: seq<nat>)
    requires Ordered(cmds, acts, pending, kinds) && Open(acts)
    ensures Ordered(cmds, acts, pending, kinds + [UINT8_IQ])
  {
    hide Open;
    LaterMessage(kinds, UINT8_IQ);
    assert Replies(kinds) + [] == Replies(kinds);
    if UINT8_IQ !in kinds {
      assert acts <= AllActions(cmds);
      OpenMeansReplied(cmds, acts);
      AllReplies(kinds);
      FirstIq(kinds);
    }
  }

  lemma FirstIq(kinds: seq<nat>)
    requires UINT8_IQ !in kinds
    ensures BeforeIq(kinds + [UINT8_IQ]) == kinds
  {
    assert (kinds + [UINT8_IQ])[|kinds|] == UINT8_IQ;
  }

  // ----- Every step keeps the invariant -----

  /** Whether a broadcast reaches a connection. */
  predicate Receives(s: State, c: ConnId) {
    && c < |s.k.conns| && s.k.conns[c].stage in {Listed, Serving}
    && s.k.conns[c].fd in s.table && Streams(s.table[s.k.conns[c].fd])
  }

  function Received(s: State, c: ConnId, data: seq<byte>, takes: map<Fd, nat>): Peer
    requires c < |s.peers| && Receives(s, c)
  {
    var fd := s.k.conns[c].fd;
    s.peers[c].(sent := s.peers[c].sent + [IqAttempt(s.table[fd], data, takes, fd)])
  }

  /** The broadcast went once to each receiving connection whose descriptor is listed, and nowhere else. */
  ghost predicate Delivered(s: State, t: State, fds: seq<Fd>, data: seq<byte>, takes: map<Fd, nat>) {
    && t == s.(peers := t.peers) && |t.peers| == |s.peers| == |s.k.conns|
    && forall c: ConnId :: c < |s.peers| ==>
      t.peers[c] == if Receives(s, c) && s.k.conns[c].fd in fds then Received(s, c, data, takes) else s.peers[c]
  }

  ghost predicate Increasing(fds: seq<Fd>) {
    forall i, j :: 0 <= i < j < |fds| ==> fds[i] < fds[j]
  }

  lemma {:induction false} WriteAllDelivers(s: State, fds: seq<Fd>, data: seq<byte>, takes: map<Fd, nat>)
    requires Owned(s.k) && |s.peers| == |s.k.conns| && Increasing(fds)
    requires forall fd :: fd in fds ==> BelongsInTable(s.k, fd)
    ensures Delivered(s, WriteAll(s, fds, data, takes), fds, data, takes)
    decreases |fds|
  {
    hide Streams, IqAttempt;
    if fds != [] {
      var fd, rest := fds[0], fds[1..];
      assert BelongsInTable(s.k, fd);
      assert forall g :: g in rest ==> g in fds;
      var sends := fd in s.table && Streams(s.table[fd]);
      var t := if sends then Write(s, fd, IqAttempt(s.table[fd], data, takes, fd)) else s;
      WriteAllDelivers(t, rest, data, takes);
      FirstDelivered(s, t, WriteAll(t, rest, data, takes), fds, data, takes);
    }
  }

  lemma FirstDelivered(s: State, t: State, u: State, fds: seq<Fd>, data: seq<byte>, takes: map<Fd, nat>)
    requires Owned(s.k) && |s.peers| == |s.k.conns| && Increasing(fds) && fds != [] && BelongsInTable(s.k, fds[0])
    requires t == if fds[0] in s.table && Streams(s.table[fds[0]])
                  then Write(s, fds[0], IqAttempt(s.table[fds[0]], data, takes, fds[0])) else s
    requires Delivered(t, u, fds[1..], data, takes)
    ensures Delivered(s, u, fds, data, takes)
  {
    hide Streams, IqAttempt;
    var fd, rest := fds[0], fds[1..];
    assert fd !in rest;
    var id := s.k.open[fd].id;
    forall c: ConnId | c < |s.peers|
      ensures u.peers[c] == if Receives(s, c) && s.k.conns[c].fd in fds then Received(s, c, data, takes) else s.peers[c]
    {
      assert Live(s.k, id);
      if c != id {
        assert Receives(s, c) ==> Live(s.k, c);
        assert t.peers[c] == s.peers[c];
        assert Receives(s, c) ==> s.k.conns[c].fd != fd;
      }
    }
  }

  lemma BroadcastDelivers(s: State, data: seq<byte>, takes: map<Fd, nat>)
    requires Inv(s)
    ensures Delivered(s, Apply(s, Broadcast(data, takes)).(table := s.table), Ascending(s.table.Keys), data, takes)
    ensures forall fd :: fd in Ascending(s.table.Keys) <==> fd in s.table
  {
    AscendingMembers(s.table.Keys);
    assert Apply(s, Broadcast(data, takes)).(table := s.table) == WriteAll(s, Ascending(s.table.Keys), data, takes).(table := s.table);
    hide Sound, Reflects, Streams, Apply, Ascending, WriteAll;
    WriteAllDelivers(s, Ascending(s.table.Keys), data, takes);
  }

  lemma BroadcastKeepsInv(s: State, data: seq<byte>, takes: map<Fd, nat>)
    requires Inv(s)
    ensures Inv(Apply(s, Broadcast(data, takes)))
  {
    var t := Apply(s, Broadcast(data, takes));
    assert t == s.(table := t.table, peers := t.peers) && |t.peers| == |s.peers| by {
      BroadcastDelivers(s, data, takes);
      hide Apply;
    }
    AfterBroadcastIs(s, data, takes);
    hide Sound, Reflects, Apply;
    forall c: ConnId | c < |s.peers| ensures Sound(t.facts, t.peers[c]) {
      AfterBroadcastFor(s, c, data, takes);
    }
    forall fd | fd in t.table ensures Reflects(t.table[fd], t.peers[t.k.open[fd].id]) {
      var c := s.k.open[fd].id;
      assert BelongsInTable(s.k, fd);
      assert Live(s.k, c) && s.k.conns[c].fd == fd;
      AfterBroadcastFor(s, c, data, takes);
    }
    forall c: ConnId | c < |s.peers|
      ensures AtStage(t, c, Accepted) ==> t.peers[c] == NEW_PEER
      ensures AtStage(t, c, Unlisted) || AtStage(t, c, Closed) ==> Settled(t.peers[c])
    {
      assert forall stage :: AtStage(t, c, stage) ==> AtStage(s, c, stage);
      AfterBroadcastFor(s, c, data, takes);
    }
  }

  /** What a broadcast does to one connection's history and entry. */
  lemma AfterBroadcastFor(s: State, c: ConnId, data: seq<byte>, takes: map<Fd, nat>)
    requires Inv(s) && c < |s.peers|
    ensures var t := Apply(s, Broadcast(data, takes));
            && |t.peers| == |s.peers| && Sound(s.facts, t.peers[c])
            && t.peers[c] == (if Receives(s, c) then Received(s, c, data, takes) else s.peers[c])
            && (s.k.conns[c].stage in {Listed, Serving} ==>
                  s.k.conns[c].fd in t.table && Reflects(t.table[s.k.conns[c].fd], t.peers[c]))
  {
    BroadcastDelivers(s, data, takes);
    AfterBroadcastIs(s, data, takes);
    hide Reflects, Streams, Numbered, Apply, Ascending, BelongsInTable, Owned, Sound, IqAttempt;
    if s.k.conns[c].stage in {Listed, Serving} {
      EntryReflects(s, c);
      if Receives(s, c) {
        IqSent(s.facts, s.peers[c], s.table[s.k.conns[c].fd], data, takes, s.k.conns[c].fd);
      }
    }
  }

  lemma AfterBroadcastIs(s: State, data: seq<byte>, takes: map<Fd, nat>)
    ensures Apply(s, Broadcast(data, takes)).table.Keys == s.table.Keys
    ensures forall fd :: fd in s.table ==>
      Apply(s, Broadcast(data, takes)).table[fd] == if Streams(s.table[fd]) then Numbered(s.table[fd]) else s.table[fd]
  {
    hide Streams, Numbered;
  }

  lemma EntryReflects(s: State, c: ConnId)
    requires Inv(s) && c < |s.k.conns| && s.k.conns[c].stage in {Listed, Serving}
    ensures s.k.conns[c].fd in s.table && s.k.conns[c].fd in s.k.open && s.k.open[s.k.conns[c].fd] == Mine(c)
    ensures Reflects(s.table[s.k.conns[c].fd], s.peers[c])
  {
    hide Sound, Reflects;
    assert Live(s.k, c);
    assert BelongsInTable(s.k, s.k.conns[c].fd);
  }

  lemma PerformKeepsInv(s: State, c: ConnId, centerHz: real, taken: nat)
    requires Inv(s) && CanHappen(s, Perform(c, centerHz, taken))
    ensures Inv(Apply(s, Perform(c, centerHz, taken)))
  {
    EntryReflects(s, c);
    assert Sound(s.facts, s.peers[c]);
    hide Sound, Reflects, Apply, OnlyTouches;
    if s.peers[c].pending[0].Reply? {
      ReplyStep(s, c, centerHz, taken);
    } else {
      SettingStep(s, c, centerHz, taken);
    }
    PeerChanged(s, Apply(s, Perform(c, centerHz, taken)), c);
  }

  /** The connection's descriptor leads to it, and its history is in order. */
  ghost predicate InOrder(s: State, c: ConnId) {
    && c < |s.k.conns| && c < |s.peers| && s.k.conns[c].fd in s.table
    && s.k.conns[c].fd in s.k.open && s.k.open[s.k.conns[c].fd] == Mine(c)
    && Sound(s.facts, s.peers[c]) && Reflects(s.table[s.k.conns[c].fd], s.peers[c])
  }

  /** What a region changes: the one connection's history, and its entry. */
  ghost predicate OnlyTouches(s: State, t: State, c: ConnId) {
    && t == s.(table := t.table, peers := t.peers) && |t.peers| == |s.peers|
    && (forall d: ConnId :: d < |s.peers| && d != c ==> t.peers[d] == s.peers[d])
    && c < |s.k.conns| && c < |s.peers| && s.k.conns[c].fd in t.table && t.table.Keys == s.table.Keys
    && (forall fd :: fd in s.table && fd != s.k.conns[c].fd ==> t.table[fd] == s.table[fd])
    && Sound(s.facts, t.peers[c]) && Reflects(t.table[s.k.conns[c].fd], t.peers[c])
  }

  lemma ReplyStep(s: State, c: ConnId, centerHz: real, taken: nat)
    requires InOrder(s, c) && CanHappen(s, Perform(c, centerHz, taken)) && s.peers[c].pending[0].Reply?
    ensures OnlyTouches(s, Apply(s, Perform(c, centerHz, taken)), c)
  {
    hide Apply, Sound, Reflects, ReplyMessage, Numbered;
    PerformNextIs(s, c, centerHz, taken);
    ReplySent(s.facts, s.peers[c], s.table[s.k.conns[c].fd], centerHz, taken);
  }

  lemma SettingStep(s: State, c: ConnId, centerHz: real, taken: nat)
    requires InOrder(s, c) && CanHappen(s, Perform(c, centerHz, taken)) && !s.peers[c].pending[0].Reply?
    ensures OnlyTouches(s, Apply(s, Perform(c, centerHz, taken)), c)
  {
    hide Apply, Sound, Reflects;
    PerformNextIs(s, c, centerHz, taken);
    SettingDone(s.facts, s.peers[c], s.table[s.k.conns[c].fd], s.table, s.k.conns[c].fd);
  }

  /** One region, spelt out for a connection that owns its descriptor. */
  lemma PerformNextIs(s: State, c: ConnId, centerHz: real, taken: nat)
    requires CanHappen(s, Perform(c, centerHz, taken)) && s.k.conns[c].fd in s.table
    requires s.k.conns[c].fd in s.k.open && s.k.open[s.k.conns[c].fd] == Mine(c)
    ensures var p, fd := s.peers[c], s.k.conns[c].fd;
            var a := p.pending[0];
            Apply(s, Perform(c, centerHz, taken)) == s.(
              table := ActOnTable(s.table, fd, a),
              peers := s.peers[c := p.(acts := p.acts + [a], pending := p.pending[1..],
                                       sent := if a.Reply? then p.sent + [ReplyAttempt(s, c, a.kind, centerHz, taken)] else p.sent)])
  {
    hide ReplyMessage, ActOnTable;
  }

  /** A step that touches one connection's history, and its entry if it has one, leaves the rest of the invariant alone. */
  lemma PeerChanged(s: State, t: State, c: ConnId)
    requires Inv(s) && AtStage(s, c, Serving) && OnlyTouches(s, t, c)
    ensures Inv(t)
  {
    hide Sound, Reflects, Settled;
    forall fd | fd in t.table ensures Reflects(t.table[fd], t.peers[t.k.open[fd].id]) {
      assert BelongsInTable(s.k, fd);
      assert Live(s.k, c);
    }
    assert forall d: ConnId, stage :: AtStage(t, d, stage) ==> AtStage(s, d, stage);
  }

  lemma BeginKeepsInv(s: State, c: ConnId)
    requires Inv(s) && CanHappen(s, Begin(c))
    ensures Inv(Apply(s, Begin(c)))
  {
    EntryReflects(s, c);
    var p, t := s.peers[c], Apply(s, Begin(c));
    assert Sound(s.facts, p);
    CommandTaken(p.cmds, p.acts, Kinds(p.sent), TakeCommand(p.buf).item);
    TakenIsAccounted(p.cmds, p.buf);
    hide Genuine, Ordered, TakeCommand, EncodeCommands, ActionsOf;
    assert Sound(s.facts, t.peers[c]);
    assert Reflects(t.table[s.k.conns[c].fd], t.peers[c]);
    hide Sound, Reflects;
    PeerChanged(s, t, c);
  }

  lemma ReceiveKeepsInv(s: State, c: ConnId, bytes: seq<byte>)
    requires Inv(s) && CanHappen(s, Receive(c, bytes))
    ensures Inv(Apply(s, Receive(c, bytes)))
  {
    EntryReflects(s, c);
    var p, t := s.peers[c], Apply(s, Receive(c, bytes));
    assert Sound(s.facts, p);
    Associative(EncodeCommands(p.cmds), p.buf, bytes);
    hide Genuine, Ordered, TakeCommand, EncodeCommands;
    assert Sound(s.facts, t.peers[c]);
    assert Reflects(t.table[s.k.conns[c].fd], t.peers[c]);
    hide Sound, Reflects;
    PeerChanged(s, t, c);
  }

  lemma AcceptKeepsInv(s: State, fd: Fd)
    requires Inv(s) && CanHappen(s, Accept(fd))
    ensures Inv(Apply(s, Accept(fd)))
  {
    NewPeerIsSound(s.facts);
    hide Settled, Sound, Reflects, Owned;
    EnterKeepsOwned(s.k, fd);
    var t := Apply(s, Accept(fd));
    assert !BelongsInTable(s.k, fd);
    forall c: ConnId | c < |t.peers|
      ensures AtStage(t, c, Accepted) ==> t.peers[c] == NEW_PEER
      ensures AtStage(t, c, Unlisted) || AtStage(t, c, Closed) ==> Settled(t.peers[c])
    {
      assert forall stage :: c < |s.peers| && AtStage(t, c, stage) ==> AtStage(s, c, stage);
    }
  }

  lemma RegisterKeepsInv(s: State, c: ConnId)
    requires Inv(s) && CanHappen(s, Register(c))
    ensures s.k.conns[c].fd !in s.table && Inv(Apply(s, Register(c)))
  {
    NewPeerIsSound(s.facts);
    hide Settled, Sound, Reflects;
    var fd, t := s.k.conns[c].fd, Apply(s, Register(c));
    assert Live(s.k, c);
    assert !BelongsInTable(s.k, fd);
    SetStageKeepsOwned(s.k, c, Listed);
    hide Owned;
    assert forall d: ConnId, stage :: AtStage(t, d, stage) && (d != c || stage == Accepted) ==> AtStage(s, d, stage);
  }

  lemma SpawnKeepsInv(s: State, c: ConnId)
    requires Inv(s) && CanHappen(s, Spawn(c))
    ensures Inv(Apply(s, Spawn(c)))
  {
    hide Settled, Sound, Reflects;
    EntryReflects(s, c);
    assert Live(s.k, c);
    SetStageKeepsOwned(s.k, c, Serving);
    hide Owned, BelongsInTable;
    var t := Apply(s, Spawn(c));
    assert forall d: ConnId, stage :: AtStage(t, d, stage) && (d != c || stage == Accepted) ==> AtStage(s, d, stage);
  }

  lemma RemoveKeepsInv(s: State, c: ConnId)
    requires Inv(s) && CanHappen(s, Remove(c))
    ensures Inv(Apply(s, Remove(c)))
  {
    hide Settled, Sound, Reflects;
    assert Live(s.k, c);
    SetStageKeepsOwned(s.k, c, Unlisted);
    hide Owned, BelongsInTable;
    var t := Apply(s, Remove(c));
    assert forall d: ConnId, stage :: AtStage(t, d, stage) && (d != c || stage == Accepted) ==> AtStage(s, d, stage);
  }

  lemma CloseKeepsInv(s: State, c: ConnId)
    requires Inv(s) && CanHappen(s, Close(c))
    ensures Inv(Apply(s, Close(c)))
  {
    hide Settled, Sound, Reflects;
    assert Live(s.k, c);
    assert !BelongsInTable(s.k, s.k.conns[c].fd);
    ShutKeepsOwned(s.k, c);
    hide Owned;
    var t := Apply(s, Close(c));
    assert forall d: ConnId, stage :: AtStage(t, d, stage) && (d != c || stage == Accepted) ==> AtStage(s, d, stage);
  }

  lemma ElsewhereKeepsInv(s: State, step: Step)
    requires Inv(s) && (step.OpenElsewhere? || step.CloseElsewhere?)
    ensures Inv(Apply(s, step))
  {
    hide Settled, Sound, Reflects;
    ForeignKeepsOwned(s.k, step.fd);
    var t := Apply(s, step);
    assert forall fd :: fd in s.table ==> BelongsInTable(s.k, fd);
    hide Owned;
    assert forall d: ConnId, stage :: AtStage(t, d, stage) ==> AtStage(s, d, stage);
  }

  lemma StepKeepsInv(s: State, step: Step)
    requires Inv(s)
    ensures Inv(Apply(s, step))
  {
    if CanHappen(s, step) {
      hide Inv, Apply;
      match step
      case Accept(fd) => AcceptKeepsInv(s, fd);
      case Register(c) => RegisterKeepsInv(s, c);
      case Spawn(c) => SpawnKeepsInv(s, c);
      case Receive(c, bytes) => ReceiveKeepsInv(s, c, bytes);
      case Begin(c) => BeginKeepsInv(s, c);
      case Perform(c, centerHz, taken) => PerformKeepsInv(s, c, centerHz, taken);
      case Broadcast(data, takes) => BroadcastKeepsInv(s, data, takes);
      case Remove(c) => RemoveKeepsInv(s, c);
      case Close(c) => CloseKeepsInv(s, c);
      case OpenElsewhere(_) => ElsewhereKeepsInv(s, step);
      case CloseElsewhere(_) => ElsewhereKeepsInv(s, step);
    }
  }

  lemma {:induction false} RunKeepsInv(s: State, steps: seq<Step>)
    requires Inv(s)
    ensures Inv(Run(s, steps)) && Run(s, steps).facts == s.facts
    decreases |steps|
  {
    hide Inv, Apply;
    if steps != [] {
      StepKeepsInv(s, steps[0]);
      FactsStay(s, steps[0]);
      RunKeepsInv(Apply(s, steps[0]), steps[1..]);
    }
  }

  lemma FactsStay(s: State, step: Step)
    ensures Apply(s, step).facts == s.facts
  {
    if step.Broadcast? {
      WriteAllFacts(s, Ascending(s.table.Keys), step.data, step.takes);
    }
  }

  lemma {:induction false} WriteAllFacts(s: State, fds: seq<Fd>, data: seq<byte>, takes: map<Fd, nat>)
    ensures WriteAll(s, fds, data, takes).facts == s.facts
    decreases |fds|
  {
    hide Streams, IqAttempt;
    if fds != [] {
      var t := if fds[0] in s.table && Streams(s.table[fds[0]])
               then Write(s, fds[0], IqAttempt(s.table[fds[0]], data, takes, fds[0])) else s;
      WriteAllFacts(t, fds[1..], data, takes);
    }
  }
}
