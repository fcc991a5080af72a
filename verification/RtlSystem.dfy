/**
 Every interleaving of the rtl_tcp server's threads: the accept thread, one read thread per client, and the
 streaming thread that broadcasts. Each mutex-held region and each system call that touches a descriptor is a step.
 */
module RtlSystem {
  import opened Bytes
  import opened Descriptors
  import opened RtlTcp

  /** What a connection has been sent: whether the greeting was attempted, and all bytes its socket took. */
  datatype Peer = Peer(greeted: bool, wire: seq<byte>)

  /** `stray` records a write that reached a closed descriptor or one that is not a client's. */
  datatype State = State(k: Kernel, table: seq<Fd>, peers: seq<Peer>, stray: bool)

  datatype Step =
    | Accept(fd: Fd)
    | Greet(c: ConnId, taken: nat)
    | Register(c: ConnId)
    | Spawn(c: ConnId)
    | Broadcast(data: seq<byte>, takes: map<Fd, nat>)
    | Remove(c: ConnId)
    | Close(c: ConnId)
    | OpenElsewhere(fd: Fd)
    | CloseElsewhere(fd: Fd)

  predicate AtStage(s: State, c: ConnId, stage: Stage) {
    c < |s.k.conns| && c < |s.peers| && s.k.conns[c].stage == stage
  }

  /** When a step can happen. accept returns a descriptor that is not open; a read loop may end at any time. */
  predicate Enabled(s: State, step: Step) {
    match step
    case Accept(fd) => fd !in s.k.open
    case Greet(c, _) => AtStage(s, c, Accepted) && !s.peers[c].greeted
    case Register(c) => AtStage(s, c, Accepted) && s.peers[c].greeted
    case Spawn(c) => AtStage(s, c, Listed)
    case Broadcast(_, _) => true
    case Remove(c) => AtStage(s, c, Serving)
    case Close(c) => AtStage(s, c, Unlisted)
    case OpenElsewhere(fd) => fd !in s.k.open
    case CloseElsewhere(fd) => fd in s.k.open && s.k.open[fd] == Foreign
  }

  /** What one send of a block takes: all of it, some of it, or nothing. */
  function Clip(data: seq<byte>, taken: nat): (part: seq<byte>)
    ensures part <= data && |part| == if taken < |data| then taken else |data|
  {
    if taken >= |data| then data else data[..taken]
  }

  function Taken(data: seq<byte>, takes: map<Fd, nat>, fd: Fd): (part: seq<byte>)
    ensures part <= data
    ensures |part| == if fd !in takes then 0 else if takes[fd] < |data| then takes[fd] else |data|
  {
    if fd !in takes then [] else Clip(data, takes[fd])
  }

  /** A write goes wherever the kernel says the descriptor leads. */
  function Write(s: State, fd: Fd, bytes: seq<byte>): State {
    if OpenToConn(s.k, fd) && s.k.open[fd].id < |s.peers| then
      var id := s.k.open[fd].id;
      s.(peers := s.peers[id := s.peers[id].(wire := s.peers[id].wire + bytes)])
    else s.(stray := true)
  }

  function WriteAll(s: State, fds: seq<Fd>, data: seq<byte>, takes: map<Fd, nat>): State
    decreases |fds|
  {
    if fds == [] then s else WriteAll(Write(s, fds[0], Taken(data, takes, fds[0])), fds[1..], data, takes)
  }

  function Apply(s: State, step: Step): State {
    if !Enabled(s, step) then s
    else match step
      case Accept(fd) => s.(k := Enter(s.k, fd), peers := s.peers + [Peer(false, [])])
      case Greet(c, taken) =>
        var t := Write(s, s.k.conns[c].fd, Clip(HEADER, taken));
        if c < |t.peers| then t.(peers := t.peers[c := t.peers[c].(greeted := true)]) else t
      case Register(c) => s.(k := SetStage(s.k, c, Listed), table := s.table + [s.k.conns[c].fd])
      case Spawn(c) => s.(k := SetStage(s.k, c, Serving))
      case Broadcast(data, takes) => WriteAll(s, s.table, data, takes)
      case Remove(c) => s.(k := SetStage(s.k, c, Unlisted), table := Without(s.table, s.k.conns[c].fd))
      case Close(c) => s.(k := Shut(s.k, c))
      case OpenElsewhere(fd) => s.(k := s.k.(open := s.k.open[fd := Foreign]))
      case CloseElsewhere(fd) => s.(k := s.k.(open := s.k.open - {fd}))
  }

  /** The state after any sequence of steps; a step that cannot happen changes nothing. */
  function Run(s: State, steps: seq<Step>): State
    decreases |steps|
  {
    if steps == [] then s else Run(Apply(s, steps[0]), steps[1..])
  }

  function Initial(k: Kernel): State {
    State(k, [], [], false)
  }

  // ----- The invariant -----

  /** A connection is greeted before it is registered, and nothing is sent to it before that. */
  predicate Greeted(p: Peer, stage: Stage) {
    !p.greeted ==> stage == Accepted && p.wire == []
  }

  ghost predicate Inv(s: State) {
    && Owned(s.k)
    && |s.peers| == |s.k.conns|
    && !s.stray
    && NoDuplicates(s.table)
    && (forall fd :: fd in s.table <==> BelongsInTable(s.k, fd))
    && (forall c: ConnId :: c < |s.peers| ==> Greeted(s.peers[c], s.k.conns[c].stage))
  }

  lemma InitialInv(k: Kernel)
    requires Fresh(k)
    ensures Inv(Initial(k))
  {
  }

  /** A broadcast adds its block once to each connection in the table and to nothing else. */
  ghost predicate Delivered(s: State, t: State, fds: seq<Fd>, data: seq<byte>, takes: map<Fd, nat>) {
    && t.k == s.k && t.table == s.table && t.stray == s.stray && |t.peers| == |s.peers| == |s.k.conns|
    && forall c: ConnId :: c < |s.peers| ==>
      t.peers[c] == if s.k.conns[c].fd in fds && s.k.conns[c].stage in {Listed, Serving}
                    then s.peers[c].(wire := s.peers[c].wire + Taken(data, takes, s.k.conns[c].fd)) else s.peers[c]
  }

  lemma {:induction false} WriteAllDelivers(s: State, fds: seq<Fd>, data: seq<byte>, takes: map<Fd, nat>)
    requires Owned(s.k) && |s.peers| == |s.k.conns| && NoDuplicates(fds)
    requires forall fd :: fd in fds ==> BelongsInTable(s.k, fd)
    ensures Delivered(s, WriteAll(s, fds, data, takes), fds, data, takes)
    decreases |fds|
  {
    hide Taken;
    if fds != [] {
      var fd := fds[0];
      assert BelongsInTable(s.k, fd);
      var id, t := s.k.open[fd].id, Write(s, fd, Taken(data, takes, fd));
      assert forall g :: g in fds[1..] ==> g in fds;
      WriteAllDelivers(t, fds[1..], data, takes);
      var u := WriteAll(t, fds[1..], data, takes);
      forall c: ConnId | c < |s.peers|
        ensures u.peers[c] == if s.k.conns[c].fd in fds && s.k.conns[c].stage in {Listed, Serving}
                              then s.peers[c].(wire := s.peers[c].wire + Taken(data, takes, s.k.conns[c].fd)) else s.peers[c]
      {
        if c != id && s.k.conns[c].stage in {Listed, Serving} {
          assert Live(s.k, c);
        }
      }
    }
  }

  lemma BroadcastKeepsInv(s: State, data: seq<byte>, takes: map<Fd, nat>)
    requires Inv(s)
    ensures Inv(Apply(s, Broadcast(data, takes))) && Delivered(s, Apply(s, Broadcast(data, takes)), s.table, data, takes)
  {
    hide Taken, BelongsInTable, Owned, NoDuplicates;
    WriteAllDelivers(s, s.table, data, takes);
    var t := Apply(s, Broadcast(data, takes));
    forall c: ConnId | c < |t.peers| ensures Greeted(t.peers[c], t.k.conns[c].stage) {
      assert Greeted(s.peers[c], s.k.conns[c].stage);
    }
  }

  lemma GreetKeepsInv(s: State, c: ConnId, taken: nat)
    requires Inv(s) && Enabled(s, Greet(c, taken))
    ensures Inv(Apply(s, Greet(c, taken)))
    ensures var t := Apply(s, Greet(c, taken));
            |t.peers| == |s.peers| && t.peers[c] == Peer(true, Clip(HEADER, taken))
            && forall d: ConnId :: d < |s.peers| && d != c ==> t.peers[d] == s.peers[d]
  {
    assert Live(s.k, c);
    assert Greeted(s.peers[c], Accepted);
    hide BelongsInTable, Clip;
    assert [] + Clip(HEADER, taken) == Clip(HEADER, taken);
  }

  lemma AcceptKeepsInv(s: State, fd: Fd)
    requires Inv(s) && Enabled(s, Accept(fd))
    ensures Inv(Apply(s, Accept(fd)))
  {
    hide BelongsInTable, Owned;
    EnterKeepsOwned(s.k, fd);
  }

  lemma StageKeepsGreeting(s: State, c: ConnId, stage: Stage)
    requires Inv(s) && c < |s.peers| && s.peers[c].greeted && stage != Accepted
    ensures forall d: ConnId :: d < |s.peers| ==> Greeted(s.peers[d], SetStage(s.k, c, stage).conns[d].stage)
  {
    hide BelongsInTable, Owned, NoDuplicates;
    assert Greeted(s.peers[c], s.k.conns[c].stage);
  }

  lemma RegisterKeepsInv(s: State, c: ConnId)
    requires Inv(s) && Enabled(s, Register(c))
    ensures s.k.conns[c].fd !in s.table && Inv(Apply(s, Register(c)))
  {
    StageKeepsGreeting(s, c, Listed);
    assert Live(s.k, c);
    assert !BelongsInTable(s.k, s.k.conns[c].fd);
    hide Greeted, Owned, BelongsInTable;
    SetStageKeepsOwned(s.k, c, Listed);
    PushMembers(s.table, s.k.conns[c].fd);
  }

  lemma RemoveKeepsInv(s: State, c: ConnId)
    requires Inv(s) && Enabled(s, Remove(c))
    ensures Inv(Apply(s, Remove(c)))
  {
    assert Greeted(s.peers[c], Serving);
    StageKeepsGreeting(s, c, Unlisted);
    assert Live(s.k, c);
    hide Greeted, Owned, BelongsInTable;
    SetStageKeepsOwned(s.k, c, Unlisted);
    WithoutMembers(s.table, s.k.conns[c].fd);
  }

  lemma SpawnKeepsInv(s: State, c: ConnId)
    requires Inv(s) && Enabled(s, Spawn(c))
    ensures Inv(Apply(s, Spawn(c)))
  {
    assert Greeted(s.peers[c], Listed);
    StageKeepsGreeting(s, c, Serving);
    assert Live(s.k, c);
    assert BelongsInTable(s.k, s.k.conns[c].fd);
    hide Greeted, Owned, BelongsInTable;
    SetStageKeepsOwned(s.k, c, Serving);
  }

  lemma CloseKeepsInv(s: State, c: ConnId)
    requires Inv(s) && Enabled(s, Close(c))
    ensures Inv(Apply(s, Close(c)))
  {
    assert Greeted(s.peers[c], Unlisted);
    StageKeepsGreeting(s, c, Closed);
    assert Live(s.k, c);
    hide Greeted, Owned, BelongsInTable;
    ShutKeepsOwned(s.k, c);
  }

  lemma StepKeepsInv(s: State, step: Step)
    requires Inv(s)
    ensures Inv(Apply(s, step))
  {
    if Enabled(s, step) {
      match step
      case Accept(fd) => AcceptKeepsInv(s, fd);
      case Greet(c, taken) => GreetKeepsInv(s, c, taken);
      case Register(c) => RegisterKeepsInv(s, c);
      case Spawn(c) => SpawnKeepsInv(s, c);
      case Broadcast(data, takes) => BroadcastKeepsInv(s, data, takes);
      case Remove(c) => RemoveKeepsInv(s, c);
      case Close(c) => CloseKeepsInv(s, c);
      case OpenElsewhere(fd) => ForeignKeepsOwned(s.k, fd);
      case CloseElsewhere(fd) => ForeignKeepsOwned(s.k, fd);
    }
  }

  lemma {:induction false} RunKeepsInv(s: State, steps: seq<Step>)
    requires Inv(s)
    ensures Inv(Run(s, steps))
    decreases |steps|
  {
    hide Inv, Apply;
    if steps != [] {
      StepKeepsInv(s, steps[0]);
      RunKeepsInv(Apply(s, steps[0]), steps[1..]);
    }
  }

  /**
   Descriptor ownership over every run: no write ever reaches a closed or foreign descriptor; each descriptor in
   the table is open, is there once, and leads to exactly one connection, which is being served or about to be;
   and a connection about to be registered is never in the table already.
   */
  lemma DescriptorsAreOwned(k: Kernel, steps: seq<Step>)
    requires Fresh(k)
    ensures var s := Run(Initial(k), steps);
            && !s.stray
            && (forall i, j :: 0 <= i < j < |s.table| ==> s.table[i] != s.table[j])
            && (forall i :: 0 <= i < |s.table| ==> s.table[i] in s.k.open && Attended(s.k, s.table[i]))
            && (forall c: ConnId :: AtStage(s, c, Accepted) ==> s.k.conns[c].fd !in s.table)
  {
    InitialInv(k);
    RunKeepsInv(Initial(k), steps);
    var s := Run(Initial(k), steps);
    DistinctEntries(s.table);
    forall i | 0 <= i < |s.table| ensures s.table[i] in s.k.open && Attended(s.k, s.table[i]) {
      assert BelongsInTable(s.k, s.table[i]);
      AttendedByOwner(s.k, s.table[i]);
    }
    forall c: ConnId | AtStage(s, c, Accepted) ensures s.k.conns[c].fd !in s.table {
      assert Live(s.k, c);
      assert !BelongsInTable(s.k, s.k.conns[c].fd);
    }
  }

  lemma {:induction false} DistinctEntries(table: seq<Fd>)
    requires NoDuplicates(table)
    ensures forall i, j :: 0 <= i < j < |table| ==> table[i] != table[j]
  {
    if table != [] {
      DistinctEntries(table[1..]);
      forall i, j | 0 <= i < j < |table| ensures table[i] != table[j] {
        assert table[j] == table[1..][j - 1];
        if i > 0 {
          assert table[i] == table[1..][i - 1];
        }
      }
    }
  }

  // ----- What is on the wire -----

  /** The part of the greeting a step puts on a connection's wire. */
  function GreetPart(s: State, step: Step, c: ConnId): seq<byte> {
    if step.Greet? && step.c == c && Enabled(s, step) then Clip(HEADER, step.taken) else []
  }

  /** The part of a broadcast block a step puts on a connection's wire. */
  function IqPart(s: State, step: Step, c: ConnId): seq<byte> {
    if step.Broadcast? && c < |s.k.conns| && s.k.conns[c].stage in {Listed, Serving}
    then Taken(step.data, step.takes, s.k.conns[c].fd) else []
  }

  /** What the greeting's send to a connection took in the course of some steps. */
  function GreetingIn(s: State, steps: seq<Step>, c: ConnId): seq<byte>
    decreases |steps|
  {
    if steps == [] then [] else GreetPart(s, steps[0], c) + GreetingIn(Apply(s, steps[0]), steps[1..], c)
  }

  /** What the sends of IQ to a connection took in the course of some steps. */
  function IqIn(s: State, steps: seq<Step>, c: ConnId): seq<byte>
    decreases |steps|
  {
    if steps == [] then [] else IqPart(s, steps[0], c) + IqIn(Apply(s, steps[0]), steps[1..], c)
  }

  /** What one step does to one connection's wire. */
  lemma StepOnWire(s: State, step: Step, c: ConnId)
    requires Inv(s) && c < |s.peers|
    ensures var t := Apply(s, step);
            && |t.peers| >= |s.peers|
            && t.peers[c].wire == s.peers[c].wire + (GreetPart(s, step, c) + IqPart(s, step, c))
            && t.peers[c].greeted == (s.peers[c].greeted || (step.Greet? && step.c == c && Enabled(s, step)))
    ensures s.peers[c].greeted || !Apply(s, step).peers[c].greeted ==> GreetPart(s, step, c) == []
    ensures !s.peers[c].greeted ==> s.peers[c].wire == [] && IqPart(s, step, c) == []
  {
    assert Greeted(s.peers[c], s.k.conns[c].stage);
    hide Taken, Clip;
    if Enabled(s, step) {
      if step.Broadcast? {
        BroadcastKeepsInv(s, step.data, step.takes);
        InTable(s, c);
      } else if step.Greet? {
        GreetKeepsInv(s, step.c, step.taken);
      }
    }
    hide Greeted, Inv, Enabled, BelongsInTable;
    assert s.peers[c].wire + [] == s.peers[c].wire;
  }

  lemma InTable(s: State, c: ConnId)
    requires Inv(s) && c < |s.peers|
    ensures s.k.conns[c].stage in {Listed, Serving} ==> s.k.conns[c].fd in s.table
  {
    if s.k.conns[c].stage in {Listed, Serving} {
      assert Live(s.k, c);
      assert BelongsInTable(s.k, s.k.conns[c].fd);
    }
  }

  /** A connection accepted by a step starts with nothing sent. */
  lemma StepAccepts(s: State, step: Step, c: ConnId)
    requires Inv(s) && c >= |s.peers|
    ensures GreetPart(s, step, c) == [] && IqPart(s, step, c) == []
    ensures c < |Apply(s, step).peers| ==> !Apply(s, step).peers[c].greeted
  {
    if step.Broadcast? {
      BroadcastKeepsInv(s, step.data, step.takes);
    } else if step.Greet? && Enabled(s, step) {
      GreetKeepsInv(s, step.c, step.taken);
    }
  }

  /** From any state: what was there, then the greeting if it is still to come, then IQ. */
  lemma {:induction false} RunOnWire(s: State, steps: seq<Step>, c: ConnId)
    requires Inv(s) && c < |Run(s, steps).peers|
    ensures Run(s, steps).peers[c].wire
         == (if c < |s.peers| && s.peers[c].greeted then s.peers[c].wire else GreetingIn(s, steps, c)) + IqIn(s, steps, c)
    decreases |steps|
  {
    hide Inv, Apply, GreetPart, IqPart;
    if steps == [] {
      NothingOnWire(s, c);
    } else {
      var t := Apply(s, steps[0]);
      var rest := steps[1..];
      StepKeepsInv(s, steps[0]);
      RunOnWire(t, rest, c);
      if c < |s.peers| {
        StepOnWire(s, steps[0], c);
        GreetedOnce(t, rest, c);
        WireSplits(s.peers[c].wire, GreetPart(s, steps[0], c), GreetingIn(t, rest, c), IqPart(s, steps[0], c), IqIn(t, rest, c));
        if !s.peers[c].greeted && t.peers[c].greeted {
          assert t.peers[c].wire == [] + (GreetPart(s, steps[0], c) + []);
        }
      } else {
        StepAccepts(s, steps[0], c);
        WireSplits([], [], GreetingIn(t, rest, c), [], IqIn(t, rest, c));
      }
    }
  }

  lemma NothingOnWire(s: State, c: ConnId)
    requires Inv(s) && c < |s.peers|
    ensures s.peers[c].wire == (if s.peers[c].greeted then s.peers[c].wire else []) + []
  {
    assert Greeted(s.peers[c], s.k.conns[c].stage);
  }

  lemma WireSplits(w: seq<byte>, g: seq<byte>, g': seq<byte>, i: seq<byte>, i': seq<byte>)
    ensures w + ([] + i) + i' == w + (i + i')
    ensures [] + (g + []) + i' == (g + []) + ([] + i')
    ensures ([] + g') + ([] + i') == g' + i'
  {
    assert [] + i == i && g + [] == g && [] + g' == g' && [] + i' == i' && [] + g == g;
  }

  /** A connection is greeted once. */
  lemma {:induction false} GreetedOnce(s: State, steps: seq<Step>, c: ConnId)
    requires Inv(s)
    ensures c < |s.peers| && s.peers[c].greeted ==> GreetingIn(s, steps, c) == []
    decreases |steps|
  {
    hide Inv, Apply, GreetPart;
    if steps != [] && c < |s.peers| && s.peers[c].greeted {
      StepOnWire(s, steps[0], c);
      StepKeepsInv(s, steps[0]);
      GreetedOnce(Apply(s, steps[0]), steps[1..], c);
    }
  }

  /**
   Over every run, what is on a client's wire is what the one greeting's send took, then what the sends of IQ
   blocks took, in order, and nothing else.
   */
  lemma GreetingComesFirst(k: Kernel, steps: seq<Step>, c: ConnId)
    requires Fresh(k) && c < |Run(Initial(k), steps).peers|
    ensures Run(Initial(k), steps).peers[c].wire == GreetingIn(Initial(k), steps, c) + IqIn(Initial(k), steps, c)
    ensures GreetingIn(Initial(k), steps, c) <= HEADER
  {
    InitialInv(k);
    RunOnWire(Initial(k), steps, c);
    GreetingIsHeader(Initial(k), steps, c);
  }

  lemma {:induction false} GreetingIsHeader(s: State, steps: seq<Step>, c: ConnId)
    requires Inv(s)
    ensures GreetingIn(s, steps, c) <= HEADER
    decreases |steps|
  {
    hide Inv, Apply, Clip;
    if steps != [] {
      var t := Apply(s, steps[0]);
      StepKeepsInv(s, steps[0]);
      GreetingIsHeader(t, steps[1..], c);
      if GreetPart(s, steps[0], c) != [] {
        WillBeGreeted(s, steps[0], c);
        GreetedOnce(t, steps[1..], c);
      }
    }
  }

  lemma WillBeGreeted(s: State, step: Step, c: ConnId)
    requires Inv(s) && GreetPart(s, step, c) != []
    ensures c < |Apply(s, step).peers| && Apply(s, step).peers[c].greeted
  {
    GreetKeepsInv(s, c, step.taken);
  }

  /** Over every run, a broadcast reaches exactly the registered connections, each once. */
  lemma BroadcastReachesTheTable(k: Kernel, steps: seq<Step>, data: seq<byte>, takes: map<Fd, nat>)
    requires Fresh(k)
    ensures var s := Run(Initial(k), steps);
            var t := Apply(s, Broadcast(data, takes));
            && |t.peers| == |s.peers| == |s.k.conns|
            && forall c: ConnId :: c < |s.peers| ==>
              t.peers[c].wire == s.peers[c].wire
                + (if s.k.conns[c].stage in {Listed, Serving} then Taken(data, takes, s.k.conns[c].fd) else [])
  {
    hide Taken;
    InitialInv(k);
    RunKeepsInv(Initial(k), steps);
    var s := Run(Initial(k), steps);
    BroadcastKeepsInv(s, data, takes);
    forall c: ConnId | c < |s.peers| && s.k.conns[c].stage in {Listed, Serving} ensures s.k.conns[c].fd in s.table {
      assert Live(s.k, c);
      assert BelongsInTable(s.k, s.k.conns[c].fd);
    }
  }

  // ----- The steps are the object's regions -----

  /** What reached any wire was at the front of a call made on that connection's own descriptor. */
  ghost predicate CallsReachOwners(s: State, t: State, calls: seq<SendCall>) {
    |t.peers| >= |s.peers| && |s.k.conns| >= |s.peers|
    && forall c: ConnId :: c < |s.peers| ==>
      t.peers[c].wire == s.peers[c].wire
      || exists i, part :: 0 <= i < |calls| && calls[i].fd == s.k.conns[c].fd && part <= calls[i].bytes
                           && t.peers[c].wire == s.peers[c].wire + part
  }

  /** Each step is what the object's own method does: the same table, and calls that reach just their owners. */
  method Follow(server: Server, s: State, step: Step) returns (calls: seq<SendCall>)
    requires Inv(s) && Enabled(s, step) && server.clientFds == s.table
    modifies server
    ensures server.clientFds == Apply(s, step).table
    ensures CallsReachOwners(s, Apply(s, step), calls)
  {
    calls := [];
    match step {
      case Greet(c, taken) =>
        calls := server.Greet(s.k.conns[c].fd);
      case Register(c) =>
        server.Register(s.k.conns[c].fd);
      case Broadcast(data, takes) =>
        calls := server.BroadcastIq(data);
      case Remove(c) =>
        server.RemoveClient(s.k.conns[c].fd);
      case _ =>
    }
    StepCalls(s, step, calls);
  }

  lemma StepCalls(s: State, step: Step, calls: seq<SendCall>)
    requires Inv(s) && Enabled(s, step)
    requires step.Greet? ==> calls == [SendCall(s.k.conns[step.c].fd, HEADER)]
    requires step.Broadcast? ==> |calls| == |s.table| && forall i :: 0 <= i < |calls| ==> calls[i] == SendCall(s.table[i], step.data)
    ensures CallsReachOwners(s, Apply(s, step), calls)
    ensures !step.Register? && !step.Remove? ==> Apply(s, step).table == s.table
  {
    hide Taken, Clip;
    var t := Apply(s, step);
    match step {
      case Greet(c, taken) =>
        GreetKeepsInv(s, c, taken);
        assert Greeted(s.peers[c], Accepted);
        assert [] + Clip(HEADER, taken) == Clip(HEADER, taken) && calls[0].fd == s.k.conns[c].fd;
      case Broadcast(data, takes) =>
        BroadcastKeepsInv(s, data, takes);
        forall c: ConnId | c < |s.peers| && t.peers[c].wire != s.peers[c].wire
          ensures exists i, part :: 0 <= i < |calls| && calls[i].fd == s.k.conns[c].fd && part <= calls[i].bytes
                                    && t.peers[c].wire == s.peers[c].wire + part
        {
          var i :| 0 <= i < |s.table| && s.table[i] == s.k.conns[c].fd;
          var part := Taken(data, takes, s.k.conns[c].fd);
          assert calls[i].fd == s.k.conns[c].fd && part <= calls[i].bytes;
        }
      case _ =>
    }
  }
}
