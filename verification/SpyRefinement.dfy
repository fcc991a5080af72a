/** The steps of the interleaved SpyServer are the critical regions of the object: same table, same sends. */
module SpyRefinement {
  import opened Bytes
  import opened Descriptors
  import opened SpyProtocol
  import opened SpyServer
  import opened SpySystem

  /** The calls of send a step makes. */
  ghost function StepCalls(s: State, step: Step): seq<SendCall>
    requires Inv(s) && CanHappen(s, step)
  {
    if step.Broadcast? then IqCalls(s.table, Ascending(s.table.Keys), step.data)
    else if step.Perform? && s.peers[step.c].pending[0].Reply? then
      EntryReflects(s, step.c);
      [ReplyCall(s, step.c, step.centerHz)]
    else []
  }

  function ReplyCall(s: State, c: ConnId, centerHz: real): SendCall
    requires c < |s.k.conns| && c < |s.peers| && s.k.conns[c].fd in s.table
    requires s.peers[c].pending != [] && s.peers[c].pending[0].Reply?
  {
    var fd := s.k.conns[c].fd;
    SendCall(fd, EncodeMessage(ReplyMessage(s.facts, s.peers[c].pending[0].kind, s.table[fd].sequenceNumber, centerHz)))
  }

  /** Each step, done by the object's own method, leaves the step's table and makes the step's calls. */
  method Follow(server: Server, s: State, step: Step)
    requires Inv(s) && CanHappen(s, step)
    requires server.Valid() && server.clients == s.table && server.facts == s.facts
    modifies server`clients, server`sent, server`broadcastScratch, server.vrx`centerFrequencyHz, server.vrx.nco
    ensures server.Valid() && server.clients == Apply(s, step).table
    ensures server.sent == old(server.sent) + StepCalls(s, step)
  {
    hide Sound, Reflects, Streams, EncodeMessage, IqCalls, Ascending, BodyOf, Owned, BelongsInTable, Settled, TakeCommand;
    assert server.sent + [] == server.sent;
    match step {
      case Register(c) =>
        server.Register(s.k.conns[c].fd);
      case Perform(c, centerHz, taken) =>
        EntryReflects(s, c);
        FollowAction(server, s.k.conns[c].fd, s.peers[c].pending[0], centerHz);
      case Broadcast(data, takes) =>
        server.BroadcastIq(data);
      case Remove(c) =>
        server.RemoveClient(s.k.conns[c].fd);
      case _ =>
    }
  }

  /** The region of a handler that an action stands for. */
  method FollowAction(server: Server, fd: Fd, a: Action, centerHz: real)
    requires server.Valid() && fd in server.clients
    modifies server`clients, server`sent, server.vrx`centerFrequencyHz, server.vrx.nco
    ensures server.Valid() && server.clients == ActOnTable(old(server.clients), fd, a)
    ensures server.sent == old(server.sent)
      + if a.Reply?
        then [SendCall(fd, EncodeMessage(ReplyMessage(server.facts, a.kind, old(server.clients)[fd].sequenceNumber, centerHz)))]
        else []
  {
    hide EncodeMessage, BodyOf;
    assert server.sent + [] == server.sent;
    match a {
      case Greet =>
        var _ := server.MarkGreeted(fd);
      case SetMode(mode) =>
        server.SetStreamingMode(fd, mode);
      case SetEnabled(on) =>
        server.SetStreamingEnabled(fd, on);
      case Reply(kind) =>
        server.SendMessage(fd, kind, STATUS_STREAM, BodyOf(server.facts, kind, centerHz));
      case Tune(hz) =>
        var _ := server.vrx.RetuneTo(hz as real);
    }
  }

  /** What a step's calls mean for one connection: nothing, or one more message, carried by the one call on its descriptor. */
  ghost predicate CallsMatch(s: State, t: State, c: ConnId, calls: seq<SendCall>)
    requires c < |s.peers| && c < |t.peers| && c < |s.k.conns|
  {
    var fd := s.k.conns[c].fd;
    || (t.peers[c].sent == s.peers[c].sent
        && (s.k.conns[c].stage in {Listed, Serving} ==> forall i :: 0 <= i < |calls| ==> calls[i].fd != fd))
    || exists a, i :: OneMoreBy(s.peers[c].sent, t.peers[c].sent, fd, calls, a, i)
  }

  ghost predicate OneMoreBy(was: seq<Attempt>, now: seq<Attempt>, fd: Fd, calls: seq<SendCall>, a: Attempt, i: nat) {
    && now == was + [a] && i < |calls| && calls[i] == SendCall(fd, EncodeMessage(a.message))
    && forall j :: 0 <= j < |calls| && j != i ==> calls[j].fd != fd
  }

  /** In every step every connection gets exactly what is sent on its own descriptor. */
  lemma CallsReachOwners(s: State, step: Step, c: ConnId)
    requires Inv(s) && CanHappen(s, step) && c < |s.peers|
    ensures var t := Apply(s, step);
            c < |t.peers| && c < |s.k.conns| && CallsMatch(s, t, c, StepCalls(s, step))
  {
    hide Sound, Reflects, Streams, EncodeMessage, IqCalls, Ascending, BodyOf, Numbered, Settled, TakeCommand, ActionsOf;
    if step.Broadcast? {
      BroadcastCalls(s, c, step.data, step.takes);
    } else if step.Perform? {
      PerformCalls(s, step.c, step.centerHz, step.taken, c);
    }
  }

  lemma PerformCalls(s: State, p: ConnId, centerHz: real, taken: nat, c: ConnId)
    requires Inv(s) && CanHappen(s, Perform(p, centerHz, taken)) && c < |s.peers|
    ensures var t, step := Apply(s, Perform(p, centerHz, taken)), Perform(p, centerHz, taken);
            c < |t.peers| && CallsMatch(s, t, c, StepCalls(s, step))
  {
    hide Sound, Reflects, EncodeMessage, BodyOf, Numbered, Settled, TakeCommand;
    EntryReflects(s, p);
    var t := Apply(s, Perform(p, centerHz, taken));
    var calls := StepCalls(s, Perform(p, centerHz, taken));
    if c != p && s.k.conns[c].stage in {Listed, Serving} {
      EntryReflects(s, c);
    }
    if c == p && s.peers[p].pending[0].Reply? {
      var a := ReplyAttempt(s, p, s.peers[p].pending[0].kind, centerHz, taken);
      assert OneMoreBy(s.peers[c].sent, t.peers[c].sent, s.k.conns[c].fd, calls, a, 0);
    }
  }

  lemma BroadcastCalls(s: State, c: ConnId, data: seq<byte>, takes: map<Fd, nat>)
    requires Inv(s) && c < |s.peers|
    ensures var t, step := Apply(s, Broadcast(data, takes)), Broadcast(data, takes);
            c < |t.peers| && CallsMatch(s, t, c, StepCalls(s, step))
  {
    hide Sound, Reflects, EncodeMessage, Streams, IqCalls, Ascending, Apply;
    AfterBroadcastFor(s, c, data, takes);
    OneCallPerStreamingClient(s.table, s.table.Keys, data);
    var calls, fd := IqCalls(s.table, Ascending(s.table.Keys), data), s.k.conns[c].fd;
    if s.k.conns[c].stage in {Listed, Serving} {
      EntryReflects(s, c);
    }
    if Receives(s, c) {
      var i :| 0 <= i < |calls| && calls[i] == IqCall(s.table, fd, data);
      var a := IqAttempt(s.table[fd], data, takes, fd);
      assert OneMoreBy(s.peers[c].sent, Apply(s, Broadcast(data, takes)).peers[c].sent, fd, calls, a, i);
    }
  }
}
