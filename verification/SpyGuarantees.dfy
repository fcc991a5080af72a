/** What holds of the SpyServer in every state that any interleaving of its threads can reach. */
module SpyGuarantees {
  import opened Bytes
  import Incremental
  import opened Descriptors
  import opened SpyProtocol
  import opened SpyServer
  import opened SpyHistory
  import opened SpySystem

  /** The state after some steps of a server that has just started. */
  ghost function After(facts: Facts, k: Kernel, steps: seq<Step>): State {
    Run(Initial(facts, k), steps)
  }

  lemma Reachable(facts: Facts, k: Kernel, steps: seq<Step>)
    requires Fresh(k)
    ensures Inv(After(facts, k, steps)) && After(facts, k, steps).facts == facts
  {
    hide Inv;
    InitialInv(facts, k);
    RunKeepsInv(Initial(facts, k), steps);
  }

  // ----- The stream a client sends -----

  /** The commands in everything a connection has received. */
  ghost function Heard(p: Peer): seq<Request> {
    ParseCommands(p.received).items
  }

  /**
   Over every run, the commands a connection's handler has taken up are the first ones of the byte stream it received,
   in order, none skipped or repeated; all of them, whenever the read loop waits for more; and when the loop has
   ended it had handled them all to the end. The replies sent are exactly those their regions called for, in order.
   */
  lemma StreamIsHandledInOrder(facts: Facts, k: Kernel, steps: seq<Step>, c: ConnId)
    requires Fresh(k) && c < |After(facts, k, steps).peers|
    ensures var s := After(facts, k, steps);
            var p := s.peers[c];
            && p.cmds <= Heard(p) && (!TakeCommand(p.buf).Item? ==> p.cmds == Heard(p))
            && p.acts <= AllActions(p.cmds) && (p.pending == [] ==> p.acts == AllActions(p.cmds))
            && Replies(Kinds(p.sent)) == SendsOf(p.acts)
            && (AtStage(s, c, Unlisted) || AtStage(s, c, Closed) ==> Settled(p))
  {
    hide After;
    Reachable(facts, k, steps);
    var s := After(facts, k, steps);
    assert Sound(facts, s.peers[c]);
    hide Inv, Sound;
    HeardSoFar(facts, s.peers[c]);
  }

  lemma HeardSoFar(f: Facts, p: Peer)
    requires Sound(f, p)
    ensures p.cmds <= Heard(p) && (!TakeCommand(p.buf).Item? ==> p.cmds == Heard(p))
    ensures p.acts <= AllActions(p.cmds) && p.acts <= AllActions(Heard(p))
    ensures p.pending == [] ==> p.acts == AllActions(p.cmds)
  {
    hide Genuine, TakeCommand, EncodeCommands;
    HandledOfReceived(p.cmds, p.buf);
    assert p.acts + [] == p.acts;
    var later := Heard(p)[|p.cmds|..];
    assert Heard(p) == p.cmds + later;
    AllActionsAppend(p.cmds, later);
  }

  // ----- Descriptors -----

  /**
   Over every run: no write ever reaches a closed or foreign descriptor; each descriptor in the table is open and
   leads to exactly one connection, which is being served or about to be; registering never replaces an entry.
   */
  lemma DescriptorsAreOwned(facts: Facts, k: Kernel, steps: seq<Step>)
    requires Fresh(k)
    ensures var s := After(facts, k, steps);
            && !s.stray
            && (forall fd :: fd in s.table ==> fd in s.k.open && Attended(s.k, fd))
            && (forall c: ConnId :: AtStage(s, c, Accepted) ==> s.k.conns[c].fd !in s.table)
  {
    hide After, Sound, Reflects;
    Reachable(facts, k, steps);
    var s := After(facts, k, steps);
    forall fd | fd in s.table ensures fd in s.k.open && Attended(s.k, fd) {
      AttendedByOwner(s.k, fd);
    }
    forall c: ConnId | AtStage(s, c, Accepted) ensures s.k.conns[c].fd !in s.table {
      assert Live(s.k, c);
      assert !BelongsInTable(s.k, s.k.conns[c].fd);
    }
  }

  // ----- Numbering -----

  /**
   Over every run, the sends to one connection, by its read thread and the streaming thread together, are numbered
   0, 1, 2, ... modulo 2^32 without gap or repeat; the entry in the table holds the number that comes next.
   */
  lemma SendsAreNumbered(facts: Facts, k: Kernel, steps: seq<Step>, c: ConnId)
    requires Fresh(k) && c < |After(facts, k, steps).peers|
    ensures var s := After(facts, k, steps);
            && c < |s.k.conns|
            && (forall i :: 0 <= i < |s.peers[c].sent| ==>
                  s.peers[c].sent[i].message.number == i % WRAP32 && Genuine(facts, s.peers[c].sent[i].message, i))
            && (s.k.conns[c].stage in {Listed, Serving} ==>
                  s.k.conns[c].fd in s.table && s.table[s.k.conns[c].fd].sequenceNumber == |s.peers[c].sent| % WRAP32)
  {
    hide After;
    Reachable(facts, k, steps);
    var s := After(facts, k, steps);
    assert Sound(facts, s.peers[c]);
    if s.k.conns[c].stage in {Listed, Serving} {
      EntryReflects(s, c);
    }
  }

  // ----- The streaming gate -----

  /**
   Over every run, a broadcast is sent, once and under the connection's next number, to exactly the registered
   connections whose own history opens the gate. Whenever the read loop waits, that is: in the stream received, a
   Hello, the latest StreamingEnabled non-zero, and bit 0 set in the latest of the modes from Hello and StreamingMode.
   */
  lemma BroadcastFollowsTheGate(facts: Facts, k: Kernel, steps: seq<Step>, data: seq<byte>, takes: map<Fd, nat>, c: ConnId)
    requires Fresh(k) && c < |After(facts, k, steps).peers|
    ensures var s := After(facts, k, steps);
            var t, p := Apply(s, Broadcast(data, takes)), s.peers[c];
            && c < |s.k.conns| && c < |t.peers|
            && (if s.k.conns[c].stage in {Listed, Serving} && Open(p.acts) then
                  |t.peers[c].sent| == |p.sent| + 1 && t.peers[c].sent[..|p.sent|] == p.sent
                  && t.peers[c].sent[|p.sent|].message == IqMessage(|p.sent| % WRAP32, data)
                else t.peers[c].sent == p.sent)
            && (Settled(p) ==> (Open(p.acts) <==> HasHello(Heard(p)) && Enabled(Heard(p)) && ModeAsked(Heard(p)) % 2 == 1))
  {
    hide After, Apply, Genuine;
    Reachable(facts, k, steps);
    var s := After(facts, k, steps);
    var p := s.peers[c];
    assert Sound(facts, p);
    AfterBroadcastFor(s, c, data, takes);
    hide Ordered;
    if s.k.conns[c].stage in {Listed, Serving} {
      EntryReflects(s, c);
    }
    hide Inv, Sound, TakeCommand;
    HeardSoFar(facts, p);
    GateOfCommands(p.cmds);
  }

  // ----- The IQ a client is sent -----

  /** The bodies of the IQ messages among those sent. */
  function IqBodies(sent: seq<Attempt>): seq<seq<byte>> {
    if sent == [] then []
    else
      var m := sent[|sent| - 1].message;
      IqBodies(sent[..|sent| - 1]) + (if m.kind == UINT8_IQ then [m.body] else [])
  }

  /** The block a step broadcasts while the connection is registered with its gate open. */
  function IqPart(s: State, step: Step, c: ConnId): seq<seq<byte>> {
    if step.Broadcast? && c < |s.k.conns| && c < |s.peers| && s.k.conns[c].stage in {Listed, Serving} && Open(s.peers[c].acts)
    then [step.data] else []
  }

  ghost function IqOver(s: State, steps: seq<Step>, c: ConnId): seq<seq<byte>>
    decreases |steps|
  {
    if steps == [] then [] else IqPart(s, steps[0], c) + IqOver(Apply(s, steps[0]), steps[1..], c)
  }

  lemma IqBodiesMore(sent: seq<Attempt>, a: Attempt)
    ensures IqBodies(sent + [a]) == IqBodies(sent) + (if a.message.kind == UINT8_IQ then [a.message.body] else [])
  {
    assert (sent + [a])[..|sent|] == sent;
  }

  lemma BroadcastIqPart(s: State, data: seq<byte>, takes: map<Fd, nat>, c: ConnId)
    requires Inv(s) && c < |s.peers|
    ensures var step := Broadcast(data, takes);
            var t := Apply(s, step);
            |t.peers| == |s.peers| && IqBodies(t.peers[c].sent) == IqBodies(s.peers[c].sent) + IqPart(s, step, c)
  {
    AfterBroadcastFor(s, c, data, takes);
    hide Apply, Sound, Seen, LatestOn, LatestMode, IqBodies;
    if s.k.conns[c].stage in {Listed, Serving} {
      EntryReflects(s, c);
      var fd := s.k.conns[c].fd;
      IqBodiesMore(s.peers[c].sent, IqAttempt(s.table[fd], data, takes, fd));
    }
    hide Inv;
    assert IqBodies(s.peers[c].sent) + [] == IqBodies(s.peers[c].sent);
  }

  lemma PerformIqPart(s: State, p: ConnId, centerHz: real, taken: nat, c: ConnId)
    requires Inv(s) && CanHappen(s, Perform(p, centerHz, taken)) && c < |s.peers|
    ensures var t := Apply(s, Perform(p, centerHz, taken));
            |t.peers| == |s.peers| && IqBodies(t.peers[c].sent) == IqBodies(s.peers[c].sent)
  {
    EntryReflects(s, p);
    assert Sound(s.facts, s.peers[p]);
    ActionDone(s.peers[p].cmds, s.peers[p].acts, s.peers[p].pending, Kinds(s.peers[p].sent));
    if c == p {
      PerformNextIs(s, p, centerHz, taken);
      hide Inv, Apply, Sound, Ordered, BodyOf;
      if s.peers[p].pending[0].Reply? {
        IqBodiesMore(s.peers[p].sent, ReplyAttempt(s, p, s.peers[p].pending[0].kind, centerHz, taken));
      }
    } else {
      PerformElsewhere(s, p, centerHz, taken, c);
    }
  }

  /** A step sends a connection the block it broadcasts, if its gate is open, and no other IQ. */
  lemma StepIq(s: State, step: Step, c: ConnId)
    requires Inv(s) && c < |s.peers|
    ensures c < |Apply(s, step).peers|
    ensures IqBodies(Apply(s, step).peers[c].sent) == IqBodies(s.peers[c].sent) + IqPart(s, step, c)
  {
    assert IqBodies(s.peers[c].sent) + [] == IqBodies(s.peers[c].sent);
    if step.Broadcast? {
      BroadcastIqPart(s, step.data, step.takes, c);
    } else if step.Perform? && CanHappen(s, step) {
      PerformIqPart(s, step.c, step.centerHz, step.taken, c);
    } else {
      hide IqBodies, Inv, TakeCommand, ActionsOf;
    }
  }

  lemma NewcomerHasNone(s: State, step: Step, c: ConnId)
    requires Inv(s) && c >= |s.peers|
    ensures IqPart(s, step, c) == []
    ensures c < |Apply(s, step).peers| ==> IqBodies(Apply(s, step).peers[c].sent) == []
  {
    if step.Broadcast? {
      BroadcastDelivers(s, step.data, step.takes);
    } else if step.Perform? && CanHappen(s, step) {
      EntryReflects(s, step.c);
      PerformNextIs(s, step.c, step.centerHz, step.taken);
    }
  }

  lemma {:induction false} RunIq(s: State, steps: seq<Step>, c: ConnId)
    requires Inv(s) && c < |Run(s, steps).peers|
    ensures IqBodies(Run(s, steps).peers[c].sent)
         == (if c < |s.peers| then IqBodies(s.peers[c].sent) else []) + IqOver(s, steps, c)
    decreases |steps|
  {
    hide Inv, Apply, IqPart, IqBodies;
    if steps == [] {
      assert IqBodies(s.peers[c].sent) + [] == IqBodies(s.peers[c].sent);
    } else {
      var t := Apply(s, steps[0]);
      StepKeepsInv(s, steps[0]);
      RunIq(t, steps[1..], c);
      if c < |s.peers| {
        StepIq(s, steps[0], c);
        Associative(IqBodies(s.peers[c].sent), IqPart(s, steps[0], c), IqOver(t, steps[1..], c));
      } else {
        NewcomerHasNone(s, steps[0], c);
        assert [] + ([] + IqOver(t, steps[1..], c)) == [] + IqOver(t, steps[1..], c);
      }
    }
  }

  /**
   Over every run, the IQ a connection has been sent is, block for block and in order, what was broadcast while it was
   registered with its gate open.
   */
  lemma IqIsWhatWasBroadcast(facts: Facts, k: Kernel, steps: seq<Step>, c: ConnId)
    requires Fresh(k) && c < |After(facts, k, steps).peers|
    ensures IqBodies(After(facts, k, steps).peers[c].sent) == IqOver(Initial(facts, k), steps, c)
  {
    InitialInv(facts, k);
    hide Inv, IqBodies, IqOver;
    RunIq(Initial(facts, k), steps, c);
    assert [] + IqOver(Initial(facts, k), steps, c) == IqOver(Initial(facts, k), steps, c);
  }

  // ----- Independence -----

  predicate About(step: Step, c: ConnId) {
    (step.Register? || step.Spawn? || step.Receive? || step.Begin? || step.Perform? || step.Remove? || step.Close?) && step.c == c
  }

  /** Whatever other clients send, and whenever they come and go, a client's history and entry stay as they are. */
  lemma OthersLeaveItAlone(facts: Facts, k: Kernel, steps: seq<Step>, step: Step, c: ConnId)
    requires Fresh(k) && c < |After(facts, k, steps).peers| && !step.Broadcast? && !About(step, c)
    ensures var s := After(facts, k, steps);
            var t := Apply(s, step);
            && c < |s.k.conns| && c < |t.peers| && c < |t.k.conns|
            && t.peers[c] == s.peers[c] && t.k.conns[c] == s.k.conns[c]
            && (s.k.conns[c].stage in {Listed, Serving} ==>
                  var fd := s.k.conns[c].fd; fd in s.table && fd in t.table && t.table[fd] == s.table[fd])
  {
    hide After, Sound, Reflects;
    Reachable(facts, k, steps);
    var s := After(facts, k, steps);
    if s.k.conns[c].stage in {Listed, Serving} {
      EntryReflects(s, c);
    }
    if CanHappen(s, step) {
      if step.Perform? {
        EntryReflects(s, step.c);
        PerformElsewhere(s, step.c, step.centerHz, step.taken, c);
      } else if !step.Accept? && !step.OpenElsewhere? && !step.CloseElsewhere? {
        assert Live(s.k, step.c);
      }
    }
  }

  lemma PerformElsewhere(s: State, c: ConnId, centerHz: real, taken: nat, d: ConnId)
    requires Owned(s.k) && |s.peers| == |s.k.conns| && CanHappen(s, Perform(c, centerHz, taken)) && d < |s.peers| && d != c
    ensures var t := Apply(s, Perform(c, centerHz, taken));
            && t.k == s.k && |t.peers| == |s.peers| && t.peers[d] == s.peers[d]
            && forall fd :: fd in s.table && fd != s.k.conns[c].fd ==> fd in t.table && t.table[fd] == s.table[fd]
    ensures Live(s.k, d) ==> s.k.conns[d].fd != s.k.conns[c].fd
  {
    hide ReplyMessage, Numbered;
    assert Live(s.k, c);
  }

  // ----- Hello first -----

  lemma {:induction false} FirstIsHello(cs: seq<Request>)
    requires cs != [] && IsHello(cs[0])
    ensures HasHello(cs) && Opening(cs) == [DEVICE_INFO, CLIENT_SYNC] && !EnabledFirst(cs)
    decreases |cs|
  {
    hide IsHello;
    var front, c := cs[..|cs| - 1], cs[|cs| - 1];
    assert cs == front + [c];
    LaterCommand(front, c);
    if front == [] {
      assert RepliesTo(c) == [DEVICE_INFO, CLIENT_SYNC] by {
        HelloReplies(c);
      }
    } else {
      FirstIsHello(front);
    }
  }

  lemma HelloReplies(c: Request)
    requires IsHello(c)
    ensures RepliesTo(c) == [DEVICE_INFO, CLIENT_SYNC]
  {
  }

  lemma PrefixSends(acts: seq<Action>, all: seq<Action>)
    requires acts <= all
    ensures SendsOf(acts) <= SendsOf(all)
  {
    assert all == acts + all[|acts|..];
    SendsAppend(acts, all[|acts|..]);
  }

  /** Two sequences agree as far as both go. */
  predicate Agree(a: seq<nat>, b: seq<nat>) {
    a <= b || b <= a
  }

  /** What the commands heard so far call for, taken up or not, and what was sent. */
  lemma OpeningOfHistory(f: Facts, p: Peer)
    requires Sound(f, p) && !EnabledFirst(Heard(p))
    ensures Agree(Kinds(p.sent), Opening(Heard(p)))
    ensures UINT8_IQ in Kinds(p.sent) ==> Opening(Heard(p)) <= BeforeIq(Kinds(p.sent))
    ensures p.pending == [] ==> Opening(p.cmds) <= Kinds(p.sent)
    ensures Settled(p) ==> Opening(Heard(p)) <= Kinds(p.sent)
  {
    var kinds, heard := Kinds(p.sent), Heard(p);
    HeardSoFar(f, p);
    EnabledHasHello(p.cmds);
    OpeningIsPrefix(p.cmds);
    if HasHello(p.cmds) {
      OpeningSettled(p.cmds, heard);
    }
    assert Ordered(p.cmds, p.acts, p.pending, kinds);
    hide Sound, Heard, Kinds, TakeCommand, Opening, SendsOf, AllActions, EnabledFirst, HasHello;
    if UINT8_IQ !in kinds {
      AllReplies(kinds);
      PrefixSends(p.acts, AllActions(heard));
      OpeningIsPrefix(heard);
      PrefixesAgree(kinds, Opening(heard), SendsOf(AllActions(heard)));
    }
  }

  lemma EnabledHasHello(cs: seq<Request>)
    ensures EnabledFirst(cs) ==> HasHello(cs)
  {
  }

  lemma PrefixesAgree(a: seq<nat>, b: seq<nat>, all: seq<nat>)
    requires a <= all && b <= all
    ensures Agree(a, b)
  {
    if |a| <= |b| {
      assert a == all[..|a|] == b[..|a|];
    } else {
      assert b == all[..|b|] == a[..|b|];
    }
  }

  /** Once a Hello has been heard, what comes first is fixed. */
  lemma {:induction false} OpeningSettled(front: seq<Request>, cs: seq<Request>)
    requires front <= cs && HasHello(front)
    ensures HasHello(cs) && EnabledFirst(cs) == EnabledFirst(front) && Opening(cs) == Opening(front)
    decreases |cs|
  {
    hide IsHello, Enabled, RepliesTo;
    if front != cs {
      OpeningSettled(front, cs[..|cs| - 1]);
    } else {
      assert front == cs;
    }
  }

  /**
   Over every run, unless a connection switched streaming on ahead of its first Hello, what it is sent begins with
   the replies it is owed up to that Hello, and any IQ comes after all of them. Whenever a handler has finished, those
   called for so far have been sent; whenever the read loop waits, and when it has ended, all of them.
   */
  lemma OpeningRepliesComeFirst(facts: Facts, k: Kernel, steps: seq<Step>, c: ConnId)
    requires Fresh(k) && c < |After(facts, k, steps).peers| && !EnabledFirst(Heard(After(facts, k, steps).peers[c]))
    ensures var p := After(facts, k, steps).peers[c];
            && Agree(Kinds(p.sent), Opening(Heard(p)))
            && (UINT8_IQ in Kinds(p.sent) ==> Opening(Heard(p)) <= BeforeIq(Kinds(p.sent)))
            && (p.pending == [] ==> Opening(p.cmds) <= Kinds(p.sent))
            && (Settled(p) ==> Opening(Heard(p)) <= Kinds(p.sent))
  {
    hide After, Sound, EnabledFirst;
    Reachable(facts, k, steps);
    OpeningOfHistory(facts, After(facts, k, steps).peers[c]);
  }

  /**
   Over every run, a connection whose stream begins with a Hello is first sent DeviceInfo with number 0 and then
   ClientSync with number 1, although broadcasts may run between the three regions of the handler; and both have been
   sent once the handler has finished.
   */
  lemma HelloRepliesComeFirst(facts: Facts, k: Kernel, steps: seq<Step>, c: ConnId)
    requires Fresh(k) && c < |After(facts, k, steps).peers|
    requires var heard := Heard(After(facts, k, steps).peers[c]); heard != [] && IsHello(heard[0])
    ensures var p := After(facts, k, steps).peers[c];
            && (|p.sent| > 0 ==> p.sent[0].message == Message(DEVICE_INFO, STATUS_STREAM, 0, DeviceInfoBody(facts)))
            && (|p.sent| > 1 ==> exists hz: real :: p.sent[1].message == ReplyMessage(facts, CLIENT_SYNC, 1, hz))
            && ((p.pending == [] && p.cmds != []) || Settled(p) ==> |p.sent| >= 2)
  {
    hide After, Ordered, EnabledFirst, IsHello, Opening, DeviceInfoBody, ClientSyncBody, Heard, TakeCommand, Settled;
    Reachable(facts, k, steps);
    var p := After(facts, k, steps).peers[c];
    assert Sound(facts, p);
    FirstIsHello(Heard(p));
    HeardSoFar(facts, p);
    if p.cmds != [] {
      assert p.cmds[0] == Heard(p)[0];
      FirstIsHello(p.cmds);
    }
    OpeningRepliesComeFirst(facts, k, steps, c);
    FirstTwo(Kinds(p.sent));
    if |p.sent| > 0 {
      assert Kinds(p.sent)[0] == p.sent[0].message.kind && Genuine(facts, p.sent[0].message, 0);
    }
    if |p.sent| > 1 {
      assert Kinds(p.sent)[1] == p.sent[1].message.kind && Genuine(facts, p.sent[1].message, 1);
    }
  }

  lemma FirstTwo(kinds: seq<nat>)
    requires Agree(kinds, [DEVICE_INFO, CLIENT_SYNC])
    ensures |kinds| > 0 ==> kinds[0] == DEVICE_INFO
    ensures |kinds| > 1 ==> kinds[1] == CLIENT_SYNC
  {
  }

  // ----- Exactly when the order can fail -----

  /** IQ went out to a connection that had not been sent DeviceInfo. */
  predicate IqTooEarly(p: Peer) {
    UINT8_IQ in Kinds(p.sent) && DEVICE_INFO !in BeforeIq(Kinds(p.sent))
  }

  /** In this run, a connection that has received the stream, or the beginning of it, is sent IQ too early. */
  ghost predicate GoesWrong(facts: Facts, k: Kernel, steps: seq<Step>, c: ConnId, stream: seq<byte>) {
    var s := After(facts, k, steps);
    c < |s.peers| && s.peers[c].received <= stream && IqTooEarly(s.peers[c])
  }

  lemma {:induction false} FindFirstHello(cs: seq<Request>) returns (n: nat)
    requires EnabledFirst(cs)
    ensures n < |cs| && IsHello(cs[n]) && !HasHello(cs[..n]) && Enabled(cs[..n])
    decreases |cs|
  {
    hide IsHello, Enabled;
    var front := cs[..|cs| - 1];
    if HasHello(front) {
      n := FindFirstHello(front);
      assert front[..n] == cs[..n];
    } else {
      n := |cs| - 1;
    }
  }

  lemma RunNone(s: State)
    ensures Run(s, []) == s
  {
  }

  lemma RunCons(s: State, step: Step, rest: seq<Step>)
    ensures Run(s, [step] + rest) == Run(Apply(s, step), rest)
  {
    hide Apply;
    assert ([step] + rest)[1..] == rest;
  }

  lemma {:induction false} RunAppend(s: State, a: seq<Step>, b: seq<Step>)
    ensures Run(s, a + b) == Run(Run(s, a), b)
    decreases |a|
  {
    hide Apply;
    if a == [] {
      assert a + b == b;
    } else {
      RunAppend(Apply(s, a[0]), a[1..], b);
      assert (a + b)[1..] == a[1..] + b;
    }
  }

  /** A connection between commands, having received exactly these. */
  ghost predicate Idle(s: State, c: ConnId, cmds: seq<Request>) {
    Inv(s) && AtStage(s, c, Serving) && s.peers[c].cmds == cmds && s.peers[c].pending == [] && s.peers[c].buf == []
  }

  function Performs(c: ConnId, n: nat): (r: seq<Step>)
    ensures |r| == n
  {
    if n == 0 then [] else [Perform(c, 0.0, 0)] + Performs(c, n - 1)
  }

  lemma {:induction false} FinishCommand(s: State, c: ConnId)
    requires Inv(s) && AtStage(s, c, Serving) && s.peers[c].buf == []
    ensures Idle(Run(s, Performs(c, |s.peers[c].pending|)), c, s.peers[c].cmds)
    decreases |s.peers[c].pending|
  {
    hide Inv, Apply, Run;
    var n := |s.peers[c].pending|;
    if n == 0 {
      RunNone(s);
    } else {
      var step := Perform(c, 0.0, 0);
      StepKeepsInv(s, step);
      PerformOnce(s, c);
      FinishCommand(Apply(s, step), c);
      RunCons(s, step, Performs(c, n - 1));
    }
  }

  lemma PerformOnce(s: State, c: ConnId)
    requires AtStage(s, c, Serving) && s.peers[c].pending != []
    ensures var t := Apply(s, Perform(c, 0.0, 0));
            && AtStage(t, c, Serving) && t.peers[c].cmds == s.peers[c].cmds && t.peers[c].buf == s.peers[c].buf
            && t.peers[c].pending == s.peers[c].pending[1..] && t.peers[c].acts == s.peers[c].acts + [s.peers[c].pending[0]]
            && (!s.peers[c].pending[0].Reply? ==> t.peers[c].sent == s.peers[c].sent)
  {
    hide ReplyMessage, Numbered;
  }

  /** The steps by which a command arrives and is taken up. */
  function Arrival(c: ConnId, cmd: Request): (r: seq<Step>)
    ensures |r| == 2
  {
    [Receive(c, EncodeCommand(cmd)), Begin(c)]
  }

  lemma ArriveOnce(s: State, c: ConnId, cmd: Request)
    requires c < |s.peers| && Idle(s, c, s.peers[c].cmds)
    ensures var t := Run(s, Arrival(c, cmd));
            && Inv(t) && AtStage(t, c, Serving) && t.peers[c].cmds == s.peers[c].cmds + [cmd] && t.peers[c].buf == []
            && t.peers[c].pending == ActionsOf(cmd) && t.peers[c].acts == s.peers[c].acts && t.peers[c].sent == s.peers[c].sent
  {
    hide Inv, Apply, Run, ActionsOf, EncodeCommand, TakeCommand;
    var x := Receive(c, EncodeCommand(cmd));
    var r := Apply(s, x);
    ReceiveOnce(s, c, EncodeCommand(cmd));
    BeginOnce(r, c, cmd);
    assert Arrival(c, cmd) == [x] + [Begin(c)] && [Begin(c)] == [Begin(c)] + [];
    RunCons(s, x, [Begin(c)]);
    RunCons(r, Begin(c), []);
    RunNone(Apply(r, Begin(c)));
  }

  lemma ReceiveOnce(s: State, c: ConnId, bytes: seq<byte>)
    requires c < |s.peers| && Idle(s, c, s.peers[c].cmds) && bytes != []
    ensures var t := Apply(s, Receive(c, bytes));
            && Inv(t) && AtStage(t, c, Serving)
            && t.peers[c] == s.peers[c].(received := s.peers[c].received + bytes, buf := bytes)
  {
    NothingBuffered();
    hide Inv, TakeCommand;
    StepKeepsInv(s, Receive(c, bytes));
    assert [] + bytes == bytes;
  }

  lemma NothingBuffered()
    ensures TakeCommand([]).More?
  {
  }

  lemma BeginOnce(s: State, c: ConnId, cmd: Request)
    requires Inv(s) && AtStage(s, c, Serving) && s.peers[c].pending == [] && s.peers[c].buf == EncodeCommand(cmd)
    ensures var t := Apply(s, Begin(c));
            && Inv(t) && AtStage(t, c, Serving)
            && t.peers[c] == s.peers[c].(cmds := s.peers[c].cmds + [cmd], pending := ActionsOf(cmd), buf := [])
  {
    StepKeepsInv(s, Begin(c));
    CommandRoundTrip(cmd, []);
    hide Inv, ActionsOf, TakeCommand, EncodeCommand;
    assert EncodeCommand(cmd) + [] == EncodeCommand(cmd);
    assert EncodeCommand(cmd)[|EncodeCommand(cmd)|..] == [];
  }

  /** A lone client's commands can all be handled, whatever they are. */
  lemma {:induction false} HandleThem(s: State, c: ConnId, cs: seq<Request>) returns (steps: seq<Step>)
    requires Idle(s, c, [])
    ensures Idle(Run(s, steps), c, cs)
    decreases |cs|
  {
    hide Inv, Apply, ActionsOf, Run;
    if cs == [] {
      steps := [];
      RunNone(s);
    } else {
      var front, cmd := cs[..|cs| - 1], cs[|cs| - 1];
      var before := HandleThem(s, c, front);
      var t := Run(s, before);
      ArriveOnce(t, c, cmd);
      var u := Run(t, Arrival(c, cmd));
      FinishCommand(u, c);
      var rest := Performs(c, |u.peers[c].pending|);
      RunAppend(t, Arrival(c, cmd), rest);
      RunAppend(s, before, Arrival(c, cmd) + rest);
      assert front + [cmd] == cs;
      steps := before + (Arrival(c, cmd) + rest);
    }
  }

  lemma FreeDescriptor(k: Kernel) returns (fd: Fd)
    ensures fd !in k.open
  {
    if k.open.Keys == {} {
      fd := 0;
    } else {
      fd := Least(k.open.Keys) - 1;
    }
  }

  lemma FirstClient(facts: Facts, k: Kernel) returns (steps: seq<Step>)
    requires Fresh(k)
    ensures Idle(After(facts, k, steps), 0, [])
  {
    var fd := FreeDescriptor(k);
    var s0 := Initial(facts, k);
    steps := [Accept(fd), Register(0), Spawn(0)];
    RunThree(s0, Accept(fd), Register(0), Spawn(0));
    Reachable(facts, k, steps);
    hide Inv;
    var s1 := Apply(s0, Accept(fd));
    assert s1.peers == [NEW_PEER] && AtStage(s1, 0, Accepted);
    var s2 := Apply(s1, Register(0));
    assert s2.peers == [NEW_PEER] && AtStage(s2, 0, Listed);
    var s3 := Apply(s2, Spawn(0));
    assert s3.peers == [NEW_PEER] && AtStage(s3, 0, Serving);
  }

  /** Where a Hello's handler stands after its first region. */
  lemma GreetOnce(s: State, c: ConnId, front: seq<Request>, hello: Request) returns (u: State)
    requires Idle(s, c, front) && IsHello(hello)
    ensures u == Apply(Run(s, Arrival(c, hello)), Perform(c, 0.0, 0))
    ensures Inv(u) && AtStage(u, c, Serving) && u.peers[c].cmds == front + [hello]
    ensures c < |s.peers| && u.peers[c].acts == s.peers[c].acts + [Greet] && u.peers[c].sent == s.peers[c].sent
    ensures u.peers[c].buf == []
  {
    ArriveOnce(s, c, hello);
    hide Inv, Apply, Run;
    var t := Run(s, Arrival(c, hello));
    PerformOnce(t, c);
    StepKeepsInv(t, Perform(c, 0.0, 0));
    u := Apply(t, Perform(c, 0.0, 0));
  }

  /** The gate being open, a broadcast is the next thing sent. */
  lemma BroadcastNow(u: State, c: ConnId)
    requires Inv(u) && AtStage(u, c, Serving) && Open(u.peers[c].acts)
    ensures var t := Apply(u, Broadcast([], map[]));
            && c < |t.peers| && t.peers[c].received == u.peers[c].received
            && Kinds(t.peers[c].sent) == Kinds(u.peers[c].sent) + [UINT8_IQ]
  {
    hide Sound, Apply;
    EntryReflects(u, c);
    AfterBroadcastFor(u, c, [], map[]);
    var fd := u.k.conns[c].fd;
    KindsAppend(u.peers[c].sent, IqAttempt(u.table[fd], [], map[], fd));
  }

  /** Once the handler of such a Hello has marked the handshake, a broadcast gets in before DeviceInfo. */
  lemma BroadcastGetsIn(s: State, c: ConnId, front: seq<Request>, hello: Request)
    requires Idle(s, c, front) && !HasHello(front) && Enabled(front) && IsHello(hello)
    ensures var t := Run(s, Arrival(c, hello) + [Perform(c, 0.0, 0), Broadcast([], map[])]);
            c < |t.peers| && t.peers[c].received == EncodeCommands(front + [hello]) && IqTooEarly(t.peers[c])
  {
    var y, z := Perform(c, 0.0, 0), Broadcast([], map[]);
    assert Sound(s.facts, s.peers[c]);
    var u := GreetOnce(s, c, front, hello);
    ReceivedIs(u, c);
    hide Inv, Apply, Sound, Open, HasHello, Enabled, IsHello, Ordered, Kinds, Run, BeforeIq, Arrival, EncodeCommands;
    GateOpensAtGreet(s.facts, s.peers[c]);
    BroadcastNow(u, c);
    FirstIq(Kinds(s.peers[c].sent));
    RunAppend(s, Arrival(c, hello), [y, z]);
    assert [y, z] == [y] + [z] && [z] == [z] + [];
    RunCons(Run(s, Arrival(c, hello)), y, [z]);
    RunCons(u, z, []);
    RunNone(Apply(u, z));
  }

  lemma ReceivedIs(u: State, c: ConnId)
    requires Inv(u) && c < |u.peers| && u.peers[c].buf == []
    ensures u.peers[c].received == EncodeCommands(u.peers[c].cmds)
  {
    assert Sound(u.facts, u.peers[c]);
    assert EncodeCommands(u.peers[c].cmds) + [] == EncodeCommands(u.peers[c].cmds);
  }

  lemma RunThree(s: State, x: Step, y: Step, z: Step)
    ensures Run(s, [x, y, z]) == Apply(Apply(Apply(s, x), y), z)
  {
    hide Run, Apply;
    var t := Apply(s, x);
    assert [x, y, z] == [x] + [y, z] && [y, z] == [y] + [z] && [z] == [z] + [];
    RunCons(s, x, [y, z]);
    RunCons(t, y, [z]);
    RunCons(Apply(t, y), z, []);
    RunNone(Apply(Apply(t, y), z));
  }

  lemma GateOpensAtGreet(f: Facts, p: Peer)
    requires Sound(f, p) && p.pending == [] && !HasHello(p.cmds) && Enabled(p.cmds)
    ensures Open(p.acts + [Greet]) && UINT8_IQ !in Kinds(p.sent) && DEVICE_INFO !in Kinds(p.sent)
  {
    assert p.acts + [] == p.acts;
    GateOfCommands(p.cmds);
    OpeningIsPrefix(p.cmds);
    hide Seen, LatestOn, LatestMode, HasHello, Enabled, Opening, SendsOf;
    AllReplies(Kinds(p.sent));
    Latest(false, 0, p.acts, Greet);
  }

  /**
   The order holds exactly for clients that do not switch streaming on ahead of their first Hello: for any other
   byte stream a client may send there is an interleaving in which IQ reaches it before DeviceInfo.
   */
  lemma OrderFailsExactlyWhenEnabledFirst(facts: Facts, k: Kernel, stream: seq<byte>)
    requires Fresh(k)
    ensures EnabledFirst(ParseCommands(stream).items)
       <==> exists steps: seq<Step>, c: ConnId :: GoesWrong(facts, k, steps, c, stream)
  {
    hide EnabledFirst, ParseCommands;
    if EnabledFirst(ParseCommands(stream).items) {
      var steps := EarlyEnableGoesWrong(facts, k, stream);
      assert GoesWrong(facts, k, steps, 0, stream);
    }
    forall steps: seq<Step>, c: ConnId | GoesWrong(facts, k, steps, c, stream) ensures EnabledFirst(ParseCommands(stream).items) {
      OnlyEarlyEnable(facts, k, steps, c, stream);
    }
  }

  lemma EarlyEnableGoesWrong(facts: Facts, k: Kernel, stream: seq<byte>) returns (steps: seq<Step>)
    requires Fresh(k) && EnabledFirst(ParseCommands(stream).items)
    ensures GoesWrong(facts, k, steps, 0, stream)
  {
    hide Inv, Apply, IsHello, EnabledFirst, HasHello, Enabled, ParseCommands, EncodeCommands;
    var cmds := ParseCommands(stream).items;
    var n := FindFirstHello(cmds);
    var start := FirstClient(facts, k);
    var s := After(facts, k, start);
    var middle := HandleThem(s, 0, cmds[..n]);
    var last := Arrival(0, cmds[n]) + [Perform(0, 0.0, 0), Broadcast([], map[])];
    BroadcastGetsIn(Run(s, middle), 0, cmds[..n], cmds[n]);
    RunAppend(s, middle, last);
    RunAppend(Initial(facts, k), start, middle + last);
    steps := start + (middle + last);
    assert cmds[..n] + [cmds[n]] == cmds[..n + 1];
    StreamBegins(stream, n + 1);
  }

  /** A stream begins with its first commands, re-encoded. */
  lemma StreamBegins(stream: seq<byte>, n: nat)
    requires n <= |ParseCommands(stream).items|
    ensures EncodeCommands(ParseCommands(stream).items[..n]) <= stream
  {
    ParseIsExact(stream);
    hide ParseCommands, EncodeCommands, Oversized;
    var cs := ParseCommands(stream).items;
    assert cs == cs[..n] + cs[n..];
    EncodeCommandsConcat(cs[..n], cs[n..]);
  }

  lemma {:induction false} EncodeCommandsConcat(xs: seq<Request>, ys: seq<Request>)
    ensures EncodeCommands(xs + ys) == EncodeCommands(xs) + EncodeCommands(ys)
  {
    hide EncodeCommand;
    if xs == [] {
      assert xs + ys == ys && [] + EncodeCommands(ys) == EncodeCommands(ys);
    } else {
      EncodeCommandsConcat(xs[1..], ys);
      assert (xs + ys)[1..] == xs[1..] + ys;
      Associative(EncodeCommand(xs[0]), EncodeCommands(xs[1..]), EncodeCommands(ys));
    }
  }

  lemma OnlyEarlyEnable(facts: Facts, k: Kernel, steps: seq<Step>, c: ConnId, stream: seq<byte>)
    requires Fresh(k) && GoesWrong(facts, k, steps, c, stream)
    ensures EnabledFirst(ParseCommands(stream).items)
  {
    hide After, IsHello, EnabledFirst, HasHello, Opening, TakeCommand, AllActions;
    Reachable(facts, k, steps);
    var p := After(facts, k, steps).peers[c];
    assert Sound(facts, p);
    HeardSoFar(facts, p);
    ParseGrows(p.received, stream);
    OpeningSettled(p.cmds, ParseCommands(stream).items);
    OpeningIsPrefix(p.cmds);
  }

  // ----- The bytes on the wire -----

  predicate Whole(a: Attempt) {
    a.taken >= |EncodeMessage(a.message)|
  }

  /** What the socket took, in order. */
  function Wire(sent: seq<Attempt>): seq<byte> {
    if sent == [] then []
    else (if Whole(sent[0]) then EncodeMessage(sent[0].message) else EncodeMessage(sent[0].message)[..sent[0].taken]) + Wire(sent[1..])
  }

  function Completed(sent: seq<Attempt>): seq<Message> {
    if sent == [] then [] else (if Whole(sent[0]) then [sent[0].message] else []) + Completed(sent[1..])
  }

  lemma {:induction false} CompletedOnWire(sent: seq<Attempt>)
    requires forall i :: 0 <= i < |sent| ==> sent[i].taken == 0 || Whole(sent[i])
    ensures Wire(sent) == EncodeMessages(Completed(sent))
  {
    hide EncodeMessage;
    if sent != [] {
      CompletedOnWire(sent[1..]);
      var rest := Completed(sent[1..]);
      if Whole(sent[0]) {
        assert ([sent[0].message] + rest)[1..] == rest;
      } else {
        assert EncodeMessage(sent[0].message)[..0] == [];
        assert [] + Wire(sent[1..]) == Wire(sent[1..]) && [] + rest == rest;
      }
    }
  }

  lemma {:induction false} CompletedFit(sent: seq<Attempt>)
    requires forall i :: 0 <= i < |sent| ==> Fits(sent[i].message)
    ensures forall i :: 0 <= i < |Completed(sent)| ==> Fits(Completed(sent)[i])
  {
    hide Fits, Whole;
    if sent != [] {
      CompletedFit(sent[1..]);
    }
  }

  /**
   Over every run, if each send to a connection was complete or took nothing, and no IQ block is 2^32 bytes or
   longer, the bytes on its wire parse back into exactly the completed messages, with nothing left over.
   */
  lemma WireParsesBack(facts: Facts, k: Kernel, steps: seq<Step>, c: ConnId)
    requires Fresh(k) && c < |After(facts, k, steps).peers|
    requires var sent := After(facts, k, steps).peers[c].sent;
             forall i :: 0 <= i < |sent| ==> (sent[i].taken == 0 || Whole(sent[i])) && |sent[i].message.body| < WRAP32
    ensures var sent := After(facts, k, steps).peers[c].sent;
            ParseMessages(Wire(sent)) == Incremental.Drained(Completed(sent), [], false)
  {
    hide After, Wire, Completed, Whole, Ordered;
    Reachable(facts, k, steps);
    var sent := After(facts, k, steps).peers[c].sent;
    assert Sound(facts, After(facts, k, steps).peers[c]);
    CompletedOnWire(sent);
    forall i | 0 <= i < |sent| ensures Fits(sent[i].message) {
      GenuineFits(facts, sent[i].message, i);
    }
    CompletedFit(sent);
    MessagesParseBack(Completed(sent));
  }

  lemma GenuineFits(f: Facts, m: Message, place: nat)
    requires Genuine(f, m, place)
    ensures FieldsFit(m)
  {
  }
}
