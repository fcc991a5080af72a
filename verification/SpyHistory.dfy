/**
 What one SpyServer client may observe, as functions of the commands it sent: whether it is being streamed to,
 which replies it is owed, and which of them must come before any IQ.
 */
module SpyHistory {
  import opened Bytes
  import opened SpyProtocol
  import opened SpyServer

  // ----- Reading the actions performed so far -----

  function Seen(start: bool, xs: seq<Action>): bool {
    if xs == [] then start else xs[|xs| - 1].Greet? || Seen(start, xs[..|xs| - 1])
  }

  /** The latest StreamingEnabled setting. */
  function LatestOn(start: bool, xs: seq<Action>): bool {
    if xs == [] then start
    else if xs[|xs| - 1].SetEnabled? then xs[|xs| - 1].on
    else LatestOn(start, xs[..|xs| - 1])
  }

  /** The latest of the modes set by Hello, which asks for IQ, and by StreamingMode. */
  function LatestMode(start: nat, xs: seq<Action>): nat {
    if xs == [] then start
    else if xs[|xs| - 1].Greet? then IQ_STREAM
    else if xs[|xs| - 1].SetMode? then xs[|xs| - 1].mode
    else LatestMode(start, xs[..|xs| - 1])
  }

  /** Whether a client that has had these actions performed is streamed to. */
  predicate Open(xs: seq<Action>) {
    Seen(false, xs) && LatestOn(false, xs) && LatestMode(0, xs) % 2 == 1
  }

  lemma Latest(start: bool, mode: nat, xs: seq<Action>, a: Action)
    ensures Seen(start, xs + [a]) == (a.Greet? || Seen(start, xs))
    ensures LatestOn(start, xs + [a]) == if a.SetEnabled? then a.on else LatestOn(start, xs)
    ensures LatestMode(mode, xs + [a])
         == if a.Greet? then IQ_STREAM else if a.SetMode? then a.mode else LatestMode(mode, xs)
  {
    assert (xs + [a])[..|xs|] == xs;
  }

  lemma {:induction false} HistoryAppend(start: bool, mode: nat, xs: seq<Action>, ys: seq<Action>)
    ensures Seen(start, xs + ys) == Seen(Seen(start, xs), ys)
    ensures LatestOn(start, xs + ys) == LatestOn(LatestOn(start, xs), ys)
    ensures LatestMode(mode, xs + ys) == LatestMode(LatestMode(mode, xs), ys)
    decreases |ys|
  {
    if ys == [] {
      assert xs + ys == xs;
    } else {
      var front, a := ys[..|ys| - 1], ys[|ys| - 1];
      HistoryAppend(start, mode, xs, front);
      assert xs + ys == (xs + front) + [a] && ys == front + [a];
      Latest(start, mode, xs + front, a);
      Latest(Seen(start, xs), LatestMode(mode, xs), front, a);
      Latest(LatestOn(start, xs), mode, front, a);
    }
  }

  /** The kinds of the replies among some actions. */
  function SendsOf(xs: seq<Action>): seq<nat> {
    if xs == [] then []
    else SendsOf(xs[..|xs| - 1]) + (if xs[|xs| - 1].Reply? then [xs[|xs| - 1].kind] else [])
  }

  lemma {:induction false} SendsAppend(xs: seq<Action>, ys: seq<Action>)
    ensures SendsOf(xs + ys) == SendsOf(xs) + SendsOf(ys)
    decreases |ys|
  {
    if ys == [] {
      assert xs + ys == xs;
    } else {
      SendsAppend(xs, ys[..|ys| - 1]);
      assert (xs + ys)[..|xs + ys| - 1] == xs + ys[..|ys| - 1];
    }
  }

  // ----- Reading the commands received so far -----

  predicate IsHello(c: Request) {
    c.kind == HELLO && |c.body| >= 4
  }

  predicate HasHello(cs: seq<Request>) {
    cs != [] && (IsHello(cs[|cs| - 1]) || HasHello(cs[..|cs| - 1]))
  }

  /** Whether the latest StreamingEnabled value received is non-zero. */
  predicate Enabled(cs: seq<Request>) {
    cs != [] && (if Sets(cs[|cs| - 1], STREAMING_ENABLED) then Word(cs[|cs| - 1].body, 4) != 0 else Enabled(cs[..|cs| - 1]))
  }

  /** The latest mode asked for, by Hello or by StreamingMode. */
  function ModeAsked(cs: seq<Request>): nat {
    if cs == [] then 0
    else if IsHello(cs[|cs| - 1]) then IQ_STREAM
    else if Sets(cs[|cs| - 1], STREAMING_MODE) then Word(cs[|cs| - 1].body, 4)
    else ModeAsked(cs[..|cs| - 1])
  }

  /** Streaming was switched on, and left on, before the first Hello. */
  predicate EnabledFirst(cs: seq<Request>) {
    && cs != []
    && (if HasHello(cs[..|cs| - 1]) then EnabledFirst(cs[..|cs| - 1])
        else IsHello(cs[|cs| - 1]) && Enabled(cs[..|cs| - 1]))
  }

  function RepliesTo(c: Request): seq<nat> {
    if IsHello(c) then [DEVICE_INFO, CLIENT_SYNC] else if c.kind == PING then [PONG] else []
  }

  /** The replies owed up to and including those to the first Hello. */
  function Opening(cs: seq<Request>): seq<nat> {
    if cs == [] then []
    else Opening(cs[..|cs| - 1]) + (if HasHello(cs[..|cs| - 1]) then [] else RepliesTo(cs[|cs| - 1]))
  }

  // ----- From commands to actions -----

  lemma {:induction false} AllActionsAppend(xs: seq<Request>, ys: seq<Request>)
    ensures AllActions(xs + ys) == AllActions(xs) + AllActions(ys)
    decreases |xs|
  {
    hide ActionsOf;
    if xs == [] {
      assert xs + ys == ys;
    } else {
      AllActionsAppend(xs[1..], ys);
      assert (xs + ys)[1..] == xs[1..] + ys;
      Associative(ActionsOf(xs[0]), AllActions(xs[1..]), AllActions(ys));
    }
  }

  lemma OneMore(cs: seq<Request>, c: Request)
    ensures AllActions(cs + [c]) == AllActions(cs) + ActionsOf(c)
  {
    hide ActionsOf;
    AllActionsAppend(cs, [c]);
    assert [c][1..] == [];
    assert AllActions([c]) == ActionsOf(c) + [];
  }

  lemma Three(a: Action, b: Action, c: Action)
    ensures [a, b, c] == [a, b] + [c] && [a, b] == [a] + [b] && [a] == [] + [a]
  {
  }

  /** What one command's actions do to the history. */
  lemma CommandHistory(start: bool, mode: nat, c: Request)
    ensures Seen(start, ActionsOf(c)) == (start || IsHello(c))
    ensures LatestOn(start, ActionsOf(c)) == if Sets(c, STREAMING_ENABLED) then Word(c.body, 4) != 0 else start
    ensures LatestMode(mode, ActionsOf(c))
         == if IsHello(c) then IQ_STREAM else if Sets(c, STREAMING_MODE) then Word(c.body, 4) else mode
    ensures SendsOf(ActionsOf(c)) == RepliesTo(c)
  {
    hide Word;
    Three(Greet, Reply(DEVICE_INFO), Reply(CLIENT_SYNC));
    if IsHello(c) {
      HelloHistory(start, mode);
    } else if ActionsOf(c) != [] {
      var a := ActionsOf(c)[0];
      assert ActionsOf(c) == [] + [a];
      Latest(start, mode, [], a);
      SendsAppend([], [a]);
      assert [a][..0] == [];
    }
  }

  lemma HelloHistory(start: bool, mode: nat)
    ensures var xs := [Greet, Reply(DEVICE_INFO), Reply(CLIENT_SYNC)];
            && Seen(start, xs) && LatestOn(start, xs) == start && LatestMode(mode, xs) == IQ_STREAM
            && SendsOf(xs) == [DEVICE_INFO, CLIENT_SYNC]
  {
    var x, y, z := Greet, Reply(DEVICE_INFO), Reply(CLIENT_SYNC);
    Three(x, y, z);
    Latest(start, mode, [], x);
    Latest(start, mode, [x], y);
    Latest(start, mode, [x, y], z);
    assert [x, y, z][..2] == [x, y] && [x, y][..1] == [x] && [x][..0] == [];
    assert SendsOf([x]) == [] + [];
    assert SendsOf([x, y]) == SendsOf([x]) + [DEVICE_INFO];
    assert SendsOf([x, y, z]) == SendsOf([x, y]) + [CLIENT_SYNC];
  }

  /** Once every command has been acted on, the gate reads off the commands. */
  lemma {:induction false} GateOfCommands(cs: seq<Request>)
    ensures Seen(false, AllActions(cs)) == HasHello(cs)
    ensures LatestOn(false, AllActions(cs)) == Enabled(cs)
    ensures LatestMode(0, AllActions(cs)) == ModeAsked(cs)
  {
    hide ActionsOf, Word, IsHello;
    if cs != [] {
      var front, c := cs[..|cs| - 1], cs[|cs| - 1];
      GateOfCommands(front);
      OneMore(front, c);
      assert cs == front + [c];
      HistoryAppend(false, 0, AllActions(front), ActionsOf(c));
      CommandHistory(HasHello(front), ModeAsked(front), c);
      CommandHistory(Enabled(front), ModeAsked(front), c);
    }
  }

  /** The opening replies are the first ones all the commands call for. */
  lemma {:induction false} OpeningIsPrefix(cs: seq<Request>)
    ensures Opening(cs) <= SendsOf(AllActions(cs))
    ensures !HasHello(cs) ==> Opening(cs) == SendsOf(AllActions(cs))
    ensures HasHello(cs) ==> DEVICE_INFO in Opening(cs) && CLIENT_SYNC in Opening(cs)
    ensures !HasHello(cs) ==> DEVICE_INFO !in Opening(cs)
  {
    hide ActionsOf;
    if cs != [] {
      var front, c := cs[..|cs| - 1], cs[|cs| - 1];
      OpeningIsPrefix(front);
      OneMore(front, c);
      assert cs == front + [c];
      SendsAppend(AllActions(front), ActionsOf(c));
      CommandHistory(false, 0, c);
      if IsHello(c) {
        assert RepliesTo(c)[0] == DEVICE_INFO && RepliesTo(c)[1] == CLIENT_SYNC;
      }
    }
  }

  lemma LaterCommand(cs: seq<Request>, c: Request)
    ensures HasHello(cs + [c]) == (IsHello(c) || HasHello(cs))
    ensures Opening(cs + [c]) == Opening(cs) + (if HasHello(cs) then [] else RepliesTo(c))
    ensures EnabledFirst(cs + [c]) == if HasHello(cs) then EnabledFirst(cs) else IsHello(c) && Enabled(cs)
  {
    hide IsHello, RepliesTo, Enabled;
    assert (cs + [c])[..|cs|] == cs;
  }

  /**
   The heart of the ordering claim. If streaming was not switched on ahead of the first Hello, then at any moment
   when the gate is open, even in the middle of a command, the opening replies have all been sent.
   */
  lemma {:induction false} OpenMeansReplied(cs: seq<Request>, acts: seq<Action>)
    requires acts <= AllActions(cs) && Open(acts)
    ensures HasHello(cs)
    ensures !EnabledFirst(cs) ==> Opening(cs) <= SendsOf(acts)
    decreases |cs|
  {
    hide ActionsOf, Word, LatestMode;
    if cs != [] {
      var front, c := cs[..|cs| - 1], cs[|cs| - 1];
      assert cs == front + [c];
      OneMore(front, c);
      LaterCommand(front, c);
      if |acts| <= |AllActions(front)| {
        assert acts <= AllActions(front);
        OpenMeansReplied(front, acts);
      } else {
        var tail := acts[|AllActions(front)|..];
        assert acts == AllActions(front) + tail && tail <= ActionsOf(c);
        InTheMiddle(front, c, tail);
      }
    }
  }

  lemma InTheMiddle(front: seq<Request>, c: Request, tail: seq<Action>)
    requires tail <= ActionsOf(c) && Seen(false, AllActions(front) + tail) && LatestOn(false, AllActions(front) + tail)
    ensures HasHello(front + [c])
    ensures !EnabledFirst(front + [c]) ==> Opening(front + [c]) <= SendsOf(AllActions(front) + tail)
  {
    hide ActionsOf, Word;
    LaterCommand(front, c);
    GateOfCommands(front);
    HistoryAppend(false, 0, AllActions(front), tail);
    SendsAppend(AllActions(front), tail);
    OpeningIsPrefix(front);
    PartOfCommand(HasHello(front), c, tail);
    PartOfCommand(Enabled(front), c, tail);
  }

  /** Only a Hello marks the handshake, and no part of a Hello switches streaming on. */
  lemma PartOfCommand(start: bool, c: Request, tail: seq<Action>)
    requires tail <= ActionsOf(c)
    ensures Seen(start, tail) ==> start || IsHello(c)
    ensures IsHello(c) ==> LatestOn(start, tail) == start
  {
    hide Word;
    CommandHistory(start, 0, c);
    var x, y, z := Greet, Reply(DEVICE_INFO), Reply(CLIENT_SYNC);
    if IsHello(c) {
      assert [x, y, z][..2] == [x, y] && [x, y][..1] == [x] && [x][..0] == [];
      assert tail == [] || tail == [x] || tail == [x, y] || tail == [x, y, z];
    } else {
      assert |ActionsOf(c)| <= 1;
      assert tail == [] || tail == ActionsOf(c);
    }
  }

  // ----- Reading the messages sent so far -----

  /** The kinds of the replies among the messages sent. */
  function Replies(kinds: seq<nat>): seq<nat> {
    if kinds == [] then []
    else Replies(kinds[..|kinds| - 1]) + (if kinds[|kinds| - 1] == UINT8_IQ then [] else [kinds[|kinds| - 1]])
  }

  /** What was sent before the first IQ message. */
  function BeforeIq(kinds: seq<nat>): (r: seq<nat>)
    ensures r <= kinds && UINT8_IQ !in r
    ensures UINT8_IQ !in kinds ==> r == kinds
    ensures UINT8_IQ in kinds ==> |r| < |kinds| && kinds[|r|] == UINT8_IQ
  {
    if kinds == [] then []
    else if UINT8_IQ in kinds[..|kinds| - 1] then BeforeIq(kinds[..|kinds| - 1])
    else if kinds[|kinds| - 1] == UINT8_IQ then kinds[..|kinds| - 1]
    else kinds
  }

  lemma LaterMessage(kinds: seq<nat>, k: nat)
    ensures Replies(kinds + [k]) == Replies(kinds) + (if k == UINT8_IQ then [] else [k])
    ensures UINT8_IQ in kinds || k == UINT8_IQ ==> BeforeIq(kinds + [k]) == BeforeIq(kinds)
  {
    assert (kinds + [k])[..|kinds|] == kinds;
  }

  lemma {:induction false} AllReplies(kinds: seq<nat>)
    requires UINT8_IQ !in kinds
    ensures Replies(kinds) == kinds
  {
    if kinds != [] {
      AllReplies(kinds[..|kinds| - 1]);
      assert kinds == kinds[..|kinds| - 1] + [kinds[|kinds| - 1]];
    }
  }

  /** No action of any command sends IQ. */
  lemma {:induction false} RepliesAreNotIq(cs: seq<Request>)
    ensures forall a :: a in AllActions(cs) && a.Reply? ==> a.kind in {DEVICE_INFO, CLIENT_SYNC, PONG}
  {
    hide Word;
    if cs != [] {
      RepliesAreNotIq(cs[1..]);
    }
  }
}
