/**
 The SDRplay device as an acquire/release machine: connect makes a chain of vendor calls any of which can fail,
 and close undoes what was acquired, guided by the object's flags.
 */
module Sdrplay {
  import opened Bytes

  /** The steps of connect. Choose, picking a device, is the only one that is not a vendor call. */
  datatype Call = Open | Lock | GetDevices | Choose | Select | Unlock | GetParams | Init

  datatype Event = Tried(call: Call, ok: bool) | Uninit | Release | Close

  datatype Device = Device(serial: string, handle: bool)

  /** How the vendor library answers one connect, and what the configuration asks for. */
  datatype Script = Script(
    openOk: bool, lockOk: bool, devicesOk: bool, devices: seq<Device>, wanted: Option<string>,
    selectOk: bool, selectedHandle: bool, unlockOk: bool, paramsOk: bool, initOk: bool)

  /** The flags of the object: what it holds. `handle` is whether device_.dev is non-null. */
  datatype Held = Held(isOpen: bool, selected: bool, initialized: bool, handle: bool, params: bool)

  const NOTHING := Held(false, false, false, false, false)

  // ----- Choosing a device -----

  /** The first device with a serial number, or the number of devices if there is none. */
  function FirstWith(devices: seq<Device>, serial: string): (i: nat)
    ensures i <= |devices|
    ensures i < |devices| ==> devices[i].serial == serial
    ensures forall j :: 0 <= j < i ==> devices[j].serial != serial
  {
    if devices == [] then 0
    else if devices[0].serial == serial then 0
    else
      var i := FirstWith(devices[1..], serial);
      assert forall j :: 0 < j < i + 1 ==> devices[j] == devices[1..][j - 1];
      i + 1
  }

  function Chosen(s: Script): nat {
    if s.wanted.None? then 0 else FirstWith(s.devices, s.wanted.value)
  }

  // ----- One connect -----

  /** Whether a step succeeds once it is reached. */
  predicate Works(s: Script, c: Call) {
    match c
    case Open => s.openOk
    case Lock => s.lockOk
    case GetDevices => s.devicesOk
    case Choose => Chosen(s) < |s.devices|
    case Select => s.selectOk
    case Unlock => s.unlockOk
    case GetParams => s.paramsOk
    case Init => s.initOk
  }

  /** Steps are made in order up to and including the first that fails. */
  function Attempts(s: Script, calls: seq<Call>): seq<Event> {
    if calls == [] then []
    else [Tried(calls[0], Works(s, calls[0]))] + (if Works(s, calls[0]) then Attempts(s, calls[1..]) else [])
  }

  /** The steps that come after one. */
  function Later(c: Call): seq<Call> {
    match c
    case Open => [Lock, GetDevices, Choose, Select, Unlock, GetParams, Init]
    case Lock => [GetDevices, Choose, Select, Unlock, GetParams, Init]
    case GetDevices => [Choose, Select, Unlock, GetParams, Init]
    case Choose => [Select, Unlock, GetParams, Init]
    case Select => [Unlock, GetParams, Init]
    case Unlock => [GetParams, Init]
    case GetParams => [Init]
    case Init => []
  }

  function Made(s: Script): seq<Event> {
    Attempts(s, [Open] + Later(Open))
  }

  predicate Succeeds(s: Script, calls: seq<Call>, c: Call) {
    Tried(c, true) in Attempts(s, calls)
  }

  /** The call was made and succeeded. */
  predicate Did(s: Script, c: Call) {
    Succeeds(s, [Open] + Later(Open), c)
  }

  /** What the flags say once connect got as far as it could. */
  function Gained(h: Held, s: Script): Held {
    Held(
      h.isOpen || Did(s, Open),
      h.selected || Did(s, Select),
      h.initialized || Did(s, Init),
      if Did(s, Select) then s.selectedHandle else if Did(s, Choose) && Chosen(s) < |s.devices| then s.devices[Chosen(s)].handle else h.handle,
      h.params || Did(s, GetParams))
  }

  /** What close does: the calls it makes, in order, for what the flags say is held. */
  function Cleanup(h: Held): seq<Event> {
    if !h.isOpen then []
    else (if h.initialized && h.handle then [Uninit] else []) + (if h.selected then [Release] else []) + [Close]
  }

  function Dropped(h: Held): Held {
    if !h.isOpen then h else Held(false, false, h.initialized && !h.handle, h.handle, false)
  }

  datatype World = World(held: Held, trace: seq<Event>)

  function AfterClose(w: World): World {
    World(Dropped(w.held), w.trace + Cleanup(w.held))
  }

  /** The moment in connect just before success is reported or the cleanup starts. */
  function Reached(w: World, s: Script): World {
    World(Gained(w.held, s), w.trace + Made(s))
  }

  /** connect: the steps that could be made, and, if one after Open failed, everything close does. */
  function AfterConnect(w: World, s: Script): World {
    if Did(s, Init) || !Did(s, Open) then Reached(w, s) else AfterClose(Reached(w, s))
  }

  // ----- The object -----

  class Client {
    var isOpen: bool
    var deviceSelected: bool
    var initialized: bool
    var handle: bool
    var hasParams: bool
    /** Every vendor call so far, and every choice of a device. */
    var trace: seq<Event>

    ghost function Now(): World
      reads this
    {
      World(Held(isOpen, deviceSelected, initialized, handle, hasParams), trace)
    }

    constructor ()
      ensures Now() == World(NOTHING, [])
    {
      isOpen, deviceSelected, initialized, handle, hasParams := false, false, false, false, false;
      trace := [];
    }

    /** Records a call's outcome; checkOrThrow fails on anything but success. */
    method Try(c: Call, outcome: bool, ghost s: Script, ghost later: seq<Call>) returns (ok: bool)
      requires outcome == Works(s, c)
      modifies this`trace
      ensures ok == Works(s, c)
      ensures trace + (if ok then Attempts(s, later) else []) == old(trace) + Attempts(s, [c] + later)
    {
      hide Works;
      AttemptsFirst(s, c, later);
      trace := trace + [Tried(c, outcome)];
      ok := outcome;
    }

    /** Picks the configured device, or the first one. */
    method ChooseDevice(s: Script) returns (index: int)
      ensures index == if Chosen(s) < |s.devices| then Chosen(s) else -1
    {
      if |s.devices| == 0 {
        return -1;
      }
      if s.wanted.None? {
        return 0;
      }
      for i := 0 to |s.devices|
        invariant i <= FirstWith(s.devices, s.wanted.value)
      {
        if s.devices[i].serial == s.wanted.value {
          return i;
        }
      }
      return -1;
    }

    /** The part of connect that runs inside its try block; false stands for an exception. */
    method Acquire(s: Script) returns (ok: bool)
      requires s.openOk
      modifies this
      ensures ok == Did(s, Init)
      ensures trace == old(trace) + Attempts(s, Later(Open))
      ensures Now().held == Gained(old(Now().held), s).(isOpen := old(isOpen))
    {
      Outcomes(s);
      Suffixes();
      hide Did, Attempts, Chosen, Later;
      ok := Try(Lock, s.lockOk, s, Later(Lock));
      if !ok {
        return;
      }
      ok := Try(GetDevices, s.devicesOk, s, Later(GetDevices));
      if !ok {
        return;
      }
      var index := ChooseDevice(s);
      ok := Try(Choose, index >= 0, s, Later(Choose));
      if !ok {
        return;
      }
      handle := s.devices[index].handle;
      ok := Try(Select, s.selectOk, s, Later(Select));
      if !ok {
        return;
      }
      handle, deviceSelected := s.selectedHandle, true;
      ok := Try(Unlock, s.unlockOk, s, Later(Unlock));
      if !ok {
        return;
      }
      ok := Try(GetParams, s.paramsOk, s, Later(GetParams));
      if !ok {
        return;
      }
      hasParams := true;
      ok := Try(Init, s.initOk, s, Later(Init));
      if !ok {
        return;
      }
      initialized := true;
      NoAttempts(s);
    }

    method Connect(s: Script) returns (ok: bool)
      modifies this
      ensures ok == Did(s, Init) && Now() == AfterConnect(old(Now()), s)
    {
      Outcomes(s);
      hide Cleanup, Dropped, Did, Attempts, Works;
      assert Works(s, Open) == s.openOk by {
        OpenWorks(s);
      }
      ok := Try(Open, s.openOk, s, Later(Open));
      if !ok {
        return;
      }
      isOpen := true;
      ok := Acquire(s);
      if !ok {
        CloseDevice();
      }
    }

    /** close; also all the destructor does. */
    method CloseDevice()
      modifies this
      ensures Now() == AfterClose(old(Now()))
    {
      if !isOpen {
        return;
      }
      if initialized && handle {
        trace := trace + [Uninit];
        initialized := false;
      }
      if deviceSelected {
        trace := trace + [Release];
        deviceSelected := false;
      }
      trace := trace + [Close];
      isOpen := false;
      hasParams := false;
    }
  }

  // ----- What a connect manages -----

  lemma AttemptsFirst(s: Script, c: Call, later: seq<Call>)
    ensures Attempts(s, [c] + later) == [Tried(c, Works(s, c))] + (if Works(s, c) then Attempts(s, later) else [])
    ensures forall d :: Succeeds(s, [c] + later, d) <==> Works(s, c) && (d == c || Succeeds(s, later, d))
  {
    assert ([c] + later)[1..] == later;
  }

  lemma NoAttempts(s: Script)
    ensures Attempts(s, Later(Init)) == [] && forall c :: !Succeeds(s, Later(Init), c)
  {
  }

  lemma OpenWorks(s: Script)
    ensures Works(s, Open) == s.openOk
  {
  }

  lemma Suffixes()
    ensures Later(Open) == [Lock] + Later(Lock) && Later(Lock) == [GetDevices] + Later(GetDevices)
    ensures Later(GetDevices) == [Choose] + Later(Choose) && Later(Choose) == [Select] + Later(Select)
    ensures Later(Select) == [Unlock] + Later(Unlock) && Later(Unlock) == [GetParams] + Later(GetParams)
    ensures Later(GetParams) == [Init] + Later(Init)
  {
  }

  lemma {:induction false} AttemptsMembers(s: Script, calls: seq<Call>)
    requires forall i, j :: 0 <= i < j < |calls| ==> calls[i] != calls[j]
    ensures forall e :: e in Attempts(s, calls) ==> e.Tried? && e.call in calls
    ensures forall i, j :: 0 <= i < j < |Attempts(s, calls)| ==> Attempts(s, calls)[i] != Attempts(s, calls)[j]
  {
    hide Works;
    if calls != [] {
      AttemptsMembers(s, calls[1..]);
    }
  }

  /** How far a connect gets. */
  lemma Outcomes(s: Script)
    ensures Did(s, Open) <==> s.openOk
    ensures Did(s, Lock) <==> s.openOk && s.lockOk
    ensures Did(s, GetDevices) <==> s.openOk && s.lockOk && s.devicesOk
    ensures Did(s, Choose) <==> Did(s, GetDevices) && Chosen(s) < |s.devices|
    ensures Did(s, Select) <==> Did(s, Choose) && s.selectOk
    ensures Did(s, Unlock) <==> Did(s, Select) && s.unlockOk
    ensures Did(s, GetParams) <==> Did(s, Unlock) && s.paramsOk
    ensures Did(s, Init) <==> Did(s, GetParams) && s.initOk
  {
    Suffixes();
    hide Attempts, Succeeds, Chosen, Later;
    AttemptsFirst(s, Open, Later(Open));
    AttemptsFirst(s, Lock, Later(Lock));
    AttemptsFirst(s, GetDevices, Later(GetDevices));
    AttemptsFirst(s, Choose, Later(Choose));
    AttemptsFirst(s, Select, Later(Select));
    AttemptsFirst(s, Unlock, Later(Unlock));
    AttemptsFirst(s, GetParams, Later(GetParams));
    AttemptsFirst(s, Init, Later(Init));
    NoAttempts(s);
  }

  lemma MadeDistinct(s: Script)
    ensures forall e :: e in Made(s) ==> e.Tried?
    ensures forall i, j :: 0 <= i < j < |Made(s)| ==> Made(s)[i] != Made(s)[j]
  {
    AttemptsMembers(s, [Open] + Later(Open));
  }

  // ----- One object, one connect -----

  /**
   Whatever fails: connect, close and the destructor together make the calls connect could make, then Uninit just
   when Init succeeded and the device handle is set, then Release just when Select succeeded, then Close just when
   Open succeeded, each at most once; nothing is still held.
   */
  lemma OneLife(s: Script)
    ensures var w := AfterClose(AfterClose(AfterConnect(World(NOTHING, []), s)));
            && w.trace == Made(s) + (if Did(s, Init) && s.selectedHandle then [Uninit] else [])
                                  + (if Did(s, Select) then [Release] else [])
                                  + (if Did(s, Open) then [Close] else [])
            && Uninit !in Made(s) && Release !in Made(s) && Close !in Made(s)
            && !w.held.isOpen && !w.held.selected && !w.held.params && (w.held.initialized ==> !s.selectedHandle)
            && (Did(s, Init) ==> AfterConnect(World(NOTHING, []), s).held == Held(true, true, true, s.selectedHandle, true))
  {
    Outcomes(s);
    MadeDistinct(s);
    hide Made, Did, Chosen;
    var w := AfterConnect(World(NOTHING, []), s);
    assert [] + Made(s) == Made(s);
    var x := AfterClose(w);
    assert AfterClose(x).trace == x.trace + [];
  }

  lemma CountMade(s: Script, c: Call)
    ensures multiset(Made(s))[Tried(c, true)] == if Did(s, c) then 1 else 0
  {
    MadeDistinct(s);
    assert Did(s, c) <==> Tried(c, true) in Made(s);
    hide Made, Did;
    OnceAtMost(Made(s), Tried(c, true));
  }

  lemma {:induction false} OnceAtMost(t: seq<Event>, e: Event)
    requires forall i, j :: 0 <= i < j < |t| ==> t[i] != t[j]
    ensures multiset(t)[e] == if e in t then 1 else 0
  {
    if t != [] {
      assert t == [t[0]] + t[1..];
      OnceAtMost(t[1..], e);
    }
  }

  function Count(t: seq<Event>, e: Event): nat {
    multiset(t)[e]
  }

  /** close never unlocks, so the device lock is balanced just when no failure follows a successful Lock up to Unlock. */
  lemma LockBalance(s: Script)
    ensures var t := AfterClose(AfterClose(AfterConnect(World(NOTHING, []), s))).trace;
            Count(t, Tried(Lock, true)) == Count(t, Tried(Unlock, true))
            <==> (s.openOk && s.lockOk ==> s.devicesOk && Chosen(s) < |s.devices| && s.selectOk && s.unlockOk)
  {
    OneLife(s);
    Outcomes(s);
    CountMade(s, Lock);
    CountMade(s, Unlock);
    hide Made, Did, Chosen, AfterConnect, AfterClose;
  }

  /** Without a configured serial number the first device is chosen, with one the first that has it, and otherwise none. */
  lemma WhichDevice(s: Script)
    ensures s.wanted.None? ==> Chosen(s) == 0
    ensures s.wanted.Some? && Chosen(s) < |s.devices| ==> s.devices[Chosen(s)].serial == s.wanted.value
    ensures s.wanted.Some? ==> forall j :: 0 <= j < Chosen(s) && j < |s.devices| ==> s.devices[j].serial != s.wanted.value
    ensures s.wanted.Some? ==> Chosen(s) <= |s.devices|
  {
  }

  /** When nothing fails: the calls in their order, and everything undone in the opposite order but for the lock. */
  lemma SmoothLife(s: Script)
    requires s.openOk && s.lockOk && s.devicesOk && Chosen(s) < |s.devices|
    requires s.selectOk && s.selectedHandle && s.unlockOk && s.paramsOk && s.initOk
    ensures AfterClose(AfterClose(AfterConnect(World(NOTHING, []), s))).trace
         == [Tried(Open, true), Tried(Lock, true), Tried(GetDevices, true), Tried(Choose, true), Tried(Select, true),
             Tried(Unlock, true), Tried(GetParams, true), Tried(Init, true)] + [Uninit, Release, Close]
  {
    OneLife(s);
    Outcomes(s);
    SmoothConnect(s);
    hide AfterConnect, AfterClose, Did, Made;
    assert [Uninit] + [Release] + [Close] == [Uninit, Release, Close];
    Associative(Made(s), [Uninit], [Release]);
    Associative(Made(s), [Uninit] + [Release], [Close]);
  }

  lemma SmoothConnect(s: Script)
    requires s.openOk && s.lockOk && s.devicesOk && Chosen(s) < |s.devices| && s.selectOk && s.unlockOk && s.paramsOk && s.initOk
    ensures Made(s) == [Tried(Open, true), Tried(Lock, true), Tried(GetDevices, true), Tried(Choose, true), Tried(Select, true),
                        Tried(Unlock, true), Tried(GetParams, true), Tried(Init, true)]
  {
    assert Works(s, Open) && Works(s, Lock) && Works(s, GetDevices) && Works(s, Choose);
    assert Works(s, Select) && Works(s, Unlock) && Works(s, GetParams) && Works(s, Init);
    Suffixes();
    NoAttempts(s);
    hide Attempts, Later, Works, Succeeds;
    AttemptsFirst(s, Init, Later(Init));
    assert Attempts(s, Later(GetParams)) == [Tried(Init, true)];
    AttemptsFirst(s, GetParams, Later(GetParams));
    assert Attempts(s, Later(Unlock)) == [Tried(GetParams, true), Tried(Init, true)];
    AttemptsFirst(s, Unlock, Later(Unlock));
    assert Attempts(s, Later(Select)) == [Tried(Unlock, true), Tried(GetParams, true), Tried(Init, true)];
    AttemptsFirst(s, Select, Later(Select));
    AttemptsFirst(s, Choose, Later(Choose));
    AttemptsFirst(s, GetDevices, Later(GetDevices));
    AttemptsFirst(s, Lock, Later(Lock));
    AttemptsFirst(s, Open, Later(Open));
  }

  /** A failure to list the devices leaves the lock taken for good. */
  lemma LockCanLeak()
    ensures var s := Script(true, true, false, [], None, true, true, true, true, true);
            var t := AfterClose(AfterClose(AfterConnect(World(NOTHING, []), s))).trace;
            t == [Tried(Open, true), Tried(Lock, true), Tried(GetDevices, false), Close]
  {
    var s := Script(true, true, false, [], None, true, true, true, true, true);
    OneLife(s);
    Outcomes(s);
    hide AfterConnect, AfterClose, Did;
    Suffixes();
    AttemptsFirst(s, Open, Later(Open));
    AttemptsFirst(s, Lock, Later(Lock));
    AttemptsFirst(s, GetDevices, Later(GetDevices));
  }

  // ----- Any use of the object -----

  datatype Op = Connecting(s: Script) | Closing

  function AfterOp(w: World, op: Op): World {
    if op.Connecting? then AfterConnect(w, op.s) else AfterClose(w)
  }

  function Used(w: World, ops: seq<Op>): World
    decreases |ops|
  {
    if ops == [] then w else Used(AfterOp(w, ops[0]), ops[1..])
  }

  // The three calls that acquire something, what undoes each, and the flag that stands for it.

  type Acquisition = c: Call | c == Open || c == Select || c == Init witness Open

  function Undo(c: Acquisition): Event {
    if c == Open then Close else if c == Select then Release else Uninit
  }

  predicate Holding(h: Held, c: Acquisition) {
    if c == Open then h.isOpen else if c == Select then h.selected else h.initialized
  }

  /** A connect that acquires again what the flag says is held. */
  predicate Repeats(w: World, op: Op, c: Acquisition) {
    op.Connecting? && Did(op.s, c) && Holding(w.held, c)
  }

  function Repetitions(w: World, ops: seq<Op>, c: Acquisition): nat
    decreases |ops|
  {
    if ops == [] then 0 else (if Repeats(w, ops[0], c) then 1 else 0) + Repetitions(AfterOp(w, ops[0]), ops[1..], c)
  }

  /** Successful acquisitions not yet undone, over and above the one the flag stands for. */
  function Owing(w: World, c: Acquisition): int {
    Count(w.trace, Tried(c, true)) - Count(w.trace, Undo(c)) - (if Holding(w.held, c) then 1 else 0)
  }

  lemma CountAppend(t: seq<Event>, u: seq<Event>, e: Event)
    ensures Count(t + u, e) == Count(t, e) + Count(u, e)
  {
  }

  lemma CleanupCounts(h: Held)
    ensures forall c :: Count(Cleanup(h), Tried(c, true)) == 0
    ensures Count(Cleanup(h), Close) == if h.isOpen then 1 else 0
    ensures Count(Cleanup(h), Release) == if h.isOpen && h.selected then 1 else 0
    ensures Count(Cleanup(h), Uninit) == if h.isOpen && h.initialized && h.handle then 1 else 0
  {
  }

  lemma CloseCounts(w: World, c: Acquisition)
    ensures Owing(AfterClose(w), c) == Owing(w, c)
  {
    var u := Cleanup(w.held);
    CleanupCounts(w.held);
    hide Cleanup, Count;
    CountAppend(w.trace, u, Tried(c, true));
    CountAppend(w.trace, u, Undo(c));
  }

  lemma ReachedCounts(w: World, s: Script, c: Acquisition)
    ensures Owing(Reached(w, s), c) == Owing(w, c) + (if Repeats(w, Connecting(s), c) then 1 else 0)
  {
    hide Made, Did, Chosen, Count;
    NoneMade(s);
    CountMade(s, c);
    CountIs(Made(s), Tried(c, true));
    CountAppend(w.trace, Made(s), Tried(c, true));
    CountAppend(w.trace, Made(s), Undo(c));
  }

  lemma CountIs(t: seq<Event>, e: Event)
    ensures Count(t, e) == multiset(t)[e]
  {
  }

  lemma NoneMade(s: Script)
    ensures Count(Made(s), Uninit) == 0 && Count(Made(s), Release) == 0 && Count(Made(s), Close) == 0
  {
    MadeDistinct(s);
    hide Made;
    OnceAtMost(Made(s), Uninit);
    OnceAtMost(Made(s), Release);
    OnceAtMost(Made(s), Close);
  }

  lemma {:induction false} UsedCounts(w: World, ops: seq<Op>, c: Acquisition)
    ensures Owing(Used(w, ops), c) == Owing(w, c) + Repetitions(w, ops, c)
    decreases |ops|
  {
    hide Owing, Made, Did, Gained, AfterClose, Reached, Holding;
    if ops != [] {
      var op := ops[0];
      UsedCounts(AfterOp(w, op), ops[1..], c);
      if op.Connecting? {
        ReachedCounts(w, op.s, c);
        CloseCounts(Reached(w, op.s), c);
      } else {
        CloseCounts(w, c);
      }
    }
  }

  /** While the interface is closed nothing is selected, and only what has no handle is still marked initialized. */
  predicate Nested(h: Held) {
    !h.isOpen ==> !h.selected && (h.initialized ==> !h.handle)
  }

  lemma {:induction false} UsedNested(w: World, ops: seq<Op>)
    requires Nested(w.held)
    ensures Nested(Used(w, ops).held)
    decreases |ops|
  {
    hide Made, Did, Chosen;
    if ops != [] {
      if ops[0].Connecting? {
        Outcomes(ops[0].s);
      }
      UsedNested(AfterOp(w, ops[0]), ops[1..]);
    }
  }

  /**
   However often an object is connected and closed before it is destroyed: the successful Opens, Selects and Inits
   exceed the calls that undo them by exactly those made while the flag already stood for one, and for Init by one
   more if the flag is still set at the end, which it is only for want of a device handle.
   */
  lemma EveryUse(ops: seq<Op>)
    ensures var start := World(NOTHING, []);
            var end := AfterClose(Used(start, ops));
            && (forall c: Acquisition :: Count(end.trace, Tried(c, true))
                  == Count(end.trace, Undo(c)) + Repetitions(start, ops, c) + (if Holding(end.held, c) then 1 else 0))
            && !end.held.isOpen && !end.held.selected && (end.held.initialized ==> !end.held.handle)
  {
    hide AfterOp, Repeats, Cleanup;
    var start := World(NOTHING, []);
    var w := Used(start, ops);
    UsedNested(start, ops);
    forall c: Acquisition
      ensures Count(AfterClose(w).trace, Tried(c, true))
           == Count(AfterClose(w).trace, Undo(c)) + Repetitions(start, ops, c) + (if Holding(AfterClose(w).held, c) then 1 else 0)
    {
      UsedCounts(start, ops, c);
      CloseCounts(w, c);
    }
  }

  /** No Init succeeds on a device whose Select left the handle null. */
  predicate HandlesGiven(ops: seq<Op>) {
    forall i :: 0 <= i < |ops| && ops[i].Connecting? && Did(ops[i].s, Init) ==> ops[i].s.selectedHandle
  }

  /** What is initialized is open and has a handle, so close undoes it. */
  predicate Undoable(h: Held) {
    h.initialized ==> h.isOpen && h.handle
  }

  /** An object that is never opened while open repeats nothing, and with handles leaves nothing initialized. */
  lemma {:induction false} TidyUse(w: World, ops: seq<Op>)
    requires Nested(w.held) && Repetitions(w, ops, Open) == 0
    ensures Repetitions(w, ops, Select) == 0
    ensures HandlesGiven(ops) && Undoable(w.held) ==> Repetitions(w, ops, Init) == 0 && Undoable(Used(w, ops).held)
    decreases |ops|
  {
    hide Made, Did, Chosen;
    if ops != [] {
      assert HandlesGiven(ops) ==> HandlesGiven(ops[1..]);
      if ops[0].Connecting? {
        Outcomes(ops[0].s);
        assert HandlesGiven(ops) && Did(ops[0].s, Init) ==> ops[0].s.selectedHandle;
      }
      TidyUse(AfterOp(w, ops[0]), ops[1..]);
    }
  }

  /** So its selects balance its releases, and its inits their undoing. */
  lemma TidyUseBalances(ops: seq<Op>)
    requires Repetitions(World(NOTHING, []), ops, Open) == 0
    ensures var t := AfterClose(Used(World(NOTHING, []), ops)).trace;
            && Count(t, Tried(Open, true)) == Count(t, Close) && Count(t, Tried(Select, true)) == Count(t, Release)
            && (HandlesGiven(ops) ==> Count(t, Tried(Init, true)) == Count(t, Uninit))
  {
    hide AfterOp, Repeats, HandlesGiven, Count, Cleanup;
    EveryUse(ops);
    TidyUse(World(NOTHING, []), ops);
    assert Undo(Open) == Close && Undo(Select) == Release && Undo(Init) == Uninit;
  }
}
