/**
 The life of a client's file descriptor, shared by both servers: accepted, entered in the client table, served by
 one read loop, taken out of the table, closed. The kernel hands a number out again only after it was closed.
 */
module Descriptors {
  import opened Bytes

  type Fd = int

  /** One call of send. */
  datatype SendCall = SendCall(fd: Fd, bytes: seq<byte>)

  type ConnId = nat

  /** Accepted: accept returned. Listed: in the table. Serving: its read loop runs. Unlisted: out of the table, not yet closed. */
  datatype Stage = Accepted | Listed | Serving | Unlisted | Closed

  datatype Conn = Conn(fd: Fd, stage: Stage)

  /** Whose socket an open descriptor refers to: one of this server's connections, or something else in the process. */
  datatype Owner = Mine(id: ConnId) | Foreign

  /** The process's open descriptors, and every connection this server ever accepted. */
  datatype Kernel = Kernel(open: map<Fd, Owner>, conns: seq<Conn>)

  predicate Live(k: Kernel, c: ConnId) {
    c < |k.conns| && k.conns[c].stage != Closed
  }

  /** Each live connection owns its own open descriptor, and no descriptor refers to a dead one. */
  ghost predicate Owned(k: Kernel) {
    && (forall c: ConnId :: Live(k, c) ==> k.conns[c].fd in k.open && k.open[k.conns[c].fd] == Mine(c))
    && (forall fd :: fd in k.open && k.open[fd].Mine? ==> Live(k, k.open[fd].id) && k.conns[k.open[fd].id].fd == fd)
  }

  predicate OpenToConn(k: Kernel, fd: Fd) {
    fd in k.open && k.open[fd].Mine? && k.open[fd].id < |k.conns|
  }

  /** The connection a write to fd reaches is one whose entry belongs in the client table. */
  predicate BelongsInTable(k: Kernel, fd: Fd) {
    OpenToConn(k, fd) && k.conns[k.open[fd].id].stage in {Listed, Serving}
  }

  function Enter(k: Kernel, fd: Fd): Kernel {
    Kernel(k.open[fd := Mine(|k.conns|)], k.conns + [Conn(fd, Accepted)])
  }

  function SetStage(k: Kernel, c: ConnId, stage: Stage): Kernel
    requires c < |k.conns|
  {
    Kernel(k.open, k.conns[c := Conn(k.conns[c].fd, stage)])
  }

  function Shut(k: Kernel, c: ConnId): Kernel
    requires c < |k.conns|
  {
    Kernel(k.open - {k.conns[c].fd}, k.conns[c := Conn(k.conns[c].fd, Closed)])
  }

  lemma EnterKeepsOwned(k: Kernel, fd: Fd)
    requires Owned(k) && fd !in k.open
    ensures Owned(Enter(k, fd))
    ensures forall g :: BelongsInTable(Enter(k, fd), g) <==> BelongsInTable(k, g)
  {
    var r := Enter(k, fd);
    forall c: ConnId | Live(r, c) ensures r.conns[c].fd in r.open && r.open[r.conns[c].fd] == Mine(c) {
      if c < |k.conns| {
        assert Live(k, c);
      }
    }
  }

  lemma SetStageKeepsOwned(k: Kernel, c: ConnId, stage: Stage)
    requires Owned(k) && Live(k, c) && stage != Closed
    ensures Owned(SetStage(k, c, stage))
    ensures forall g :: g != k.conns[c].fd ==> (BelongsInTable(SetStage(k, c, stage), g) <==> BelongsInTable(k, g))
    ensures BelongsInTable(SetStage(k, c, stage), k.conns[c].fd) <==> stage in {Listed, Serving}
  {
    var r := SetStage(k, c, stage);
    forall d: ConnId | Live(r, d) ensures r.conns[d].fd in r.open && r.open[r.conns[d].fd] == Mine(d) {
      assert Live(k, d);
    }
  }

  lemma ShutKeepsOwned(k: Kernel, c: ConnId)
    requires Owned(k) && Live(k, c) && k.conns[c].stage == Unlisted
    ensures Owned(Shut(k, c))
    ensures forall g :: BelongsInTable(Shut(k, c), g) <==> BelongsInTable(k, g)
  {
    var r := Shut(k, c);
    forall d: ConnId | Live(r, d) ensures r.conns[d].fd in r.open && r.open[r.conns[d].fd] == Mine(d) {
      assert Live(k, d);
    }
  }

  lemma ForeignKeepsOwned(k: Kernel, fd: Fd)
    requires Owned(k)
    ensures fd !in k.open ==> Owned(k.(open := k.open[fd := Foreign]))
    ensures fd !in k.open ==> forall g :: BelongsInTable(k.(open := k.open[fd := Foreign]), g) <==> BelongsInTable(k, g)
    ensures fd in k.open && k.open[fd] == Foreign ==> Owned(k.(open := k.open - {fd}))
    ensures fd in k.open && k.open[fd] == Foreign ==> forall g :: BelongsInTable(k.(open := k.open - {fd}), g) <==> BelongsInTable(k, g)
  {
  }

  /** Before anything is accepted the process's open descriptors are all something else's. */
  ghost predicate Fresh(k: Kernel) {
    k.conns == [] && forall fd :: fd in k.open ==> k.open[fd] == Foreign
  }

  predicate Holds(k: Kernel, c: ConnId, fd: Fd) {
    Live(k, c) && k.conns[c].fd == fd
  }

  predicate Serves(k: Kernel, c: ConnId, fd: Fd) {
    Holds(k, c, fd) && k.conns[c].stage in {Listed, Serving}
  }

  /** Exactly one connection with a read loop, running or about to be started, holds the descriptor. */
  ghost predicate Attended(k: Kernel, fd: Fd) {
    exists c: ConnId :: Serves(k, c, fd) && forall d: ConnId :: d < |k.conns| && d != c ==> !Holds(k, d, fd)
  }

  lemma AttendedByOwner(k: Kernel, fd: Fd)
    requires Owned(k) && BelongsInTable(k, fd)
    ensures Attended(k, fd)
  {
    assert Serves(k, k.open[fd].id, fd);
  }
}
