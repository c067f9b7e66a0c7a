/** The dispatch phase: while the events of one wait are handled, every callback
    that is still due stays in place and its object alive. */
module LoopDispatch {
  import opened Octets
  import opened LoopSpec
  import opened LoopInvariant
  import opened LoopSteps
  import opened LoopScripts
  import opened LoopTeardown

  /** An event that may still be handled in this phase: its callback is there
      and is not being deleted, and a response that may now end belongs to a
      processor that nothing watches any more. */
  predicate Due(w: World, e: Event) {
    if e.kind == Read then e.fd in w.rd && e.fd !in w.dropRd && e.fd !in w.dropWr
    else
      && e.fd in w.wr && e.fd !in w.dropWr && w.wr[e.fd].Client? && w.wr[e.fd].id in w.sessions
      && forall g :: g in SocketOf(w, w.sessions[w.wr[e.fd].id]) ==> g !in w.rd && g !in w.dropRd && g !in w.dropWr
  }

  // What handling `e` leaves alone: callbacks, and the objects behind them.
  predicate FrameTables(w: World, v: World, e: Event) {
    && (forall f :: f in w.rd ==> f in v.rd)
    && (forall f :: f in w.wr ==> f in v.wr && v.wr[f] == w.wr[f])
    && (forall f :: f in v.rd ==> f in w.rd || f !in w.fds)
    && (forall f :: f in v.dropRd ==> f in w.dropRd || f == e.fd)
    && (forall f :: f in v.dropWr ==> f in w.dropWr || f == e.fd)
    && (e.kind == Read && e.fd in w.wr ==> v.dropWr == w.dropWr)
  }

  predicate FrameObjects(w: World, v: World, e: Event) {
    && (forall i :: i in w.sessions ==> i in v.sessions)
    && (forall i :: i in w.sessions && w.sessions[i].busy && !(e.kind == Write && w.sessions[i].fd == e.fd)
          ==> v.sessions[i].proc == w.sessions[i].proc)
    && (forall q :: q in w.procs && q in v.procs ==> v.procs[q].fd == w.procs[q].fd)
    && (forall q :: q in v.procs && q !in w.procs ==> w.nextId <= q)
  }

  predicate Frame(w: World, v: World, e: Event) { FrameTables(w, v, e) && FrameObjects(w, v, e) }

  lemma DueAfter(w: World, v: World, e: Event, later: Event)
    requires Inv(w) && Settled(w) && Frame(w, v, e) && Due(w, e) && Due(w, later) && MayFollow(e, later)
    ensures Due(v, later)
  {
    if later.kind == Write {
      var id := w.wr[later.fd].id;
      var s := w.sessions[id];
      assert WrEntry(w, later.fd) && FdOwned(w, later.fd);
      assert SessionOwns(w, id) && SessionProtocol(w, id);
      if s.proc.Some? {
        assert ProcOwns(w, s.proc.value) && w.procs[s.proc.value].fd in SocketOf(w, s);
        hide Inv;
      }
      forall g | g in SocketOf(v, v.sessions[id]) ensures g !in v.rd && g !in v.dropRd && g !in v.dropWr {
        assert s.proc.Some? && g == w.procs[s.proc.value].fd;
        assert g in w.fds;
        if g == e.fd {
          EventSlotWatched(w, e);
        }
      }
    } else if e.kind == Write {
      assert WrEntry(w, e.fd) && later.fd != e.fd;
    }
  }

  // The descriptor of an event belongs to a client, a listener or a watched script.
  lemma EventSlotWatched(w: World, e: Event)
    requires Inv(w) && Settled(w) && Due(w, e)
    ensures e.fd in w.rd || (e.fd in w.fds && w.fds[e.fd].Client?)
  {
    if e.kind == Write {
      assert WrEntry(w, e.fd);
    }
  }

  // ----- each callback leaves the rest alone

  lemma NewSessionFrame(w: World, fd: int, registers: bool, e: Event)
    requires Settled(w) && fd !in w.fds && w.nextId !in w.sessions
    ensures Frame(w, NewSession(w, fd, registers), e) && Settled(NewSession(w, fd, registers))
  {
  }

  lemma AcceptFrame(w: World, e: Event)
    requires Inv(w) && Settled(w)
    ensures Frame(w, Accept(w, e.outcome), e) && Settled(Accept(w, e.outcome))
  {
    var o := e.outcome;
    NewIdIsFresh(w);
    SelfFrame(w, e);
    if o.accepted.Some? && o.accepted.value !in w.fds {
      ClientsAreOpen(w, o.accepted.value);
      hide Inv;
      AcceptIs(w, o);
      NewSessionFrame(w, o.accepted.value, o.registers, e);
      hide Accept;
      hide Frame;
    }
  }

  lemma CloseFrame(w: World, u: World, id: nat, e: Event)
    requires Frame(w, u, e) && Settled(u) && id in u.sessions
    ensures Frame(w, Close(u, id), e) && Settled(Close(u, id))
  {
  }

  lemma WriteFrame(w: World, u: World, id: nat, fd: int, e: Event)
    requires Frame(w, u, e) && Settled(u) && fd !in u.wr && fd in u.fds
    ensures var v := u.(wr := u.wr[fd := Client(id)], interest := u.interest[fd := {Write}]);
            Frame(w, v, e) && Settled(v)
  {
  }

  lemma PrepareFrame(w: World, u: World, id: nat, registers: bool, e: Event)
    requires Frame(w, u, e) && Settled(u)
    requires id in u.sessions && u.sessions[id].fd !in u.wr && u.sessions[id].fd in u.fds
    ensures Frame(w, PrepareResponse(u, id, registers), e) && Settled(PrepareResponse(u, id, registers))
  {
    CloseFrame(w, u, id, e);
    WriteFrame(w, u, id, u.sessions[id].fd, e);
    hide Close;
    hide Frame;
    hide Settled;
  }

  lemma AwaitsPrepareFrame(w: World, u: World, id: nat, registers: bool, e: Event)
    requires Frame(w, u, e) && Settled(u) && AwaitsWrite(u, id)
    ensures Frame(w, PrepareResponse(u, id, registers), e) && Settled(PrepareResponse(u, id, registers))
  {
    assert SessionOwns(u, id);
    hide Owned;
    hide Callbacks;
    PrepareFrame(w, u, id, registers, e);
    hide PrepareResponse;
  }

  lemma BusyFrame(w: World, id: nat, e: Event)
    requires Settled(w) && id in w.sessions
    ensures Frame(w, Busy(w, id), e) && Settled(Busy(w, id))
  {
  }

  lemma NewProcSettled(u: World, id: nat, fd: int, pid: int, watched: bool)
    requires Settled(u) && id in u.sessions
    ensures Settled(NewProc(u, id, fd, pid, watched))
  {
  }

  lemma NewProcFrame(w: World, id: nat, fd: int, pid: int, watched: bool, e: Event)
    requires Settled(w) && id in w.sessions && !w.sessions[id].busy && fd !in w.fds && w.nextId !in w.procs
    ensures var v := NewProc(Busy(w, id), id, fd, pid, watched); Frame(w, v, e) && Settled(v)
  {
    BusyFrame(w, id, e);
    NewProcSettled(Busy(w, id), id, fd, pid, watched);
    NewProcTablesFrame(w, id, fd, pid, watched, e);
    NewProcObjectsFrame(w, id, fd, pid, watched, e);
    hide Settled;
    hide FrameTables;
    hide FrameObjects;
    hide NewProc;
    hide Busy;
  }

  lemma NewProcTablesFrame(w: World, id: nat, fd: int, pid: int, watched: bool, e: Event)
    requires id in w.sessions && fd !in w.fds
    ensures FrameTables(w, NewProc(Busy(w, id), id, fd, pid, watched), e)
  {
    var v := NewProc(Busy(w, id), id, fd, pid, watched);
    assert v.wr == w.wr && v.dropRd == w.dropRd && v.dropWr == w.dropWr;
    assert forall f :: f in v.rd ==> f in w.rd || f == fd;
    assert forall f :: f in w.rd ==> f in v.rd;
    hide Busy;
    hide NewProc;
  }

  lemma NewProcObjectsFrame(w: World, id: nat, fd: int, pid: int, watched: bool, e: Event)
    requires id in w.sessions && !w.sessions[id].busy && w.nextId !in w.procs
    ensures FrameObjects(w, NewProc(Busy(w, id), id, fd, pid, watched), e)
  {
    var v := NewProc(Busy(w, id), id, fd, pid, watched);
    assert forall i :: i in w.sessions ==> i in v.sessions && (w.sessions[i].busy ==> v.sessions[i] == w.sessions[i]);
    assert forall q :: q in w.procs ==> v.procs[q] == w.procs[q];
    assert forall q :: q in v.procs && q !in w.procs ==> q == w.nextId;
    hide Busy;
    hide NewProc;
  }

  lemma ProcessRequestFrame(w: World, id: nat, reply: Reply, registers: bool, e: Event)
    requires Inv(w) && Settled(w) && ReadyForRequest(w, id)
    ensures var v := ProcessRequest(w, id, reply, registers); Frame(w, v, e) && Settled(v)
  {
    ProcessRequestIs(w, id, reply, registers);
    hide ProcessRequest;
    BusyAwaits(w, id);
    NewIdIsFresh(w);
    BusyFrame(w, id, e);
    hide Inv;
    hide AwaitsWrite;
    hide Frame;
    hide Settled;
    hide PrepareResponse;
    var u := Busy(w, id);
    AwaitsPrepareFrame(w, u, id, registers, e);
    if reply.RunScript? && reply.fd !in u.fds && reply.pid !in u.children {
      NewProcFrame(w, id, reply.fd, reply.pid, reply.registers, e);
      if !reply.registers {
        UnwatchedAwaits(u, id, reply.fd, reply.pid);
        AwaitsPrepareFrame(w, NewProc(u, id, reply.fd, reply.pid, false), id, registers, e);
      }
    }
  }

  lemma ClientOnReadFrame(w: World, id: nat, e: Event)
    requires Inv(w) && Settled(w) && id in w.sessions && w.sessions[id].fd !in w.dropWr
    ensures var v := ClientOnRead(w, id, e.outcome); Frame(w, v, e) && Settled(v)
  {
    SelfFrame(w, e);
    CloseFrame(w, w, id, e);
    hide Inv;
    hide Frame;
    hide Settled;
    hide ProcessRequest;
    hide Close;
    match e.outcome.clientRead
    case Disconnected =>
    case Incomplete =>
    case Finished(reply) =>
      if !w.sessions[id].busy {
        ProcessRequestFrame(w, id, reply, e.outcome.registers, e);
      }
  }

  lemma SelfFrame(w: World, e: Event)
    ensures Frame(w, w, e)
  {
  }

  lemma MovedFrame(w: World, p: nat, x: Proc, dropped: bool, reaped: bool, e: Event)
    requires CanMove(w, p, x, dropped, reaped) && Settled(w) && e.kind == Read && e.fd == w.procs[p].fd
    ensures var v := ScriptMoved(w, p, x, dropped, reaped); Frame(w, v, e) && Settled(v)
  {
    MovedSettled(w, p, x, dropped, reaped);
    assert ProcOwns(w, p);
    assert e.fd in w.wr ==> WrEntry(w, e.fd);
    assert e.fd !in w.wr && x.fd == w.procs[p].fd;
    hide Inv;
    hide CanMove;
    hide Settled;
    MovedTablesFrame(w, p, x, dropped, reaped, e);
    MovedObjectsFrame(w, p, x, dropped, reaped, e);
    hide FrameTables;
    hide FrameObjects;
    hide ScriptMoved;
  }

  lemma MovedTablesFrame(w: World, p: nat, x: Proc, dropped: bool, reaped: bool, e: Event)
    requires p in w.procs && e.fd == w.procs[p].fd && e.fd !in w.wr
    ensures FrameTables(w, ScriptMoved(w, p, x, dropped, reaped), e)
  {
  }

  lemma MovedObjectsFrame(w: World, p: nat, x: Proc, dropped: bool, reaped: bool, e: Event)
    requires p in w.procs && x.fd == w.procs[p].fd
    ensures FrameObjects(w, ScriptMoved(w, p, x, dropped, reaped), e)
  {
    var v := ScriptMoved(w, p, x, dropped, reaped);
    assert v.sessions == w.sessions && v.procs.Keys == w.procs.Keys;
  }

  lemma MovedSettled(w: World, p: nat, x: Proc, dropped: bool, reaped: bool)
    requires Inv(w) && p in w.procs && Settled(w)
    ensures Settled(ScriptMoved(w, p, x, dropped, reaped))
  {
    assert ProcOwns(w, p);
    hide Inv;
  }

  lemma AnsweredFrame(w: World, u: World, p: nat, a: Answer, e: Event)
    requires Frame(w, u, e) && Settled(u)
    ensures Frame(w, WithAnswer(u, p, a), e) && Settled(WithAnswer(u, p, a))
  {
  }

  lemma ScriptOnReadFrame(w: World, p: nat, e: Event)
    requires Inv(w) && Settled(w) && p in w.procs && w.procs[p].described && !w.procs[p].outputRead
    requires e.kind == Read && e.fd == w.procs[p].fd
    ensures var v := ScriptOnRead(w, p, e.outcome); Frame(w, v, e) && Settled(v)
  {
    var r := AfterScriptRead(w.procs[p], e.outcome);
    ScriptReadCanMove(w, p, e.outcome);
    ScriptOnReadIs(w, p, e.outcome);
    MovedFrame(w, p, r.0, r.1, r.2, e);
    AnsweredFrame(w, ScriptMoved(w, p, r.0, r.1, r.2), p, r.3, e);
    hide ScriptOnRead;
    hide Inv;
    hide Frame;
    hide Settled;
    if !r.0.described {
      FinishedAwaits(w, p, r.0, r.3, r.1, r.2);
      AwaitsPrepareFrame(w, ScriptFinished(w, p, r.0, r.3, r.1, r.2), r.0.owner, e.outcome.registers, e);
    }
  }

  lemma EndedFrame(w: World, id: nat, close: bool, e: Event)
    requires CanEnd(w, id) && Settled(w)
    requires e.kind == Write && e.fd == w.sessions[id].fd && Due(w, e) && w.wr[e.fd] == Client(id)
    ensures var v := Ended(w, id, close); Frame(w, v, e) && Settled(v)
  {
    EndedSettled(w, id, close, e);
    EndedObjectsFrame(w, id, close, e);
    hide CanEnd;
    hide Settled;
    hide FrameObjects;
  }

  lemma EndedSettled(w: World, id: nat, close: bool, e: Event)
    requires CanEnd(w, id) && Settled(w)
    requires e.kind == Write && e.fd == w.sessions[id].fd && Due(w, e) && w.wr[e.fd] == Client(id)
    ensures Settled(Ended(w, id, close))
  {
    assert SessionOwns(w, id);
    assert forall f :: f in w.wr ==> WrEntry(w, f);
    if w.sessions[id].proc.Some? {
      assert ProcOwns(w, w.sessions[id].proc.value);
    }
    hide Inv;
  }

  lemma EndedObjectsFrame(w: World, id: nat, close: bool, e: Event)
    requires CanEnd(w, id) && e.kind == Write && e.fd == w.sessions[id].fd
    ensures FrameObjects(w, Ended(w, id, close), e)
  {
    assert SessionOwns(w, id);
    forall i | i in w.sessions && w.sessions[i].fd == e.fd ensures i == id {
      assert SessionOwns(w, i);
    }
    hide Inv;
  }

  // ----- the step

  lemma DueRead(w: World, e: Event)
    requires Inv(w) && Settled(w) && Due(w, e) && e.kind == Read
    ensures match w.rd[e.fd]
            case Listener => true
            case Client(id) => id in w.sessions && w.sessions[id].fd == e.fd
            case Script(p) => p in w.procs && w.procs[p].fd == e.fd && w.procs[p].described && !w.procs[p].outputRead
  {
    assert RdEntry(w, e.fd) && FdOwned(w, e.fd);
    match w.rd[e.fd]
    case Listener =>
    case Client(id) =>
    case Script(p) => assert ProcProtocol(w, p);
  }

  lemma DueWrite(w: World, e: Event)
    requires Inv(w) && Settled(w) && Due(w, e) && e.kind == Write
    ensures w.wr[e.fd].Client? && w.wr[e.fd].id in w.sessions && w.sessions[w.wr[e.fd].id].fd == e.fd
    ensures CanEnd(w, w.wr[e.fd].id)
  {
    assert WrEntry(w, e.fd) && FdOwned(w, e.fd);
    assert SessionProtocol(w, w.wr[e.fd].id);
  }

  lemma DispatchReadKeeps(w: World, e: Event)
    requires Inv(w) && Settled(w) && Due(w, e) && e.kind == Read
    ensures Inv(Dispatch(w, e)) && Settled(Dispatch(w, e)) && Frame(w, Dispatch(w, e), e)
  {
    DueRead(w, e);
    hide Inv;
    hide Frame;
    hide Settled;
    match w.rd[e.fd]
    case Listener => AcceptKeeps(w, e.outcome); AcceptFrame(w, e);
    case Client(id) => ClientOnReadKeeps(w, id, e.outcome); ClientOnReadFrame(w, id, e);
    case Script(p) => ScriptOnReadKeeps(w, p, e.outcome); ScriptOnReadFrame(w, p, e);
  }

  lemma ClientOnReadKeeps(w: World, id: nat, o: Outcome)
    requires Inv(w) && Settled(w) && id in w.sessions && w.sessions[id].fd !in w.dropWr
    ensures Inv(ClientOnRead(w, id, o))
  {
    CloseKeeps(w, id);
    hide Inv;
    hide Close;
    hide ProcessRequest;
    match o.clientRead
    case Disconnected =>
    case Incomplete =>
    case Finished(reply) =>
      if !w.sessions[id].busy {
        ProcessRequestKeeps(w, id, reply, o.registers);
      }
  }

  lemma DispatchWriteKeeps(w: World, e: Event)
    requires Inv(w) && Settled(w) && Due(w, e) && e.kind == Write
    ensures Inv(Dispatch(w, e)) && Settled(Dispatch(w, e)) && Frame(w, Dispatch(w, e), e)
  {
    DueWrite(w, e);
    var id := w.wr[e.fd].id;
    CloseKeeps(w, id);
    SelfFrame(w, e);
    CloseFrame(w, w, id, e);
    hide Frame;
    hide Settled;
    hide Close;
    match e.outcome.clientWrite
    case SendFailed =>
    case MoreToSend =>
    case AllSent(close) =>
      CleanupKeeps(w, id, close);
      CleanupIs(w, id, close);
      EndedFrame(w, id, close, e);
      hide ResponseSentCleanup;
      hide Inv;
  }
}
