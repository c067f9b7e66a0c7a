/** The invariant is kept by every callback, every collected child and every
    visited client. */
module LoopSteps {
  import opened Octets
  import opened LoopSpec
  import opened LoopInvariant

  // ----- accepting

  lemma AcceptKeeps(w: World, o: Outcome)
    requires Inv(w) && Settled(w)
    ensures Inv(Accept(w, o))
  {
    if o.accepted.Some? && o.accepted.value !in w.fds {
      var fd := o.accepted.value;
      NewIdIsFresh(w);
      ClientsAreOpen(w, fd);
      NewSessionOwned(w, fd, o.registers);
      NewSessionCallbacks(w, fd, o.registers);
      NewSessionProtocols(w, fd, o.registers);
      AcceptIs(w, o);
      hide Owned;
      hide Callbacks;
      hide Protocols;
    }
  }

  lemma ClientsAreOpen(w: World, fd: int)
    requires Owned(w)
    ensures fd in w.clients ==> fd in w.fds
  {
    if fd in w.clients {
      assert ClientOwned(w, fd) && SessionOwns(w, w.clients[fd]);
    }
  }

  lemma AcceptIs(w: World, o: Outcome)
    requires o.accepted.Some?
    requires o.accepted.value !in w.fds && o.accepted.value !in w.rd && o.accepted.value !in w.clients
    ensures Accept(w, o) == NewSession(w, o.accepted.value, o.registers)
  {
    var fd, id := o.accepted.value, w.nextId;
    var s := Session(fd, false, false, None, 0, 0);
    assert w.sessions[id := s][id := s.(closed := true)] == w.sessions[id := s.(closed := true)];
  }

  // A session that was just made, with its read callback or closed.
  function NewSession(w: World, fd: int, registers: bool): World {
    var id := w.nextId;
    w.(nextId := id + 1, fds := w.fds[fd := Client(id)], clients := w.clients[fd := id],
       sessions := w.sessions[id := Session(fd, false, !registers, None, 0, 0)],
       rd := if registers then w.rd[fd := Client(id)] else w.rd,
       interest := if registers then w.interest[fd := {Read}] else w.interest)
  }

  predicate CanAccept(w: World, fd: int) {
    Inv(w) && Settled(w) && fd !in w.fds && fd !in w.clients && w.nextId !in w.sessions
  }

  lemma NewSessionOwned(w: World, fd: int, registers: bool)
    requires CanAccept(w, fd)
    ensures Owned(NewSession(w, fd, registers))
  {
    NewSessionObjects(w, fd, registers);
    NewSessionTables(w, fd, registers);
    hide NewSession;
  }

  lemma NewSessionObjects(w: World, fd: int, registers: bool)
    requires CanAccept(w, fd)
    ensures var v := NewSession(w, fd, registers);
            && (forall i :: i in v.sessions ==> SessionOwns(v, i))
            && (forall p :: p in v.procs ==> ProcOwns(v, p))
  {
    var v := NewSession(w, fd, registers);
    forall i | i in v.sessions ensures SessionOwns(v, i) {
      assert i != w.nextId ==> SessionOwns(w, i);
    }
    forall p | p in v.procs ensures ProcOwns(v, p) {
      assert ProcOwns(w, p);
    }
  }

  lemma NewSessionTables(w: World, fd: int, registers: bool)
    requires CanAccept(w, fd)
    ensures var v := NewSession(w, fd, registers);
            && (forall f :: f in v.fds ==> FdOwned(v, f))
            && (forall f :: f in v.clients ==> ClientOwned(v, f))
            && (forall c :: c in v.children ==> ChildOwned(v, c))
  {
    var v := NewSession(w, fd, registers);
    forall f | f in v.fds ensures FdOwned(v, f) {
      assert f != fd ==> FdOwned(w, f);
    }
    forall f | f in v.clients ensures ClientOwned(v, f) {
      assert f != fd ==> ClientOwned(w, f);
    }
    forall c | c in v.children ensures ChildOwned(v, c) {
      assert ChildOwned(w, c);
    }
  }

  lemma NewSessionCallbacks(w: World, fd: int, registers: bool)
    requires CanAccept(w, fd)
    ensures Callbacks(NewSession(w, fd, registers))
  {
    var v := NewSession(w, fd, registers);
    forall f | f in v.rd ensures RdEntry(v, f) {
      assert f != fd ==> RdEntry(w, f);
    }
    assert forall f :: f in v.wr ==> WrEntry(w, f) && WrEntry(v, f);
    assert forall f :: f in v.dropRd ==> RdDrop(w, f) && RdDrop(v, f);
    assert forall f :: f in v.dropWr ==> WrDrop(w, f) && WrDrop(v, f);
  }

  lemma NewSessionProtocols(w: World, fd: int, registers: bool)
    requires CanAccept(w, fd)
    ensures Protocols(NewSession(w, fd, registers))
  {
    var v := NewSession(w, fd, registers);
    forall i | i in v.sessions ensures SessionProtocol(v, i) {
      assert i != w.nextId ==> SessionOwns(w, i) && SessionProtocol(w, i);
    }
    NewSessionKeepsProcs(w, fd, registers);
  }

  lemma NewSessionKeepsProcs(w: World, fd: int, registers: bool)
    requires CanAccept(w, fd)
    ensures var v := NewSession(w, fd, registers);
            && (forall p :: p in v.procs ==> ProcProtocol(v, p))
            && (forall p :: p in v.answers ==> AtMostOneAnswer(v, p))
  {
    var v := NewSession(w, fd, registers);
    assert forall p :: p in v.procs ==> ProcOwns(w, p) && ProcProtocol(w, p) && ProcProtocol(v, p);
    assert forall p :: p in v.answers ==> AtMostOneAnswer(w, p) && AtMostOneAnswer(v, p);
  }

  // ----- a complete request

  predicate ReadyForRequest(w: World, id: nat) {
    id in w.sessions && !w.sessions[id].busy && w.sessions[id].fd !in w.dropWr
  }

  lemma BusyOwned(w: World, id: nat)
    requires Inv(w) && ReadyForRequest(w, id)
    ensures Owned(Busy(w, id))
  {
    var v := Busy(w, id);
    forall i | i in v.sessions ensures SessionOwns(v, i) {
      assert SessionOwns(w, i);
    }
    assert forall p :: p in v.procs ==> ProcOwns(w, p) && ProcOwns(v, p);
    assert forall f :: f in v.fds ==> FdOwned(w, f) && FdOwned(v, f);
    assert forall f :: f in v.clients ==> ClientOwned(w, f) && ClientOwned(v, f);
    assert forall c :: c in v.children ==> ChildOwned(w, c) && ChildOwned(v, c);
  }

  lemma BusyCallbacks(w: World, id: nat)
    requires Inv(w) && ReadyForRequest(w, id)
    ensures Callbacks(Busy(w, id))
  {
    var v := Busy(w, id);
    assert forall f :: f in v.rd ==> RdEntry(w, f) && RdEntry(v, f);
    assert forall f :: f in v.wr ==> WrEntry(w, f) && WrEntry(v, f);
    assert forall f :: f in v.dropRd ==> RdDrop(w, f) && RdDrop(v, f);
    forall f | f in v.dropWr ensures WrDrop(v, f) {
      assert WrDrop(w, f) && (f in w.fds ==> FdOwned(w, f));
    }
  }

  lemma BusyProtocols(w: World, id: nat)
    requires Inv(w) && ReadyForRequest(w, id)
    ensures var v := Busy(w, id);
            && (forall i :: i in v.sessions && i != id ==> SessionProtocol(v, i))
            && (forall p :: p in v.procs ==> ProcProtocol(v, p))
            && (forall p :: p in v.answers ==> AtMostOneAnswer(v, p))
  {
    var v := Busy(w, id);
    forall i | i in v.sessions && i != id ensures SessionProtocol(v, i) {
      assert SessionProtocol(w, i);
    }
    forall p | p in v.procs ensures ProcProtocol(v, p) {
      assert ProcProtocol(w, p);
    }
    forall p | p in v.answers ensures AtMostOneAnswer(v, p) {
      assert AtMostOneAnswer(w, p);
    }
  }

  lemma BusyAwaits(w: World, id: nat)
    requires Inv(w) && ReadyForRequest(w, id)
    ensures AwaitsWrite(Busy(w, id), id) && Busy(w, id).sessions[id].proc.None?
  {
    assert SessionOwns(w, id) && SessionProtocol(w, id);
    assert !w.fault;
    BusyOwned(w, id);
    BusyCallbacks(w, id);
    BusyProtocols(w, id);
    hide Inv;
    hide Owned;
    hide Callbacks;
  }

  // The world with a new processor: either its child runs and is watched, or
  // it was killed and an error page was asked for.
  function NewProc(w: World, id: nat, fd: int, pid: int, watched: bool): World
    requires id in w.sessions
  {
    var p := w.nextId;
    w.(nextId := p + 1, fds := w.fds[fd := Script(p)],
       rd := if watched then w.rd[fd := Script(p)] else w.rd,
       interest := if watched then w.interest[fd := {Read}] else w.interest,
       sessions := w.sessions[id := w.sessions[id].(proc := Some(p))],
       children := if watched then w.children[pid := p] else w.children,
       answers := w.answers[p := if watched then [] else [ErrorPage]],
       procs := w.procs[p := Proc(id, fd, pid, watched, false, false, [])])
  }

  predicate CanSpawn(w: World, id: nat, fd: int, pid: int) {
    && AwaitsWrite(w, id) && Settled(w) && w.sessions[id].proc.None?
    && fd !in w.fds && pid !in w.children
  }

  lemma NewIdIsFresh(w: World)
    requires Owned(w) && forall p :: p in w.answers ==> AtMostOneAnswer(w, p)
    ensures w.nextId !in w.sessions && w.nextId !in w.procs && w.nextId !in w.answers
  {
    assert w.nextId in w.sessions ==> SessionOwns(w, w.nextId);
    assert w.nextId in w.procs ==> ProcOwns(w, w.nextId);
  }

  // Both outcomes of starting a script give the session a processor with a
  // new socket.
  lemma NewProcOwned(w: World, id: nat, fd: int, pid: int, watched: bool)
    requires CanSpawn(w, id, fd, pid)
    ensures Owned(NewProc(w, id, fd, pid, watched))
  {
    NewProcObjects(w, id, fd, pid, watched);
    NewProcTables(w, id, fd, pid, watched);
    hide NewProc;
  }

  lemma NewProcTables(w: World, id: nat, fd: int, pid: int, watched: bool)
    requires CanSpawn(w, id, fd, pid)
    ensures var v := NewProc(w, id, fd, pid, watched);
            && (forall f :: f in v.fds ==> FdOwned(v, f))
            && (forall f :: f in v.clients ==> ClientOwned(v, f))
            && (forall c :: c in v.children ==> ChildOwned(v, c))
  {
    var v := NewProc(w, id, fd, pid, watched);
    NewIdIsFresh(w);
    forall f | f in v.fds ensures FdOwned(v, f) {
      assert f != fd ==> FdOwned(w, f);
    }
    forall f | f in v.clients ensures ClientOwned(v, f) {
      assert ClientOwned(w, f);
    }
    forall c | c in v.children ensures ChildOwned(v, c) {
      assert c in w.children ==> ChildOwned(w, c);
    }
  }

  lemma NewProcObjects(w: World, id: nat, fd: int, pid: int, watched: bool)
    requires CanSpawn(w, id, fd, pid)
    ensures var v := NewProc(w, id, fd, pid, watched); forall i :: i in v.sessions ==> SessionOwns(v, i)
    ensures forall q :: q in NewProc(w, id, fd, pid, watched).procs ==> ProcOwns(NewProc(w, id, fd, pid, watched), q)
  {
    var v := NewProc(w, id, fd, pid, watched);
    NewIdIsFresh(w);
    forall i | i in v.sessions ensures SessionOwns(v, i) {
      assert SessionOwns(w, i);
    }
    forall q | q in v.procs ensures ProcOwns(v, q) {
      assert q != w.nextId ==> ProcOwns(w, q);
    }
  }

  lemma NewProcDrops(w: World, id: nat, fd: int, pid: int, watched: bool)
    requires CanSpawn(w, id, fd, pid)
    ensures forall f :: f in NewProc(w, id, fd, pid, watched).dropRd ==> RdDrop(NewProc(w, id, fd, pid, watched), f)
    ensures forall f :: f in NewProc(w, id, fd, pid, watched).dropWr ==> WrDrop(NewProc(w, id, fd, pid, watched), f)
  {
    var v := NewProc(w, id, fd, pid, watched);
    NewIdIsFresh(w);
    forall f | f in v.dropRd ensures RdDrop(v, f) {
      assert RdDrop(w, f);
    }
    forall f | f in v.dropWr ensures WrDrop(v, f) {
      assert WrDrop(w, f);
    }
  }

  lemma NewProcCallbacks(w: World, id: nat, fd: int, pid: int, watched: bool)
    requires CanSpawn(w, id, fd, pid)
    ensures Callbacks(NewProc(w, id, fd, pid, watched))
  {
    var v := NewProc(w, id, fd, pid, watched);
    NewIdIsFresh(w);
    forall f | f in v.rd ensures RdEntry(v, f) {
      assert f != fd ==> RdEntry(w, f);
    }
    assert forall f :: f in v.wr ==> WrEntry(w, f) && WrEntry(v, f);
    NewProcDrops(w, id, fd, pid, watched);
  }

  lemma NewProcProtocols(w: World, id: nat, fd: int, pid: int, watched: bool)
    requires CanSpawn(w, id, fd, pid)
    ensures var v := NewProc(w, id, fd, pid, watched);
            && (forall i :: i in v.sessions && i != id ==> SessionProtocol(v, i))
            && (forall q :: q in v.procs ==> ProcProtocol(v, q))
            && (forall q :: q in v.answers ==> AtMostOneAnswer(v, q))
  {
    NewProcSessions(w, id, fd, pid, watched);
    var v := NewProc(w, id, fd, pid, watched);
    NewIdIsFresh(w);
    forall q | q in v.procs ensures ProcProtocol(v, q) {
      assert q != w.nextId ==> ProcProtocol(w, q) && ProcOwns(w, q);
    }
    forall q | q in v.answers ensures AtMostOneAnswer(v, q) {
      assert q != w.nextId ==> AtMostOneAnswer(w, q);
    }
  }

  lemma NewProcSessions(w: World, id: nat, fd: int, pid: int, watched: bool)
    requires CanSpawn(w, id, fd, pid)
    ensures var v := NewProc(w, id, fd, pid, watched);
            forall i :: i in v.sessions && i != id ==> SessionProtocol(v, i)
  {
    var v := NewProc(w, id, fd, pid, watched);
    NewIdIsFresh(w);
    forall i | i in v.sessions && i != id ensures SessionProtocol(v, i) {
      assert SessionOwns(w, i) && SessionProtocol(w, i);
    }
  }

  lemma SpawnedKeeps(w: World, id: nat, fd: int, pid: int)
    requires CanSpawn(w, id, fd, pid)
    ensures Inv(NewProc(w, id, fd, pid, true))
  {
    NewProcOwned(w, id, fd, pid, true);
    NewProcCallbacks(w, id, fd, pid, true);
    NewProcProtocols(w, id, fd, pid, true);
    assert SessionOwns(w, id);
    hide Owned;
    hide Callbacks;
  }

  lemma UnwatchedAwaits(w: World, id: nat, fd: int, pid: int)
    requires CanSpawn(w, id, fd, pid)
    ensures AwaitsWrite(NewProc(w, id, fd, pid, false), id)
  {
    NewProcOwned(w, id, fd, pid, false);
    NewProcCallbacks(w, id, fd, pid, false);
    NewProcProtocols(w, id, fd, pid, false);
    assert SessionOwns(w, id);
    hide Owned;
    hide Callbacks;
  }

  lemma StartScriptIs(w: World, id: nat, fd: int, pid: int, registersScript: bool, registers: bool)
    requires CanSpawn(w, id, fd, pid)
    ensures StartScript(w, id, fd, pid, registersScript, registers)
            == if registersScript then NewProc(w, id, fd, pid, true)
               else PrepareResponse(NewProc(w, id, fd, pid, false), id, registers)
  {
    hide Owned;
    hide Callbacks;
    assert w.children[pid := w.nextId] - {pid} == w.children;
    var p := w.nextId;
    var x := Proc(id, fd, pid, true, false, false, []);
    assert w.procs[p := x][p := x.(described := false)] == w.procs[p := x.(described := false)];
    var none: seq<Answer> := [];
    assert none + [ErrorPage] == [ErrorPage];
    assert w.answers[p := none][p := [ErrorPage]] == w.answers[p := [ErrorPage]];
    hide PrepareResponse;
  }

  // What a complete request leads to, from the busy session on.
  function RequestOutcome(u: World, id: nat, reply: Reply, registers: bool): World
    requires id in u.sessions
  {
    if reply.RunScript? && reply.fd !in u.fds && reply.pid !in u.children then
      if reply.registers then NewProc(u, id, reply.fd, reply.pid, true)
      else PrepareResponse(NewProc(u, id, reply.fd, reply.pid, false), id, registers)
    else PrepareResponse(u, id, registers)
  }

  lemma ProcessRequestIs(w: World, id: nat, reply: Reply, registers: bool)
    requires Inv(w) && Settled(w) && ReadyForRequest(w, id)
    ensures ProcessRequest(w, id, reply, registers) == RequestOutcome(Busy(w, id), id, reply, registers)
  {
    BusyAwaits(w, id);
    var u := Busy(w, id);
    if reply.RunScript? && reply.fd !in u.fds && reply.pid !in u.children {
      hide Inv;
      hide AwaitsWrite;
      StartScriptIs(u, id, reply.fd, reply.pid, reply.registers, registers);
    }
    hide PrepareResponse;
    hide StartScript;
    hide NewProc;
  }

  lemma RequestOutcomeKeeps(u: World, id: nat, reply: Reply, registers: bool)
    requires AwaitsWrite(u, id) && Settled(u) && u.sessions[id].proc.None?
    ensures Inv(RequestOutcome(u, id, reply, registers))
  {
    assert id in u.sessions;
    hide Inv;
    hide AwaitsWrite;
    hide Settled;
    hide PrepareResponse;
    hide NewProc;
    if reply.RunScript? && reply.fd !in u.fds && reply.pid !in u.children {
      assert CanSpawn(u, id, reply.fd, reply.pid);
      hide CanSpawn;
      if reply.registers {
        SpawnedKeeps(u, id, reply.fd, reply.pid);
      } else {
        UnwatchedAwaits(u, id, reply.fd, reply.pid);
        PrepareResponseKeeps(NewProc(u, id, reply.fd, reply.pid, false), id, registers);
      }
    } else {
      PrepareResponseKeeps(u, id, registers);
    }
  }

  lemma ProcessRequestKeeps(w: World, id: nat, reply: Reply, registers: bool)
    requires Inv(w) && Settled(w) && ReadyForRequest(w, id)
    ensures Inv(ProcessRequest(w, id, reply, registers))
  {
    ProcessRequestIs(w, id, reply, registers);
    hide ProcessRequest;
    hide RequestOutcome;
    BusyAwaits(w, id);
    assert Settled(Busy(w, id));
    RequestOutcomeKeeps(Busy(w, id), id, reply, registers);
    hide Inv;
    hide AwaitsWrite;
  }
}
