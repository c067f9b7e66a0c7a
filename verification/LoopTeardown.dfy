/** The invariant is kept when a response has been sent and when a session is
    destroyed, each with its processor. */
module LoopTeardown {
  import opened Octets
  import opened LoopSpec
  import opened LoopInvariant

  // The processor of a session, if it has one, and that processor's socket.
  function ProcOf(s: Session): set<nat> { if s.proc.Some? then {s.proc.value} else {} }

  function SocketOf(w: World, s: Session): set<int> {
    if s.proc.Some? && s.proc.value in w.procs then {w.procs[s.proc.value].fd} else {}
  }

  function PidOf(w: World, s: Session): set<int> {
    if s.proc.Some? && s.proc.value in w.procs && w.procs[s.proc.value].described then
      {w.procs[s.proc.value].pid}
    else {}
  }

  function LiveSocketOf(w: World, s: Session): set<int> {
    if PidOf(w, s) == {} then {} else SocketOf(w, s)
  }

  // ----- a response that was sent

  function Ended(w: World, id: nat, close: bool): World
    requires id in w.sessions
  {
    var s := w.sessions[id];
    w.(dropWr := w.dropWr + {s.fd}, fds := w.fds - SocketOf(w, s), interest := w.interest - SocketOf(w, s),
       procs := w.procs - ProcOf(s),
       sessions := w.sessions[id := s.(busy := false, proc := None, sent := s.sent + 1, closed := s.closed || close)])
  }

  predicate CanEnd(w: World, id: nat) {
    Inv(w) && id in w.sessions && w.sessions[id].busy && Answered(w, w.sessions[id])
  }

  lemma CleanupIs(w: World, id: nat, close: bool)
    requires CanEnd(w, id)
    ensures ResponseSentCleanup(w, id, close) == Ended(w, id, close)
  {
    hide Inv;
    var s := w.sessions[id];
    var w1 := DeleteWrite(w, s.fd);
    if s.proc.Some? {
      var p := s.proc.value;
      var g := w.procs[p].fd;
      assert DestroyProc(w1, p) == w1.(fds := w.fds - {g}, interest := w.interest - {g}, procs := w.procs - {p});
    } else {
      assert w.fds - {} == w.fds && w.procs - {} == w.procs && w.interest - {} == w.interest;
    }
  }

  lemma EndedObjects(w: World, id: nat, close: bool)
    requires CanEnd(w, id)
    ensures var v := Ended(w, id, close);
            && (forall i :: i in v.sessions ==> SessionOwns(v, i))
            && (forall q :: q in v.procs ==> ProcOwns(v, q))
  {
    var v := Ended(w, id, close);
    assert SessionOwns(w, id);
    assert w.sessions[id].proc.Some? ==> ProcOwns(w, w.sessions[id].proc.value);
    forall i | i in v.sessions ensures SessionOwns(v, i) {
      assert SessionOwns(w, i);
    }
    forall q | q in v.procs ensures ProcOwns(v, q) {
      assert ProcOwns(w, q);
    }
  }

  lemma EndedTables(w: World, id: nat, close: bool)
    requires CanEnd(w, id)
    ensures var v := Ended(w, id, close);
            && (forall f :: f in v.fds ==> FdOwned(v, f))
            && (forall f :: f in v.clients ==> ClientOwned(v, f))
            && (forall c :: c in v.children ==> ChildOwned(v, c))
  {
    var v := Ended(w, id, close);
    assert SessionOwns(w, id);
    forall f | f in v.fds ensures FdOwned(v, f) {
      assert FdOwned(w, f);
    }
    forall f | f in v.clients ensures ClientOwned(v, f) {
      assert ClientOwned(w, f);
    }
    forall c | c in v.children ensures ChildOwned(v, c) {
      assert ChildOwned(w, c);
    }
  }

  lemma EndedCallbacks(w: World, id: nat, close: bool)
    requires CanEnd(w, id)
    ensures Callbacks(Ended(w, id, close))
  {
    var v := Ended(w, id, close);
    var s := w.sessions[id];
    assert SessionOwns(w, id);
    if s.proc.Some? {
      assert ProcOwns(w, s.proc.value) && ProcProtocol(w, s.proc.value);
    }
    forall f | f in v.rd ensures RdEntry(v, f) {
      assert RdEntry(w, f);
    }
    forall f | f in v.wr ensures WrEntry(v, f) {
      assert WrEntry(w, f);
    }
    forall f | f in v.dropRd ensures RdDrop(v, f) {
      assert RdDrop(w, f) && (f in w.fds ==> FdOwned(w, f));
    }
    forall f | f in v.dropWr ensures WrDrop(v, f) {
      assert f in w.dropWr ==> WrDrop(w, f);
    }
  }

  lemma EndedProtocols(w: World, id: nat, close: bool)
    requires CanEnd(w, id)
    ensures Protocols(Ended(w, id, close))
  {
    var v := Ended(w, id, close);
    assert SessionOwns(w, id);
    forall i | i in v.sessions ensures SessionProtocol(v, i) {
      assert SessionOwns(w, i) && SessionProtocol(w, i);
    }
    forall q | q in v.procs ensures ProcProtocol(v, q) {
      assert ProcOwns(w, q) && ProcProtocol(w, q);
    }
    assert forall q :: q in v.answers ==> AtMostOneAnswer(w, q) && AtMostOneAnswer(v, q);
  }

  lemma CleanupKeeps(w: World, id: nat, close: bool)
    requires CanEnd(w, id)
    ensures Inv(ResponseSentCleanup(w, id, close))
  {
    CleanupIs(w, id, close);
    EndedObjects(w, id, close);
    EndedTables(w, id, close);
    EndedCallbacks(w, id, close);
    EndedProtocols(w, id, close);
    assert !Ended(w, id, close).fault;
    hide ResponseSentCleanup;
    hide Ended;
    hide Callbacks;
    hide Protocols;
  }

  // ----- a session that is destroyed

  function Destroyed(w: World, id: nat): World
    requires id in w.sessions
  {
    var s := w.sessions[id];
    var gone := {s.fd} + LiveSocketOf(w, s);
    w.(dropRd := w.dropRd + gone, dropWr := w.dropWr + gone,
       fds := w.fds - ({s.fd} + SocketOf(w, s)), interest := w.interest - ({s.fd} + SocketOf(w, s)),
       procs := w.procs - ProcOf(s),
       children := w.children - PidOf(w, s), sessions := w.sessions - {id}, clients := w.clients - {s.fd})
  }

  lemma DestroySessionIs(w: World, id: nat)
    requires Inv(w) && id in w.sessions
    ensures DestroySession(w, id) == Destroyed(w, id)
  {
    assert SessionOwns(w, id);
    hide Inv;
    if w.sessions[id].proc.None? {
      DestroyAlone(w, id);
    } else {
      DestroyWithProc(w, id);
    }
    hide DestroySession;
    hide Destroyed;
  }

  lemma DestroyAlone(w: World, id: nat)
    requires id in w.sessions && w.sessions[id].proc.None?
    ensures DestroySession(w, id) == Destroyed(w, id)
  {
    var s := w.sessions[id];
    assert w.procs - {} == w.procs && w.children - {} == w.children;
    assert {s.fd} + {} == {s.fd};
  }

  // A processor's destructor when its child description is still there, or not.
  lemma DestroyDescribed(w: World, p: nat)
    requires p in w.procs && w.procs[p].described
    ensures var x := w.procs[p];
            DestroyProc(w, p) == w.(dropRd := w.dropRd + {x.fd}, dropWr := w.dropWr + {x.fd},
                                    children := w.children - {x.pid},
                                    fds := w.fds - {x.fd}, interest := w.interest - {x.fd}, procs := w.procs - {p})
  {
  }

  lemma DestroyUndescribed(w: World, p: nat)
    requires p in w.procs && !w.procs[p].described
    ensures var x := w.procs[p];
            DestroyProc(w, p) == w.(fds := w.fds - {x.fd}, interest := w.interest - {x.fd}, procs := w.procs - {p})
  {
  }

  lemma DestroyWithProc(w: World, id: nat)
    requires id in w.sessions && w.sessions[id].proc.Some? && w.sessions[id].proc.value in w.procs
    ensures DestroySession(w, id) == Destroyed(w, id)
  {
    hide DestroyProc;
    var s := w.sessions[id];
    var p := s.proc.value;
    var x := w.procs[p];
    var w1 := DeleteBoth(w, s.fd);
    assert w.fds - {x.fd} - {s.fd} == w.fds - ({s.fd} + {x.fd});
    assert w.interest - {x.fd} - {s.fd} == w.interest - ({s.fd} + {x.fd});
    if x.described {
      DestroyDescribed(w1, p);
      assert w.dropRd + {s.fd} + {x.fd} == w.dropRd + ({s.fd} + {x.fd});
      assert w.dropWr + {s.fd} + {x.fd} == w.dropWr + ({s.fd} + {x.fd});
    } else {
      DestroyUndescribed(w1, p);
      assert w.children - {} == w.children && {s.fd} + {} == {s.fd};
    }
  }

  lemma DestroyedObjects(w: World, id: nat)
    requires Inv(w) && id in w.sessions
    ensures var v := Destroyed(w, id);
            && (forall i :: i in v.sessions ==> SessionOwns(v, i))
            && (forall q :: q in v.procs ==> ProcOwns(v, q))
  {
    var v := Destroyed(w, id);
    assert SessionOwns(w, id);
    assert w.sessions[id].proc.Some? ==> ProcOwns(w, w.sessions[id].proc.value);
    forall i | i in v.sessions ensures SessionOwns(v, i) {
      assert SessionOwns(w, i);
    }
    forall q | q in v.procs ensures ProcOwns(v, q) {
      assert ProcOwns(w, q);
    }
  }

  lemma DestroyedTables(w: World, id: nat)
    requires Inv(w) && id in w.sessions
    ensures var v := Destroyed(w, id);
            && (forall f :: f in v.fds ==> FdOwned(v, f))
            && (forall f :: f in v.clients ==> ClientOwned(v, f))
            && (forall c :: c in v.children ==> ChildOwned(v, c))
  {
    var v := Destroyed(w, id);
    assert SessionOwns(w, id);
    forall f | f in v.fds ensures FdOwned(v, f) {
      assert FdOwned(w, f);
    }
    forall f | f in v.clients ensures ClientOwned(v, f) {
      assert ClientOwned(w, f) && SessionOwns(w, w.clients[f]);
    }
    forall c | c in v.children ensures ChildOwned(v, c) {
      assert ChildOwned(w, c);
    }
  }

  lemma DestroyedCallbacks(w: World, id: nat)
    requires Inv(w) && id in w.sessions
    ensures Callbacks(Destroyed(w, id))
  {
    var v := Destroyed(w, id);
    var s := w.sessions[id];
    assert SessionOwns(w, id);
    if s.proc.Some? {
      assert ProcOwns(w, s.proc.value) && ProcProtocol(w, s.proc.value);
    }
    DestroyedEntries(w, id);
    forall f | f in v.dropRd ensures RdDrop(v, f) {
      assert f in w.dropRd ==> RdDrop(w, f);
      assert f in w.fds ==> FdOwned(w, f);
    }
    forall f | f in v.dropWr ensures WrDrop(v, f) {
      assert f in w.dropWr ==> WrDrop(w, f);
      assert f in w.fds ==> FdOwned(w, f);
    }
  }

  lemma DestroyedEntries(w: World, id: nat)
    requires Inv(w) && id in w.sessions
    ensures var v := Destroyed(w, id);
            && (forall f :: f in v.rd ==> RdEntry(v, f))
            && (forall f :: f in v.wr ==> WrEntry(v, f))
  {
    var v := Destroyed(w, id);
    var s := w.sessions[id];
    assert SessionOwns(w, id);
    if s.proc.Some? {
      assert ProcOwns(w, s.proc.value) && ProcProtocol(w, s.proc.value);
    }
    forall f | f in v.rd ensures RdEntry(v, f) {
      assert RdEntry(w, f);
    }
    forall f | f in v.wr ensures WrEntry(v, f) {
      assert WrEntry(w, f);
    }
  }

  lemma DestroyedProtocols(w: World, id: nat)
    requires Inv(w) && id in w.sessions
    ensures Protocols(Destroyed(w, id))
  {
    var v := Destroyed(w, id);
    assert SessionOwns(w, id);
    forall i | i in v.sessions ensures SessionProtocol(v, i) {
      assert SessionOwns(w, i) && SessionProtocol(w, i);
    }
    forall q | q in v.procs ensures ProcProtocol(v, q) {
      assert ProcOwns(w, q) && ProcProtocol(w, q);
    }
    assert forall q :: q in v.answers ==> AtMostOneAnswer(w, q) && AtMostOneAnswer(v, q);
  }

  lemma DestroySessionKeeps(w: World, id: nat)
    requires Inv(w) && id in w.sessions
    ensures Inv(DestroySession(w, id))
  {
    DestroySessionIs(w, id);
    DestroyedObjects(w, id);
    DestroyedTables(w, id);
    DestroyedCallbacks(w, id);
    DestroyedProtocols(w, id);
    assert !Destroyed(w, id).fault;
    hide DestroySession;
    hide Destroyed;
    hide Callbacks;
    hide Protocols;
  }

  lemma SweepKeeps(w: World, fd: int, idle: set<int>)
    requires Inv(w)
    ensures Inv(Sweep(w, fd, idle))
  {
    if fd in w.clients {
      assert ClientOwned(w, fd);
      var id := w.clients[fd];
      hide Inv;
      hide DestroySession;
      hide Close;
      DestroySessionKeeps(w, id);
      CloseKeeps(w, id);
    }
  }
}
