/** What every phase of the event loop keeps. */
module LoopInvariant {
  import opened Octets
  import opened LoopSpec

  // ----- who owns what

  predicate SessionOwns(w: World, id: nat)
    requires id in w.sessions
  {
    var s := w.sessions[id];
    && id < w.nextId
    && s.fd in w.fds && w.fds[s.fd] == Client(id)
    && s.fd in w.clients && w.clients[s.fd] == id
    && (s.proc.Some? ==> s.proc.value in w.procs && w.procs[s.proc.value].owner == id && s.busy)
  }

  predicate ProcOwns(w: World, p: nat)
    requires p in w.procs
  {
    var x := w.procs[p];
    && p < w.nextId
    && x.fd in w.fds && w.fds[x.fd] == Script(p)
    && x.owner in w.sessions && w.sessions[x.owner].proc == Some(p)
  }

  predicate FdOwned(w: World, f: int)
    requires f in w.fds
  {
    match w.fds[f]
    case Listener => f in w.rd
    case Client(id) => id in w.sessions && w.sessions[id].fd == f
    case Script(p) => p in w.procs && w.procs[p].fd == f
  }

  predicate ClientOwned(w: World, f: int)
    requires f in w.clients
  {
    w.clients[f] in w.sessions && w.sessions[w.clients[f]].fd == f
  }

  predicate ChildOwned(w: World, pid: int)
    requires pid in w.children
  {
    var p := w.children[pid];
    p in w.procs && w.procs[p].pid == pid && w.procs[p].described && !w.procs[p].exited
  }

  predicate Owned(w: World) {
    && (forall id :: id in w.sessions ==> SessionOwns(w, id))
    && (forall p :: p in w.procs ==> ProcOwns(w, p))
    && (forall f :: f in w.fds ==> FdOwned(w, f))
    && (forall f :: f in w.clients ==> ClientOwned(w, f))
    && (forall pid :: pid in w.children ==> ChildOwned(w, pid))
  }

  // ----- callbacks and deferred deletions

  /** An entry refers to the owner of its descriptor; one whose descriptor was
      closed is about to be deleted. */
  predicate RdEntry(w: World, f: int)
    requires f in w.rd
  {
    if f in w.fds then w.rd[f] == w.fds[f] else f in w.dropRd
  }

  predicate WrEntry(w: World, f: int)
    requires f in w.wr
  {
    if f in w.fds then w.wr[f] == w.fds[f] && w.fds[f].Client? else f in w.dropWr
  }

  /** A read callback waits for deletion only when its script needs it no more. */
  predicate RdDrop(w: World, f: int) {
    f in w.fds ==> w.fds[f].Script? && w.fds[f].id in w.procs
                   && (w.procs[w.fds[f].id].described ==> w.procs[w.fds[f].id].outputRead)
  }

  /** A write callback of a live session waits for deletion only after its
      response was sent. */
  predicate WrDrop(w: World, f: int) {
    f in w.fds ==> w.fds[f].Script? || (w.fds[f].Client? && w.fds[f].id in w.sessions && !w.sessions[w.fds[f].id].busy)
  }

  predicate Callbacks(w: World) {
    && (forall f :: f in w.rd ==> RdEntry(w, f))
    && (forall f :: f in w.wr ==> WrEntry(w, f))
    && (forall f :: f in w.dropRd ==> RdDrop(w, f))
    && (forall f :: f in w.dropWr ==> WrDrop(w, f))
  }

  // ----- protocols

  // The session's request has its response: nothing, or nothing more, is
  // expected from a script.
  predicate Answered(w: World, s: Session) {
    s.proc.None? || (s.proc.value in w.procs && !w.procs[s.proc.value].described)
  }

  /** One request at a time; a response that is ready has its write callback,
      and a write callback of a session that is not busy is being deleted. */
  predicate SessionProtocol(w: World, id: nat)
    requires id in w.sessions
  {
    var s := w.sessions[id];
    && s.completed == s.sent + (if s.busy then 1 else 0)
    && (s.fd in w.rd || s.closed)
    && (s.fd in w.wr ==> if s.busy then Answered(w, s) else s.fd in w.dropWr)
    && (s.busy && Answered(w, s) ==> s.fd in w.wr || s.closed)
  }

  /** A script that still runs has its read callback until it was read to the
      end, and one that does not has at most one that is being deleted. */
  predicate ProcProtocol(w: World, p: nat)
    requires p in w.procs
  {
    var x := w.procs[p];
    && (x.described ==> !(x.outputRead && x.exited))
    && (x.described && !x.outputRead ==> x.fd in w.rd)
    && (x.fd in w.rd && !(x.described && !x.outputRead) ==> x.fd in w.dropRd)
    && p in w.answers && |w.answers[p]| == if x.described then 0 else 1
  }

  predicate AtMostOneAnswer(w: World, p: nat)
    requires p in w.answers
  {
    p < w.nextId && |w.answers[p]| <= 1
  }

  predicate Protocols(w: World) {
    && (forall id :: id in w.sessions ==> SessionProtocol(w, id))
    && (forall p :: p in w.procs ==> ProcProtocol(w, p))
    && (forall p :: p in w.answers ==> AtMostOneAnswer(w, p))
  }

  predicate Inv(w: World) { Owned(w) && Callbacks(w) && Protocols(w) && !w.fault }

  /** No descriptor that was closed still has a callback or a deletion. */
  predicate Settled(w: World) {
    && (forall f :: f in w.rd ==> f in w.fds)
    && (forall f :: f in w.wr ==> f in w.fds)
    && (forall f :: f in w.dropRd ==> f in w.fds)
    && (forall f :: f in w.dropWr ==> f in w.fds)
  }

  // ----- flush

  lemma FlushOwned(w: World)
    requires Inv(w)
    ensures Owned(Flush(w))
  {
    var v := Flush(w);
    forall f | f in v.fds ensures FdOwned(v, f) {
      assert FdOwned(w, f);
      assert f in w.dropRd ==> RdDrop(w, f);
    }
    assert forall id :: id in v.sessions ==> SessionOwns(w, id) && SessionOwns(v, id);
    assert forall p :: p in v.procs ==> ProcOwns(w, p) && ProcOwns(v, p);
    assert forall f :: f in v.clients ==> ClientOwned(w, f) && ClientOwned(v, f);
    assert forall c :: c in v.children ==> ChildOwned(w, c) && ChildOwned(v, c);
  }

  lemma FlushCallbacks(w: World)
    requires Inv(w)
    ensures Callbacks(Flush(w)) && Settled(Flush(w))
  {
    var v := Flush(w);
    forall f | f in v.rd ensures RdEntry(v, f) && f in v.fds {
      assert RdEntry(w, f);
    }
    forall f | f in v.wr ensures WrEntry(v, f) && f in v.fds {
      assert WrEntry(w, f);
    }
  }

  lemma FlushProtocols(w: World)
    requires Inv(w)
    ensures Protocols(Flush(w))
  {
    var v := Flush(w);
    forall id | id in v.sessions ensures SessionProtocol(v, id) {
      assert SessionProtocol(w, id) && SessionOwns(w, id);
      var f := w.sessions[id].fd;
      assert f in w.dropRd ==> RdDrop(w, f);
      assert f in w.dropWr ==> WrDrop(w, f);
    }
    forall p | p in v.procs ensures ProcProtocol(v, p) {
      assert ProcProtocol(w, p) && ProcOwns(w, p);
      assert w.procs[p].fd in w.dropRd ==> RdDrop(w, w.procs[p].fd);
    }
    assert forall p :: p in v.answers ==> AtMostOneAnswer(w, p) && AtMostOneAnswer(v, p);
  }

  lemma FlushKeeps(w: World)
    requires Inv(w)
    ensures Inv(Flush(w)) && Settled(Flush(w))
  {
    FlushOwned(w);
    FlushCallbacks(w);
    FlushProtocols(w);
    assert !Flush(w).fault;
    hide Owned;
    hide Callbacks;
    hide Protocols;
    hide Settled;
    hide Flush;
  }

  // ----- the response callback

  /** All is kept but for one busy session whose response was just made and has
      no write callback yet. */
  predicate AwaitsWrite(w: World, id: nat) {
    && Owned(w) && Callbacks(w) && !w.fault
    && (forall p :: p in w.procs ==> ProcProtocol(w, p))
    && (forall p :: p in w.answers ==> AtMostOneAnswer(w, p))
    && (forall i :: i in w.sessions && i != id ==> SessionProtocol(w, i))
    && id in w.sessions
    && var s := w.sessions[id];
       s.busy && Answered(w, s) && s.completed == s.sent + 1 && s.fd !in w.wr && (s.fd in w.rd || s.closed)
  }

  lemma CloseKeepsOwned(w: World, id: nat)
    requires Owned(w) && id in w.sessions
    ensures Owned(Close(w, id))
  {
    var v := Close(w, id);
    forall i | i in v.sessions ensures SessionOwns(v, i) {
      assert SessionOwns(w, i);
    }
    forall p | p in v.procs ensures ProcOwns(v, p) {
      assert ProcOwns(w, p);
    }
    assert forall f :: f in v.fds ==> FdOwned(w, f) && FdOwned(v, f);
    assert forall f :: f in v.clients ==> ClientOwned(w, f) && ClientOwned(v, f);
    assert forall c :: c in v.children ==> ChildOwned(w, c) && ChildOwned(v, c);
  }

  lemma CloseKeepsCallbacks(w: World, id: nat)
    requires Callbacks(w) && id in w.sessions
    ensures Callbacks(Close(w, id))
  {
    var v := Close(w, id);
    assert forall f :: f in v.rd ==> RdEntry(w, f) && RdEntry(v, f);
    assert forall f :: f in v.wr ==> WrEntry(w, f) && WrEntry(v, f);
    assert forall f :: f in v.dropRd ==> RdDrop(w, f) && RdDrop(v, f);
    assert forall f :: f in v.dropWr ==> WrDrop(w, f) && WrDrop(v, f);
  }

  // A closed session needs no write callback.
  lemma CloseProtocols(w: World, id: nat)
    requires id in w.sessions && (Protocols(w) || AwaitsWrite(w, id))
    ensures Protocols(Close(w, id))
  {
    var v := Close(w, id);
    hide Owned;
    hide Callbacks;
    forall i | i in v.sessions ensures SessionProtocol(v, i) {
      assert i != id || Protocols(w) ==> SessionProtocol(w, i);
    }
    assert forall p :: p in v.procs ==> ProcProtocol(w, p) && ProcProtocol(v, p);
    assert forall p :: p in v.answers ==> AtMostOneAnswer(w, p) && AtMostOneAnswer(v, p);
  }

  lemma CloseKeeps(w: World, id: nat)
    requires id in w.sessions && (Inv(w) || AwaitsWrite(w, id))
    ensures Inv(Close(w, id))
  {
    CloseKeepsOwned(w, id);
    CloseKeepsCallbacks(w, id);
    CloseProtocols(w, id);
    assert !Close(w, id).fault;
    hide Owned;
    hide Callbacks;
    hide Protocols;
    hide Close;
  }

  // The session's write callback is registered.
  function WithWrite(w: World, id: nat): World
    requires id in w.sessions
  {
    var fd := w.sessions[id].fd;
    w.(wr := w.wr[fd := Client(id)], interest := w.interest[fd := {Write}])
  }

  lemma WithWriteOwned(w: World, id: nat)
    requires AwaitsWrite(w, id)
    ensures Owned(WithWrite(w, id))
  {
    var v := WithWrite(w, id);
    assert forall i :: i in v.sessions ==> SessionOwns(w, i) && SessionOwns(v, i);
    assert forall p :: p in v.procs ==> ProcOwns(w, p) && ProcOwns(v, p);
    assert forall f :: f in v.fds ==> FdOwned(w, f) && FdOwned(v, f);
    assert forall f :: f in v.clients ==> ClientOwned(w, f) && ClientOwned(v, f);
    assert forall c :: c in v.children ==> ChildOwned(w, c) && ChildOwned(v, c);
  }

  lemma WithWriteCallbacks(w: World, id: nat)
    requires AwaitsWrite(w, id)
    ensures Callbacks(WithWrite(w, id))
  {
    var v := WithWrite(w, id);
    assert SessionOwns(w, id);
    assert forall f :: f in v.rd ==> RdEntry(w, f) && RdEntry(v, f);
    forall f | f in v.wr ensures WrEntry(v, f) {
      assert f in w.wr ==> WrEntry(w, f);
    }
    assert forall f :: f in v.dropRd ==> RdDrop(w, f) && RdDrop(v, f);
    assert forall f :: f in v.dropWr ==> WrDrop(w, f) && WrDrop(v, f);
  }

  lemma WithWriteProtocols(w: World, id: nat)
    requires AwaitsWrite(w, id)
    ensures Protocols(WithWrite(w, id))
  {
    var v := WithWrite(w, id);
    assert SessionOwns(w, id);
    forall i | i in v.sessions ensures SessionProtocol(v, i) {
      assert SessionOwns(w, i) && (i != id ==> SessionProtocol(w, i));
    }
    assert forall p :: p in v.procs ==> ProcProtocol(w, p) && ProcProtocol(v, p);
    assert forall p :: p in v.answers ==> AtMostOneAnswer(w, p) && AtMostOneAnswer(v, p);
  }

  lemma PrepareResponseKeeps(w: World, id: nat, registers: bool)
    requires AwaitsWrite(w, id)
    ensures Inv(PrepareResponse(w, id, registers))
  {
    if registers {
      assert PrepareResponse(w, id, registers) == WithWrite(w, id);
      WithWriteOwned(w, id);
      WithWriteCallbacks(w, id);
      WithWriteProtocols(w, id);
      hide PrepareResponse;
      hide Owned;
      hide Callbacks;
      hide Protocols;
    } else {
      CloseKeeps(w, id);
    }
  }
}
