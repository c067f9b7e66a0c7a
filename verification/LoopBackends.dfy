/** The three multiplexers agree. Under epoll a write registration replaces the
    read interest of its descriptor; the events that are lost that way are the
    ones a busy session ignores. */
module LoopBackends {
  import opened Octets
  import opened LoopSpec
  import opened LoopInvariant
  import opened LoopSteps
  import opened LoopScripts
  import opened LoopTeardown
  import opened LoopDispatch
  import opened LoopRuns

  // ----- what the kernel watches for epoll

  /** The write callback's event if there is one, else the read callback's. */
  predicate SyncedFd(w: World, f: int) {
    if f in w.wr then f in w.interest && w.interest[f] == {Write}
    else if f in w.rd then f in w.interest && w.interest[f] == {Read}
    else f !in w.interest
  }

  predicate Synced(w: World) {
    && (forall f :: f in w.fds ==> SyncedFd(w, f))
    && (forall f :: f in w.interest ==> f in w.fds)
  }

  lemma FlushSynced(w: World)
    requires Inv(w) && Synced(w)
    ensures Synced(Flush(w))
  {
    var v := Flush(w);
    forall f | f in v.fds ensures SyncedFd(v, f) {
      assert SyncedFd(w, f);
      assert f in w.wr ==> WrEntry(w, f);
      assert f in w.dropRd ==> RdDrop(w, f);
    }
  }

  lemma PrepareSynced(w: World, id: nat, registers: bool)
    requires Synced(w) && id in w.sessions && w.sessions[id].fd in w.fds
    ensures Synced(PrepareResponse(w, id, registers))
  {
    var v := PrepareResponse(w, id, registers);
    CloseSynced(w, id);
    assert forall f :: f in v.fds ==> SyncedFd(w, f);
  }

  lemma SameTables(w: World, v: World)
    requires v.fds == w.fds && v.rd == w.rd && v.wr == w.wr && v.interest == w.interest && Synced(w)
    ensures Synced(v)
  {
    forall f | f in v.fds ensures SyncedFd(v, f) {
      assert SyncedFd(w, f);
    }
  }

  lemma CloseSynced(w: World, id: nat)
    requires Synced(w)
    ensures Synced(Close(w, id))
  {
    hide Close;
    SameTables(w, Close(w, id));
  }

  lemma NewSessionSynced(w: World, fd: int, registers: bool)
    requires Synced(w) && Settled(w) && fd !in w.fds
    ensures Synced(NewSession(w, fd, registers))
  {
    var v := NewSession(w, fd, registers);
    assert forall f :: f in w.fds ==> SyncedFd(w, f) && SyncedFd(v, f);
  }

  lemma NewProcSynced(w: World, id: nat, fd: int, pid: int, watched: bool)
    requires Synced(w) && Settled(w) && id in w.sessions && fd !in w.fds
    ensures Synced(NewProc(w, id, fd, pid, watched))
  {
    var v := NewProc(w, id, fd, pid, watched);
    assert forall f :: f in w.fds ==> SyncedFd(w, f) && SyncedFd(v, f);
  }

  lemma MovedSynced(w: World, p: nat, r: (Proc, bool, bool, Answer), registers: bool)
    requires CanMove(w, p, r.0, r.1, r.2) && Synced(w)
    ensures Synced(MoveAndAnswer(w, p, r, registers))
  {
    assert ProcOwns(w, p) && SessionOwns(w, w.procs[p].owner);
    hide Inv;
    SameTables(w, ScriptMoved(w, p, r.0, r.1, r.2));
    if !r.0.described {
      var u := ScriptFinished(w, p, r.0, r.3, r.1, r.2);
      SameTables(w, u);
      PrepareSynced(u, r.0.owner, registers);
    }
  }

  lemma EndedSynced(w: World, id: nat, close: bool)
    requires CanEnd(w, id) && Synced(w)
    ensures Synced(Ended(w, id, close))
  {
    hide Inv;
    var v := Ended(w, id, close);
    assert forall f :: f in v.fds ==> SyncedFd(w, f) && SyncedFd(v, f);
  }

  lemma DestroyedSynced(w: World, id: nat)
    requires id in w.sessions && Synced(w)
    ensures Synced(Destroyed(w, id))
  {
    var v := Destroyed(w, id);
    assert forall f :: f in v.fds ==> SyncedFd(w, f) && SyncedFd(v, f);
  }

  lemma BusySynced(w: World, id: nat)
    requires Inv(w) && Settled(w) && Synced(w) && id in w.sessions
    ensures var u := Busy(w, id);
            Synced(u) && Settled(u) && id in u.sessions && u.sessions[id].fd in u.fds
  {
    SameTables(w, Busy(w, id));
    hide Synced;
    assert SessionOwns(w, id);
  }

  lemma ProcessRequestSynced(w: World, id: nat, reply: Reply, registers: bool)
    requires Inv(w) && Settled(w) && ReadyForRequest(w, id) && Synced(w)
    ensures Synced(ProcessRequest(w, id, reply, registers))
  {
    ProcessRequestIs(w, id, reply, registers);
    hide ProcessRequest;
    BusySynced(w, id);
    var u := Busy(w, id);
    hide Inv;
    hide Settled;
    hide Synced;
    hide ReadyForRequest;
    hide PrepareResponse;
    hide Busy;
    PrepareSynced(u, id, registers);
    if reply.RunScript? && reply.fd !in u.fds && reply.pid !in u.children {
      NewProcSynced(u, id, reply.fd, reply.pid, reply.registers);
      PrepareSynced(NewProc(u, id, reply.fd, reply.pid, reply.registers), id, registers);
    }
  }

  lemma DispatchSynced(w: World, e: Event)
    requires Inv(w) && Settled(w) && Due(w, e) && Synced(w)
    ensures Synced(Dispatch(w, e))
  {
    if e.kind == Read {
      DueRead(w, e);
      match w.rd[e.fd]
      case Listener => AcceptSynced(w, e.outcome);
      case Client(id) => ClientOnReadSynced(w, id, e.outcome);
      case Script(p) => ScriptOnReadSynced(w, p, e.outcome);
    } else {
      DueWrite(w, e);
      ClientOnWriteSynced(w, w.wr[e.fd].id, e.outcome);
    }
  }

  lemma AcceptSynced(w: World, o: Outcome)
    requires Inv(w) && Settled(w) && Synced(w)
    ensures Synced(Accept(w, o))
  {
    if o.accepted.Some? && o.accepted.value !in w.fds {
      ClientsAreOpen(w, o.accepted.value);
      AcceptIs(w, o);
      NewSessionSynced(w, o.accepted.value, o.registers);
      hide Accept;
    }
  }

  lemma ClientOnReadSynced(w: World, id: nat, o: Outcome)
    requires Inv(w) && Settled(w) && Synced(w) && id in w.sessions && w.sessions[id].fd !in w.dropWr
    ensures Synced(ClientOnRead(w, id, o))
  {
    CloseSynced(w, id);
    if o.clientRead.Finished? && !w.sessions[id].busy {
      ProcessRequestSynced(w, id, o.clientRead.reply, o.registers);
    }
    hide Inv;
    hide Synced;
    hide ProcessRequest;
  }

  lemma ScriptOnReadSynced(w: World, p: nat, o: Outcome)
    requires Inv(w) && Synced(w) && p in w.procs && w.procs[p].described && !w.procs[p].outputRead
    ensures Synced(ScriptOnRead(w, p, o))
  {
    ScriptReadCanMove(w, p, o);
    ScriptOnReadIs(w, p, o);
    MovedSynced(w, p, AfterScriptRead(w.procs[p], o), o.registers);
    hide ScriptOnRead;
  }

  lemma ClientOnWriteSynced(w: World, id: nat, o: Outcome)
    requires CanEnd(w, id) && Synced(w)
    ensures Synced(ClientOnWrite(w, id, o))
  {
    CloseSynced(w, id);
    if o.clientWrite.AllSent? {
      CleanupIs(w, id, o.clientWrite.close);
      EndedSynced(w, id, o.clientWrite.close);
    }
    hide ResponseSentCleanup;
    hide Synced;
    hide Close;
  }

  lemma ReapSynced(w: World, e: Exit)
    requires Inv(w) && Synced(w)
    ensures Synced(Reap(w, e))
  {
    if e.pid in w.children {
      assert ChildOwned(w, e.pid);
      var p := w.children[e.pid];
      ExitCanMove(w, p, e);
      ReapIs(w, e);
      MovedSynced(w, p, AfterExit(w.procs[p], e), e.registers);
      hide Reap;
    }
  }

  lemma SweepSynced(w: World, fd: int, idle: set<int>)
    requires Inv(w) && Synced(w)
    ensures Synced(Sweep(w, fd, idle))
  {
    if fd in w.clients {
      assert ClientOwned(w, fd);
      var id := w.clients[fd];
      CloseSynced(w, id);
      DestroySessionIs(w, id);
      DestroyedSynced(w, id);
      hide DestroySession;
      hide Close;
      hide Synced;
    }
  }

  // ----- whole phases

  lemma {:induction false} DispatchAllSynced(w: World, ready: seq<Event>)
    requires Inv(w) && Settled(w) && AllDue(w, ready) && InOrder(ready) && Synced(w)
    ensures Synced(DispatchAll(w, ready))
    decreases |ready|
  {
    hide Inv;
    hide Settled;
    hide InOrder;
    hide AllDue;
    hide Synced;
    if ready != [] {
      FirstDue(w, ready);
      DispatchKeeps(w, ready[0]);
      DispatchSynced(w, ready[0]);
      RestDue(w, ready);
      DispatchAllSynced(Dispatch(w, ready[0]), ready[1..]);
    }
  }

  lemma {:induction false} ReapAllSynced(w: World, exits: seq<Exit>)
    requires Inv(w) && Synced(w)
    ensures Synced(ReapAll(w, exits))
    decreases |exits|
  {
    hide Inv;
    hide Synced;
    if exits != [] {
      ReapKeeps(w, exits[0]);
      ReapSynced(w, exits[0]);
      ReapAllSynced(Reap(w, exits[0]), exits[1..]);
    }
  }

  lemma {:induction false} SweepAllSynced(w: World, fds: seq<int>, idle: set<int>)
    requires Inv(w) && Synced(w)
    ensures Synced(SweepAll(w, fds, idle))
    decreases |fds|
  {
    hide Inv;
    hide Synced;
    if fds != [] {
      SweepKeeps(w, fds[0], idle);
      SweepSynced(w, fds[0], idle);
      SweepAllSynced(Sweep(w, fds[0], idle), fds[1..], idle);
    }
  }

  lemma RoundSynced(w: World, r: Round)
    requires Inv(w) && Synced(w) && Ready(Flush(w), r.ready)
    ensures Synced(DoRound(w, r))
  {
    ReadyIsDue(w, r.ready);
    FlushSynced(w);
    hide Inv;
    hide Synced;
    hide Flush;
    hide Ready;
    var w1 := DispatchAll(Flush(w), r.ready);
    DispatchAllKeeps(Flush(w), r.ready);
    DispatchAllSynced(Flush(w), r.ready);
    ReapAllKeeps(w1, r.exits);
    ReapAllSynced(w1, r.exits);
    SweepAllSynced(ReapAll(w1, r.exits), r.visited, r.idle);
  }

  // ----- what epoll does not report

  /** What epoll_wait may report: events in the kernel's interest, in order. */
  predicate EpollReady(w: World, ready: seq<Event>) {
    && InOrder(ready)
    && forall i :: 0 <= i < |ready| ==> ready[i].fd in w.interest && ready[i].kind in w.interest[ready[i].fd]
  }

  // A read event of a descriptor whose write callback is registered.
  predicate Shadowed(w: World, e: Event) { e.kind == Read && e.fd in w.wr }

  function Unshadowed(w: World, ready: seq<Event>): (r: seq<Event>)
    ensures |r| <= |ready|
  {
    if ready == [] then []
    else (if Shadowed(w, ready[0]) then [] else [ready[0]]) + Unshadowed(w, ready[1..])
  }

  lemma {:induction false} UnshadowedMembers(w: World, ready: seq<Event>, e: Event)
    ensures e in Unshadowed(w, ready) <==> e in ready && !Shadowed(w, e)
    decreases |ready|
  {
    if ready != [] {
      UnshadowedMembers(w, ready[1..], e);
      assert e in ready <==> e == ready[0] || e in ready[1..];
    }
  }

  lemma {:induction false} UnshadowedInOrder(w: World, ready: seq<Event>)
    requires InOrder(ready)
    ensures InOrder(Unshadowed(w, ready))
    decreases |ready|
  {
    if ready != [] {
      RestInOrder(ready);
      UnshadowedInOrder(w, ready[1..]);
      var r := Unshadowed(w, ready[1..]);
      if !Shadowed(w, ready[0]) {
        forall j | 0 <= j < |r| ensures MayFollow(ready[0], r[j]) {
          UnshadowedMembers(w, ready[1..], r[j]);
          var k :| 0 <= k < |ready[1..]| && ready[1..][k] == r[j];
        }
        ConsInOrder(ready[0], r);
      }
    }
  }

  lemma ConsInOrder(e: Event, r: seq<Event>)
    requires InOrder(r) && forall j :: 0 <= j < |r| ==> MayFollow(e, r[j])
    ensures InOrder([e] + r)
  {
    var s := [e] + r;
    forall i, j | 0 <= i < j < |s| ensures MayFollow(s[i], s[j]) {
      assert s[j] == r[j - 1] && (i > 0 ==> s[i] == r[i - 1]);
    }
  }

  /** epoll reports exactly what the other multiplexers may, without the
      shadowed reads. */
  lemma EpollReportsUnshadowed(w: World, ready: seq<Event>)
    requires Inv(w) && Settled(w) && Synced(w)
    ensures EpollReady(w, ready) <==> Ready(w, ready) && forall i :: 0 <= i < |ready| ==> !Shadowed(w, ready[i])
  {
    forall i | 0 <= i < |ready|
      ensures (ready[i].fd in w.interest && ready[i].kind in w.interest[ready[i].fd])
              <==> (Registered(w, ready[i]) && !Shadowed(w, ready[i]))
    {
      var f := ready[i].fd;
      assert f in w.fds ==> SyncedFd(w, f);
    }
  }

  /** A shadowed read that is due does nothing. */
  lemma ShadowedDoesNothing(w: World, e: Event)
    requires Inv(w) && Settled(w) && Due(w, e) && Shadowed(w, e)
    ensures Dispatch(w, e) == w
  {
    DueRead(w, e);
    assert RdEntry(w, e.fd) && WrEntry(w, e.fd);
    assert SessionProtocol(w, w.rd[e.fd].id);
  }

  lemma {:induction false} UnshadowedSame(w0: World, w: World, ready: seq<Event>)
    requires Inv(w) && Settled(w) && AllDue(w, ready) && InOrder(ready)
    requires forall f :: f in w0.wr ==> f in w.wr
    ensures DispatchAll(w, Unshadowed(w0, ready)) == DispatchAll(w, ready)
    decreases |ready|
  {
    hide Inv;
    hide Settled;
    hide InOrder;
    hide AllDue;
    hide Dispatch;
    if ready != [] {
      FirstDue(w, ready);
      DispatchKeeps(w, ready[0]);
      RestDue(w, ready);
      UnshadowedSame(w0, Dispatch(w, ready[0]), ready[1..]);
      if Shadowed(w0, ready[0]) {
        ShadowedDoesNothing(w, ready[0]);
        assert Unshadowed(w0, ready) == Unshadowed(w0, ready[1..]);
      } else {
        assert Unshadowed(w0, ready)[1..] == Unshadowed(w0, ready[1..]);
      }
    }
  }

  // ----- whole runs

  predicate EpollRun(w: World, rounds: seq<Round>)
    decreases |rounds|
  {
    rounds == [] || (EpollReady(Flush(w), rounds[0].ready) && EpollRun(DoRound(w, rounds[0]), rounds[1..]))
  }

  // The run epoll makes of the same outside events.
  function AsEpoll(w: World, rounds: seq<Round>): seq<Round>
    decreases |rounds|
  {
    if rounds == [] then []
    else [rounds[0].(ready := Unshadowed(Flush(w), rounds[0].ready))] + AsEpoll(DoRound(w, rounds[0]), rounds[1..])
  }

  lemma RoundAsEpoll(w: World, r: Round)
    requires Inv(w) && Synced(w) && Ready(Flush(w), r.ready)
    ensures var e := r.(ready := Unshadowed(Flush(w), r.ready));
            EpollReady(Flush(w), e.ready) && DoRound(w, e) == DoRound(w, r)
  {
    ReadyIsDue(w, r.ready);
    FlushSynced(w);
    var v := Flush(w);
    UnshadowedInOrder(v, r.ready);
    var u := Unshadowed(v, r.ready);
    forall i | 0 <= i < |u| ensures Registered(v, u[i]) && !Shadowed(v, u[i]) {
      UnshadowedMembers(v, r.ready, u[i]);
    }
    EpollReportsUnshadowed(v, u);
    UnshadowedSame(v, v, r.ready);
    hide Inv;
    hide Synced;
  }

  lemma {:induction false} RunAsEpoll(w: World, rounds: seq<Round>)
    requires Inv(w) && Synced(w) && PossibleRun(w, rounds)
    ensures EpollRun(w, AsEpoll(w, rounds)) && RunLoop(w, AsEpoll(w, rounds)) == RunLoop(w, rounds)
    decreases |rounds|
  {
    hide Inv;
    hide Synced;
    hide DoRound;
    hide Ready;
    hide EpollReady;
    if rounds != [] {
      RoundAsEpoll(w, rounds[0]);
      RoundKeeps(w, rounds[0]);
      RoundSynced(w, rounds[0]);
      RunAsEpoll(DoRound(w, rounds[0]), rounds[1..]);
      assert AsEpoll(w, rounds)[1..] == AsEpoll(DoRound(w, rounds[0]), rounds[1..]);
    }
  }

  lemma {:induction false} EpollRunIsPossible(w: World, rounds: seq<Round>)
    requires Inv(w) && Synced(w) && EpollRun(w, rounds)
    ensures PossibleRun(w, rounds)
    decreases |rounds|
  {
    hide Inv;
    hide Synced;
    hide DoRound;
    if rounds != [] {
      FlushSynced(w);
      FlushKeeps(w);
      EpollReportsUnshadowed(Flush(w), rounds[0].ready);
      RoundKeeps(w, rounds[0]);
      RoundSynced(w, rounds[0]);
      EpollRunIsPossible(DoRound(w, rounds[0]), rounds[1..]);
    }
  }

  /** Backend independence. Every run of the loop over select or poll is, state
      by state, a run over epoll of the same outside events, and every run over
      epoll is one the others can make. */
  lemma BackendsAgree(listeners: set<int>, rounds: seq<Round>)
    ensures var w := Initial(listeners);
            && (PossibleRun(w, rounds) ==>
                  EpollRun(w, AsEpoll(w, rounds)) && RunLoop(w, AsEpoll(w, rounds)) == RunLoop(w, rounds))
            && (EpollRun(w, rounds) ==> PossibleRun(w, rounds))
  {
    var w := Initial(listeners);
    InitialInv(listeners);
    assert Synced(w) by {
      assert forall f :: f in w.fds ==> SyncedFd(w, f);
    }
    hide Inv;
    hide Synced;
    if PossibleRun(w, rounds) {
      RunAsEpoll(w, rounds);
    }
    if EpollRun(w, rounds) {
      EpollRunIsPossible(w, rounds);
    }
  }
}
