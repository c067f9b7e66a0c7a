/** Whether the exit of a script's child is sure to be noticed. A processor
    keeps the process number of a child that was already collected, and kills
    that number if its output then fails or its session goes; a number given
    out again in between belongs to another processor's child. */
module CgiChildren {
  import opened Octets
  import opened LoopSpec
  import opened LoopInvariant
  import opened LoopSteps
  import opened LoopScripts
  import opened LoopTeardown
  import opened LoopDispatch
  import opened LoopRuns
  import opened LoopBackends

  /** A script whose child's exit is still awaited has its entry. */
  predicate WatchedProc(w: World, p: nat)
    requires p in w.procs
  {
    var x := w.procs[p];
    x.described && !x.exited ==> x.pid in w.children && w.children[x.pid] == p
  }

  predicate Watched(w: World) { forall p :: p in w.procs ==> WatchedProc(w, p) }

  /** No awaited child of the other processors has one of these numbers. */
  predicate SparesOthers(w: World, own: set<nat>, pids: set<int>) {
    forall q :: q in w.procs && q !in own && w.procs[q].described && !w.procs[q].exited ==> w.procs[q].pid !in pids
  }

  /** A failed read in this event kills no child but the processor's own. */
  predicate ReadKillsOwn(w: World, e: Event) {
    e.kind == Read && e.fd in w.rd && w.rd[e.fd].Script? && e.outcome.scriptRead == ReadFailed ==>
      var p := w.rd[e.fd].id;
      p in w.procs && w.procs[p].described ==> SparesOthers(w, {p}, {w.procs[p].pid})
  }

  /** So does the processor of the client visited, if it is destroyed. */
  predicate VisitKillsOwn(w: World, fd: int) {
    fd in w.clients && w.clients[fd] in w.sessions && w.sessions[w.clients[fd]].closed ==>
      var s := w.sessions[w.clients[fd]];
      SparesOthers(w, ProcOf(s), PidOf(w, s))
  }

  // ----- the two kills

  // Some processors are gone or no longer described, and some entries are gone.
  lemma RemovalLeaves(w: World, v: World, own: set<nat>, pids: set<int>)
    requires Watched(w) && v.children == w.children - pids
    requires forall q :: q in w.procs && q !in own ==> q in v.procs && v.procs[q] == w.procs[q]
    requires forall q :: q in v.procs ==> q in w.procs && (q in own ==> !v.procs[q].described)
    ensures Watched(v) <==> SparesOthers(w, own, pids)
  {
    forall q | q in w.procs && q !in own && w.procs[q].described && !w.procs[q].exited
      ensures WatchedProc(v, q) <==> w.procs[q].pid !in pids
    {
      assert WatchedProc(w, q);
    }
    if !Watched(v) {
      var q :| q in v.procs && !WatchedProc(v, q);
      assert WatchedProc(w, q) && q !in own;
    }
  }

  /** A failed read leaves every awaited child its entry if and only if no
      awaited child of another processor has that number. */
  lemma KillTakesOnlyOwnChild(w: World, p: nat, o: Outcome)
    requires Inv(w) && Watched(w) && p in w.procs && w.procs[p].described && !w.procs[p].outputRead
    requires o.scriptRead == ReadFailed
    ensures Watched(ScriptOnRead(w, p, o)) <==> SparesOthers(w, {p}, {w.procs[p].pid})
  {
    FailedReadTables(w, p, o);
    hide *;
    RemovalLeaves(w, ScriptOnRead(w, p, o), {p}, {w.procs[p].pid});
  }

  lemma FailedReadTables(w: World, p: nat, o: Outcome)
    requires p in w.procs && w.procs[p].described && o.scriptRead == ReadFailed
    ensures var v := ScriptOnRead(w, p, o);
            v.children == w.children - {w.procs[p].pid} && v.procs == w.procs[p := w.procs[p].(described := false)]
  {
    ScriptOnReadIs(w, p, o);
    hide ScriptOnRead;
    hide PrepareResponse;
  }

  /** The same for a session that is destroyed with its processor. */
  lemma DestroyTakesOnlyOwnChild(w: World, id: nat)
    requires Inv(w) && Watched(w) && id in w.sessions
    ensures Watched(DestroySession(w, id)) <==> SparesOthers(w, ProcOf(w.sessions[id]), PidOf(w, w.sessions[id]))
  {
    DestroySessionIs(w, id);
    DestroyedTables(w, id);
    hide *;
    RemovalLeaves(w, Destroyed(w, id), ProcOf(w.sessions[id]), PidOf(w, w.sessions[id]));
  }

  lemma DestroyedTables(w: World, id: nat)
    requires id in w.sessions
    ensures var v, s := Destroyed(w, id), w.sessions[id];
            v.children == w.children - PidOf(w, s) && v.procs == w.procs - ProcOf(s)
  {
  }

  // ----- the other steps

  lemma SameProcsWatched(w: World, v: World)
    requires Watched(w) && v.children == w.children
    requires forall p :: p in v.procs ==> p in w.procs && v.procs[p] == w.procs[p]
    ensures Watched(v)
  {
    forall p | p in v.procs ensures WatchedProc(v, p) {
      assert WatchedProc(w, p);
    }
  }

  lemma PrepareWatched(w: World, id: nat, registers: bool)
    requires Watched(w)
    ensures Watched(PrepareResponse(w, id, registers))
  {
    hide PrepareResponse;
    SameProcsWatched(w, PrepareResponse(w, id, registers));
  }

  lemma CloseWatched(w: World, id: nat)
    requires Watched(w)
    ensures Watched(Close(w, id))
  {
    hide Close;
    SameProcsWatched(w, Close(w, id));
  }

  // A new child's number has no entry, so nobody awaits it.
  lemma NewProcWatched(w: World, id: nat, fd: int, pid: int, watched: bool)
    requires Watched(w) && id in w.sessions && pid !in w.children && w.nextId !in w.procs
    ensures Watched(NewProc(w, id, fd, pid, watched))
  {
    var v := NewProc(w, id, fd, pid, watched);
    forall p | p in v.procs ensures WatchedProc(v, p) {
      assert p != w.nextId ==> WatchedProc(w, p);
    }
  }

  lemma ProcessRequestWatched(w: World, id: nat, reply: Reply, registers: bool)
    requires Inv(w) && Settled(w) && ReadyForRequest(w, id) && Watched(w)
    ensures Watched(ProcessRequest(w, id, reply, registers))
  {
    ProcessRequestIs(w, id, reply, registers);
    hide ProcessRequest;
    NewIdIsFresh(w);
    hide Inv;
    hide PrepareResponse;
    var u := Busy(w, id);
    SameProcsWatched(w, u);
    hide Watched;
    PrepareWatched(u, id, registers);
    if reply.RunScript? && reply.fd !in u.fds && reply.pid !in u.children {
      NewProcWatched(u, id, reply.fd, reply.pid, reply.registers);
      hide NewProc;
      PrepareWatched(NewProc(u, id, reply.fd, reply.pid, reply.registers), id, registers);
    }
  }

  lemma AcceptWatched(w: World, o: Outcome)
    requires Inv(w) && Settled(w) && Watched(w)
    ensures Watched(Accept(w, o))
  {
    if o.accepted.Some? && o.accepted.value !in w.fds {
      ClientsAreOpen(w, o.accepted.value);
      AcceptIs(w, o);
      SameProcsWatched(w, NewSession(w, o.accepted.value, o.registers));
      hide Accept;
    }
  }

  lemma ClientOnReadWatched(w: World, id: nat, o: Outcome)
    requires Inv(w) && Settled(w) && id in w.sessions && w.sessions[id].fd !in w.dropWr && Watched(w)
    ensures Watched(ClientOnRead(w, id, o))
  {
    CloseWatched(w, id);
    if o.clientRead.Finished? && !w.sessions[id].busy {
      ProcessRequestWatched(w, id, o.clientRead.reply, o.registers);
    }
    hide Inv;
    hide Watched;
    hide ProcessRequest;
    hide Close;
  }

  lemma ClientOnWriteWatched(w: World, id: nat, o: Outcome)
    requires CanEnd(w, id) && Watched(w)
    ensures Watched(ClientOnWrite(w, id, o))
  {
    CloseWatched(w, id);
    if o.clientWrite.AllSent? {
      CleanupIs(w, id, o.clientWrite.close);
      SameProcsWatched(w, Ended(w, id, o.clientWrite.close));
    }
    hide ResponseSentCleanup;
    hide Watched;
    hide Close;
  }

  // A script step that leaves the other awaited children their entries.
  lemma MovedWatched(w: World, p: nat, r: (Proc, bool, bool, Answer), registers: bool)
    requires CanMove(w, p, r.0, r.1, r.2) && (r.2 ==> r.0.exited || !r.0.described) && Watched(w)
    requires r.2 ==> SparesOthers(w, {p}, {w.procs[p].pid})
    ensures Watched(MoveAndAnswer(w, p, r, registers))
  {
    var u := ScriptMoved(w, p, r.0, r.1, r.2);
    hide Inv;
    hide PrepareResponse;
    forall q | q in u.procs ensures WatchedProc(u, q) {
      assert WatchedProc(w, q);
    }
    if !r.0.described {
      var v := ScriptFinished(w, p, r.0, r.3, r.1, r.2);
      SameProcsWatched(u, v);
      hide Watched;
      PrepareWatched(v, r.0.owner, registers);
    }
  }

  lemma ScriptOnReadWatched(w: World, p: nat, o: Outcome)
    requires Inv(w) && Watched(w) && p in w.procs && w.procs[p].described && !w.procs[p].outputRead
    ensures Watched(ScriptOnRead(w, p, o)) <==> (o.scriptRead == ReadFailed ==> SparesOthers(w, {p}, {w.procs[p].pid}))
  {
    if o.scriptRead == ReadFailed {
      KillTakesOnlyOwnChild(w, p, o);
    } else {
      ScriptReadCanMove(w, p, o);
      ScriptOnReadIs(w, p, o);
      MovedWatched(w, p, AfterScriptRead(w.procs[p], o), o.registers);
    }
    hide Inv;
    hide Watched;
    hide ScriptOnRead;
  }

  /** An event keeps every awaited child its entry exactly when it is not a
      failed read that kills another processor's child. */
  lemma DispatchWatched(w: World, e: Event)
    requires Inv(w) && Settled(w) && Due(w, e) && Watched(w)
    ensures Watched(Dispatch(w, e)) <==> ReadKillsOwn(w, e)
  {
    if e.kind == Read {
      DueRead(w, e);
      match w.rd[e.fd]
      case Listener => AcceptWatched(w, e.outcome);
      case Client(id) => ClientOnReadWatched(w, id, e.outcome);
      case Script(p) => ScriptOnReadWatched(w, p, e.outcome);
    } else {
      DueWrite(w, e);
      ClientOnWriteWatched(w, w.wr[e.fd].id, e.outcome);
    }
    hide Inv;
    hide Watched;
    hide SparesOthers;
    hide Accept;
    hide ClientOnRead;
    hide ClientOnWrite;
    hide ScriptOnRead;
  }

  // An entry that is found by its number is nobody else's.
  lemma EntryIsOwn(w: World, pid: int)
    requires Watched(w) && pid in w.children
    ensures SparesOthers(w, {w.children[pid]}, {pid})
  {
    forall q | q in w.procs && q != w.children[pid] && w.procs[q].described && !w.procs[q].exited
      ensures w.procs[q].pid != pid
    {
      assert WatchedProc(w, q);
    }
  }

  lemma ReapWatched(w: World, e: Exit)
    requires Inv(w) && Watched(w)
    ensures Watched(Reap(w, e))
  {
    if e.pid in w.children {
      assert ChildOwned(w, e.pid);
      var p := w.children[e.pid];
      var r := AfterExit(w.procs[p], e);
      assert r.2 ==> r.0.exited || !r.0.described;
      hide *;
      ExitCanMove(w, p, e);
      ReapIs(w, e);
      EntryIsOwn(w, e.pid);
      MovedWatched(w, p, r, e.registers);
    }
  }

  lemma SweepWatched(w: World, fd: int, idle: set<int>)
    requires Inv(w) && Watched(w)
    ensures Watched(Sweep(w, fd, idle)) <==> VisitKillsOwn(w, fd)
  {
    if fd in w.clients {
      assert ClientOwned(w, fd);
      var id := w.clients[fd];
      CloseWatched(w, id);
      DestroyTakesOnlyOwnChild(w, id);
      hide Inv;
      hide DestroySession;
      hide Close;
      hide Watched;
      hide SparesOthers;
    }
  }

  // ----- whole runs

  predicate DispatchesKillOwn(w: World, ready: seq<Event>)
    decreases |ready|
  {
    ready == [] || (ReadKillsOwn(w, ready[0]) && DispatchesKillOwn(Dispatch(w, ready[0]), ready[1..]))
  }

  predicate VisitsKillOwn(w: World, fds: seq<int>, idle: set<int>)
    decreases |fds|
  {
    fds == [] || (VisitKillsOwn(w, fds[0]) && VisitsKillOwn(Sweep(w, fds[0], idle), fds[1..], idle))
  }

  function AfterReaping(w: World, r: Round): World { ReapAll(DispatchAll(Flush(w), r.ready), r.exits) }

  /** In no round does a kill hit another processor's awaited child. */
  predicate RunKillsOwn(w: World, rounds: seq<Round>)
    decreases |rounds|
  {
    rounds == []
    || (&& DispatchesKillOwn(Flush(w), rounds[0].ready)
        && VisitsKillOwn(AfterReaping(w, rounds[0]), rounds[0].visited, rounds[0].idle)
        && RunKillsOwn(DoRound(w, rounds[0]), rounds[1..]))
  }

  predicate WatchedDispatches(w: World, ready: seq<Event>)
    decreases |ready|
  {
    Watched(w) && (ready == [] || WatchedDispatches(Dispatch(w, ready[0]), ready[1..]))
  }

  predicate WatchedVisits(w: World, fds: seq<int>, idle: set<int>)
    decreases |fds|
  {
    Watched(w) && (fds == [] || WatchedVisits(Sweep(w, fds[0], idle), fds[1..], idle))
  }

  /** In every round, after every event and every visited client, each awaited
      child has its entry. */
  predicate RunWatched(w: World, rounds: seq<Round>)
    decreases |rounds|
  {
    Watched(w)
    && (rounds == []
        || (&& WatchedDispatches(Flush(w), rounds[0].ready)
            && WatchedVisits(AfterReaping(w, rounds[0]), rounds[0].visited, rounds[0].idle)
            && RunWatched(DoRound(w, rounds[0]), rounds[1..])))
  }

  lemma {:induction false} DispatchAllWatched(w: World, ready: seq<Event>)
    requires Inv(w) && Settled(w) && AllDue(w, ready) && InOrder(ready) && Watched(w)
    ensures WatchedDispatches(w, ready) <==> DispatchesKillOwn(w, ready)
    ensures WatchedDispatches(w, ready) ==> Watched(DispatchAll(w, ready))
    decreases |ready|
  {
    hide Inv;
    hide Settled;
    hide InOrder;
    hide AllDue;
    hide Watched;
    hide ReadKillsOwn;
    hide Dispatch;
    if ready != [] {
      FirstDue(w, ready);
      DispatchKeeps(w, ready[0]);
      DispatchWatched(w, ready[0]);
      RestDue(w, ready);
      var v := Dispatch(w, ready[0]);
      if Watched(v) {
        DispatchAllWatched(v, ready[1..]);
      }
    }
  }

  lemma {:induction false} ReapAllWatched(w: World, exits: seq<Exit>)
    requires Inv(w) && Watched(w)
    ensures Watched(ReapAll(w, exits))
    decreases |exits|
  {
    hide Inv;
    hide Watched;
    if exits != [] {
      ReapKeeps(w, exits[0]);
      ReapWatched(w, exits[0]);
      ReapAllWatched(Reap(w, exits[0]), exits[1..]);
    }
  }

  lemma {:induction false} SweepAllWatched(w: World, fds: seq<int>, idle: set<int>)
    requires Inv(w) && Watched(w)
    ensures WatchedVisits(w, fds, idle) <==> VisitsKillOwn(w, fds, idle)
    ensures WatchedVisits(w, fds, idle) ==> Watched(SweepAll(w, fds, idle))
    decreases |fds|
  {
    hide Inv;
    hide Watched;
    hide VisitKillsOwn;
    hide Sweep;
    if fds != [] {
      SweepKeeps(w, fds[0], idle);
      SweepWatched(w, fds[0], idle);
      var v := Sweep(w, fds[0], idle);
      if Watched(v) {
        SweepAllWatched(v, fds[1..], idle);
      }
    }
  }

  predicate RoundWatched(w: World, r: Round) {
    WatchedDispatches(Flush(w), r.ready) && WatchedVisits(AfterReaping(w, r), r.visited, r.idle)
  }

  predicate RoundKillsOwn(w: World, r: Round) {
    DispatchesKillOwn(Flush(w), r.ready) && VisitsKillOwn(AfterReaping(w, r), r.visited, r.idle)
  }

  lemma RoundWatchedExactly(w: World, r: Round)
    requires Inv(w) && Watched(w) && Ready(Flush(w), r.ready)
    ensures RoundWatched(w, r) <==> RoundKillsOwn(w, r)
    ensures RoundWatched(w, r) ==> Watched(DoRound(w, r))
  {
    ReadyIsDue(w, r.ready);
    SameProcsWatched(w, Flush(w));
    hide Inv;
    hide Watched;
    hide Flush;
    hide Ready;
    var w1 := DispatchAll(Flush(w), r.ready);
    DispatchAllKeeps(Flush(w), r.ready);
    DispatchAllWatched(Flush(w), r.ready);
    ReapAllKeeps(w1, r.exits);
    if Watched(w1) {
      ReapAllWatched(w1, r.exits);
      SweepAllWatched(ReapAll(w1, r.exits), r.visited, r.idle);
    }
  }

  lemma {:induction false} RunWatchedExactly(w: World, rounds: seq<Round>)
    requires Inv(w) && Watched(w) && PossibleRun(w, rounds)
    ensures RunWatched(w, rounds) <==> RunKillsOwn(w, rounds)
    decreases |rounds|
  {
    hide Inv;
    hide Watched;
    hide DoRound;
    hide Flush;
    hide AfterReaping;
    if rounds != [] {
      RoundKeeps(w, rounds[0]);
      RoundWatchedExactly(w, rounds[0]);
      var v := DoRound(w, rounds[0]);
      if Watched(v) {
        RunWatchedExactly(v, rounds[1..]);
      }
    }
  }

  /** A run keeps every awaited child its entry throughout exactly when none of
      its kills hits another processor's awaited child. */
  lemma ExitsAreReportedExactly(listeners: set<int>, rounds: seq<Round>)
    requires PossibleRun(Initial(listeners), rounds)
    ensures RunWatched(Initial(listeners), rounds) <==> RunKillsOwn(Initial(listeners), rounds)
  {
    InitialInv(listeners);
    assert Watched(Initial(listeners));
    RunWatchedExactly(Initial(listeners), rounds);
  }

  lemma {:induction false} RunEndsWatched(w: World, rounds: seq<Round>)
    requires Inv(w) && Watched(w) && PossibleRun(w, rounds) && RunKillsOwn(w, rounds)
    ensures Watched(RunLoop(w, rounds))
    decreases |rounds|
  {
    hide Inv;
    hide Watched;
    hide DoRound;
    hide Flush;
    hide AfterReaping;
    if rounds != [] {
      RoundKeeps(w, rounds[0]);
      RoundWatchedExactly(w, rounds[0]);
      RunEndsWatched(DoRound(w, rounds[0]), rounds[1..]);
    }
  }

  /** No session is stuck. As long as no kill hits another processor's awaited
      child, every busy session that was not closed either has its write
      callback, or has a script whose output is read and whose exit is awaited
      as long as each is outstanding. */
  lemma NoSessionIsStuck(listeners: set<int>, rounds: seq<Round>, id: nat)
    requires PossibleRun(Initial(listeners), rounds) && RunKillsOwn(Initial(listeners), rounds)
    requires id in RunLoop(Initial(listeners), rounds).sessions
    ensures var w := RunLoop(Initial(listeners), rounds);
            var s := w.sessions[id];
            s.busy && !s.closed ==>
            || s.fd in w.wr
            || (&& s.proc.Some? && s.proc.value in w.procs
                && var x := w.procs[s.proc.value];
                   && x.described && !(x.outputRead && x.exited)
                   && (!x.outputRead ==> x.fd in w.rd && w.rd[x.fd] == Script(s.proc.value))
                   && (!x.exited ==> x.pid in w.children && w.children[x.pid] == s.proc.value))
  {
    InitialInv(listeners);
    RunKeeps(Initial(listeners), rounds);
    assert Watched(Initial(listeners));
    RunEndsWatched(Initial(listeners), rounds);
    var w := RunLoop(Initial(listeners), rounds);
    assert SessionProtocol(w, id) && SessionOwns(w, id);
    var s := w.sessions[id];
    if s.proc.Some? {
      var p := s.proc.value;
      assert ProcProtocol(w, p) && WatchedProc(w, p) && ProcOwns(w, p);
      assert w.procs[p].fd in w.rd ==> RdEntry(w, w.procs[p].fd);
    }
  }
}
