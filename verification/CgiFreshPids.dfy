/** Process numbers that are not given out again while a processor holds them
    are enough for every exit to be reported. */
module CgiFreshPids {
  import opened Octets
  import opened LoopSpec
  import opened LoopInvariant
  import opened LoopSteps
  import opened LoopScripts
  import opened LoopTeardown
  import opened LoopDispatch
  import opened LoopRuns
  import opened LoopBackends
  import opened CgiChildren

  /** No other processor that still has its child description has this number. */
  predicate PidUnused(w: World, pid: int, p: nat) {
    forall q :: q in w.procs && q != p && w.procs[q].described ==> w.procs[q].pid != pid
  }

  predicate DistinctPids(w: World) {
    forall p :: p in w.procs && w.procs[p].described ==> PidUnused(w, w.procs[p].pid, p)
  }

  /** A fork in this event gets a number that no described processor has. */
  predicate FreshPid(w: World, e: Event) {
    match e.outcome.clientRead
    case Finished(RunScript(fd, pid, watched)) => PidUnused(w, pid, w.nextId)
    case _ => true
  }

  // ----- one step

  predicate SameOrGone(w: World, v: World, p: nat) {
    p in v.procs ==>
      p in w.procs && v.procs[p].pid == w.procs[p].pid && (v.procs[p].described ==> w.procs[p].described)
  }

  // No processor gets a number it did not have.
  predicate NoNewPid(w: World, v: World) { forall p :: p in v.procs ==> SameOrGone(w, v, p) }

  lemma NoNewPidDistinct(w: World, v: World)
    requires DistinctPids(w) && NoNewPid(w, v)
    ensures DistinctPids(v)
  {
    forall p | p in v.procs && v.procs[p].described ensures PidUnused(v, v.procs[p].pid, p) {
      assert SameOrGone(w, v, p) && PidUnused(w, w.procs[p].pid, p);
      assert forall q :: q in v.procs ==> SameOrGone(w, v, q);
    }
  }

  lemma NewProcDistinct(w: World, id: nat, fd: int, pid: int, watched: bool)
    requires DistinctPids(w) && id in w.sessions && w.nextId !in w.procs && PidUnused(w, pid, w.nextId)
    ensures DistinctPids(NewProc(w, id, fd, pid, watched))
  {
    var v := NewProc(w, id, fd, pid, watched);
    forall p | p in v.procs && v.procs[p].described ensures PidUnused(v, v.procs[p].pid, p) {
      assert p != w.nextId ==> PidUnused(w, w.procs[p].pid, p);
    }
  }

  lemma ProcessRequestDistinct(w: World, id: nat, reply: Reply, registers: bool)
    requires Inv(w) && Settled(w) && ReadyForRequest(w, id) && DistinctPids(w)
    requires reply.RunScript? ==> PidUnused(w, reply.pid, w.nextId)
    ensures DistinctPids(ProcessRequest(w, id, reply, registers))
  {
    ProcessRequestIs(w, id, reply, registers);
    NewIdIsFresh(w);
    hide ProcessRequest;
    hide Inv;
    hide PrepareResponse;
    var u, v := Busy(w, id), ProcessRequest(w, id, reply, registers);
    NoNewPidDistinct(w, u);
    if reply.RunScript? && reply.fd !in u.fds && reply.pid !in u.children {
      NewProcDistinct(u, id, reply.fd, reply.pid, reply.registers);
      NoNewPidDistinct(NewProc(u, id, reply.fd, reply.pid, reply.registers), v);
    } else {
      NoNewPidDistinct(u, v);
    }
    hide DistinctPids;
  }

  lemma ClientOnReadDistinct(w: World, id: nat, e: Event)
    requires Inv(w) && Settled(w) && id in w.sessions && w.sessions[id].fd !in w.dropWr
    requires DistinctPids(w) && FreshPid(w, e)
    ensures DistinctPids(ClientOnRead(w, id, e.outcome))
  {
    hide Inv;
    hide ProcessRequest;
    hide Close;
    hide DistinctPids;
    if e.outcome.clientRead.Finished? && !w.sessions[id].busy {
      ProcessRequestDistinct(w, id, e.outcome.clientRead.reply, e.outcome.registers);
    } else {
      NoNewPidDistinct(w, ClientOnRead(w, id, e.outcome));
    }
  }

  lemma MovedDistinct(w: World, p: nat, r: (Proc, bool, bool, Answer), registers: bool)
    requires CanMove(w, p, r.0, r.1, r.2) && DistinctPids(w)
    ensures DistinctPids(MoveAndAnswer(w, p, r, registers))
  {
    var u := ScriptMoved(w, p, r.0, r.1, r.2);
    hide Inv;
    hide DistinctPids;
    NoNewPidDistinct(w, u);
    hide NoNewPid;
    hide PrepareResponse;
    if !r.0.described {
      SameProcsDistinct(u, MoveAndAnswer(w, p, r, registers));
    }
  }

  lemma SameProcsDistinct(w: World, v: World)
    requires DistinctPids(w) && v.procs == w.procs
    ensures DistinctPids(v)
  {
    NoNewPidDistinct(w, v);
    hide DistinctPids;
  }

  lemma ClientOnWriteDistinct(w: World, id: nat, o: Outcome)
    requires CanEnd(w, id) && DistinctPids(w)
    ensures DistinctPids(ClientOnWrite(w, id, o))
  {
    CleanupIs(w, id, o.clientWrite.AllSent? && o.clientWrite.close);
    hide CanEnd;
    hide ResponseSentCleanup;
    hide Close;
    hide DistinctPids;
    NoNewPidDistinct(w, ClientOnWrite(w, id, o));
  }

  lemma DispatchDistinct(w: World, e: Event)
    requires Inv(w) && Settled(w) && Due(w, e) && DistinctPids(w) && FreshPid(w, e)
    ensures DistinctPids(Dispatch(w, e))
  {
    if e.kind == Read {
      DueRead(w, e);
      match w.rd[e.fd]
      case Listener => NoNewPidDistinct(w, Accept(w, e.outcome));
      case Client(id) => ClientOnReadDistinct(w, id, e);
      case Script(p) =>
        ScriptReadCanMove(w, p, e.outcome);
        ScriptOnReadIs(w, p, e.outcome);
        MovedDistinct(w, p, AfterScriptRead(w.procs[p], e.outcome), e.outcome.registers);
    } else {
      DueWrite(w, e);
      ClientOnWriteDistinct(w, w.wr[e.fd].id, e.outcome);
    }
    hide Inv;
    hide DistinctPids;
    hide ClientOnRead;
    hide ClientOnWrite;
    hide ScriptOnRead;
  }

  lemma ReapDistinct(w: World, e: Exit)
    requires Inv(w) && DistinctPids(w)
    ensures DistinctPids(Reap(w, e))
  {
    if e.pid in w.children {
      assert ChildOwned(w, e.pid);
      var p := w.children[e.pid];
      ExitCanMove(w, p, e);
      ReapIs(w, e);
      MovedDistinct(w, p, AfterExit(w.procs[p], e), e.registers);
      hide Reap;
    }
  }

  lemma SweepDistinct(w: World, fd: int, idle: set<int>)
    requires Inv(w) && DistinctPids(w)
    ensures DistinctPids(Sweep(w, fd, idle))
  {
    if fd in w.clients {
      assert ClientOwned(w, fd);
      DestroySessionIs(w, w.clients[fd]);
      hide Inv;
      hide DestroySession;
      hide Close;
      hide DistinctPids;
      NoNewPidDistinct(w, Sweep(w, fd, idle));
    }
  }

  // Distinct numbers leave nothing for a kill to hit.
  lemma DistinctKillsOwn(w: World)
    requires DistinctPids(w)
    ensures forall e: Event :: ReadKillsOwn(w, e)
    ensures forall fd: int :: VisitKillsOwn(w, fd)
  {
    forall p | p in w.procs && w.procs[p].described ensures SparesOthers(w, {p}, {w.procs[p].pid}) {
      assert PidUnused(w, w.procs[p].pid, p);
    }
  }

  // ----- whole runs

  predicate FreshPidsIn(w: World, ready: seq<Event>)
    decreases |ready|
  {
    ready == [] || (FreshPid(w, ready[0]) && FreshPidsIn(Dispatch(w, ready[0]), ready[1..]))
  }

  predicate FreshPids(w: World, rounds: seq<Round>)
    decreases |rounds|
  {
    rounds == [] || (FreshPidsIn(Flush(w), rounds[0].ready) && FreshPids(DoRound(w, rounds[0]), rounds[1..]))
  }

  lemma {:induction false} DispatchAllDistinct(w: World, ready: seq<Event>)
    requires Inv(w) && Settled(w) && AllDue(w, ready) && InOrder(ready) && DistinctPids(w) && FreshPidsIn(w, ready)
    ensures DistinctPids(DispatchAll(w, ready)) && DispatchesKillOwn(w, ready)
    decreases |ready|
  {
    hide Inv;
    hide Settled;
    hide InOrder;
    hide AllDue;
    hide DistinctPids;
    hide ReadKillsOwn;
    if ready != [] {
      FirstDue(w, ready);
      DispatchKeeps(w, ready[0]);
      DispatchDistinct(w, ready[0]);
      DistinctKillsOwn(w);
      RestDue(w, ready);
      DispatchAllDistinct(Dispatch(w, ready[0]), ready[1..]);
    }
  }

  lemma {:induction false} ReapAllDistinct(w: World, exits: seq<Exit>)
    requires Inv(w) && DistinctPids(w)
    ensures DistinctPids(ReapAll(w, exits))
    decreases |exits|
  {
    hide Inv;
    hide DistinctPids;
    if exits != [] {
      ReapKeeps(w, exits[0]);
      ReapDistinct(w, exits[0]);
      ReapAllDistinct(Reap(w, exits[0]), exits[1..]);
    }
  }

  lemma {:induction false} SweepAllDistinct(w: World, fds: seq<int>, idle: set<int>)
    requires Inv(w) && DistinctPids(w)
    ensures DistinctPids(SweepAll(w, fds, idle)) && VisitsKillOwn(w, fds, idle)
    decreases |fds|
  {
    hide Inv;
    hide DistinctPids;
    hide VisitKillsOwn;
    if fds != [] {
      SweepKeeps(w, fds[0], idle);
      SweepDistinct(w, fds[0], idle);
      DistinctKillsOwn(w);
      SweepAllDistinct(Sweep(w, fds[0], idle), fds[1..], idle);
    }
  }

  lemma RoundDistinct(w: World, r: Round)
    requires Inv(w) && DistinctPids(w) && Ready(Flush(w), r.ready) && FreshPidsIn(Flush(w), r.ready)
    ensures DistinctPids(DoRound(w, r)) && RoundKillsOwn(w, r)
  {
    ReadyIsDue(w, r.ready);
    NoNewPidDistinct(w, Flush(w));
    hide Inv;
    hide DistinctPids;
    hide Flush;
    hide Ready;
    var w1 := DispatchAll(Flush(w), r.ready);
    DispatchAllKeeps(Flush(w), r.ready);
    DispatchAllDistinct(Flush(w), r.ready);
    ReapAllKeeps(w1, r.exits);
    ReapAllDistinct(w1, r.exits);
    SweepAllDistinct(ReapAll(w1, r.exits), r.visited, r.idle);
  }

  lemma {:induction false} RunDistinct(w: World, rounds: seq<Round>)
    requires Inv(w) && DistinctPids(w) && PossibleRun(w, rounds) && FreshPids(w, rounds)
    ensures RunKillsOwn(w, rounds)
    decreases |rounds|
  {
    hide Inv;
    hide DistinctPids;
    hide DoRound;
    hide Flush;
    hide AfterReaping;
    if rounds != [] {
      RoundKeeps(w, rounds[0]);
      RoundDistinct(w, rounds[0]);
      RunDistinct(DoRound(w, rounds[0]), rounds[1..]);
    }
  }

  /** As long as no process number is given out again while a processor still
      holds it, no kill hits another processor's child. */
  lemma FreshPidsKillOwn(listeners: set<int>, rounds: seq<Round>)
    requires PossibleRun(Initial(listeners), rounds) && FreshPids(Initial(listeners), rounds)
    ensures RunKillsOwn(Initial(listeners), rounds)
  {
    InitialInv(listeners);
    RunDistinct(Initial(listeners), rounds);
  }
}
