/** CGI processors over whole runs: what their answers contain. */
module CgiRuns {
  import opened Octets
  import opened LoopSpec
  import opened LoopInvariant
  import opened LoopSteps
  import opened LoopScripts
  import opened LoopTeardown
  import opened LoopDispatch
  import opened LoopRuns
  import opened LoopBackends

  // ----- the bytes of an answer

  /** What the kernel hands out on the socket of processor `p`. */
  function Received(w: World, e: Event, p: nat): seq<Bytes> {
    if e.kind == Read && e.fd in w.rd && w.rd[e.fd] == Script(p) && e.outcome.scriptRead.Output?
    then [e.outcome.scriptRead.data] else []
  }

  function ReceivedAll(w: World, ready: seq<Event>, p: nat): seq<Bytes>
    decreases |ready|
  {
    if ready == [] then [] else Received(w, ready[0], p) + ReceivedAll(Dispatch(w, ready[0]), ready[1..], p)
  }

  function ReceivedBy(w: World, rounds: seq<Round>, p: nat): seq<Bytes>
    decreases |rounds|
  {
    if rounds == [] then []
    else ReceivedAll(Flush(w), rounds[0].ready, p) + ReceivedBy(DoRound(w, rounds[0]), rounds[1..], p)
  }

  predicate Faithful(w: World, p: nat, log: seq<Bytes>) {
    && (p in w.procs && w.procs[p].described ==> w.procs[p].chunks == log)
    && (p in w.answers && |w.answers[p]| == 1 && w.answers[p][0].FromScript? ==> w.answers[p][0].raw == Concat(log))
    && (p !in w.answers ==> log == [])
  }

  // The processor's own part of the world stays as it is, or the processor goes.
  predicate SameProc(w: World, v: World, p: nat) {
    && (p in v.procs ==> p in w.procs && v.procs[p] == w.procs[p])
    && (p in v.answers <==> p in w.answers) && (p in w.answers ==> v.answers[p] == w.answers[p])
  }

  lemma PrepareSame(w: World, id: nat, registers: bool, p: nat)
    ensures SameProc(w, PrepareResponse(w, id, registers), p)
  {
    hide PrepareResponse;
  }

  lemma CloseSame(w: World, id: nat, p: nat)
    ensures SameProc(w, Close(w, id), p)
  {
    hide Close;
  }

  lemma AcceptSame(w: World, o: Outcome, p: nat)
    requires Inv(w) && Settled(w)
    ensures SameProc(w, Accept(w, o), p)
  {
    if o.accepted.Some? && o.accepted.value !in w.fds {
      ClientsAreOpen(w, o.accepted.value);
      AcceptIs(w, o);
      hide Accept;
    }
    hide Inv;
  }

  lemma SameFaithful(w: World, v: World, p: nat, log: seq<Bytes>)
    requires SameProc(w, v, p) && Faithful(w, p, log)
    ensures Faithful(v, p, log)
  {
  }

  lemma NewProcFaithful(w: World, id: nat, fd: int, pid: int, watched: bool, p: nat, log: seq<Bytes>)
    requires id in w.sessions && w.nextId !in w.answers && Faithful(w, p, log)
    ensures Faithful(NewProc(w, id, fd, pid, watched), p, log)
  {
    var v := NewProc(w, id, fd, pid, watched);
    if p == w.nextId {
      assert v.procs[p].chunks == log && v.answers[p] == if watched then [] else [ErrorPage];
      assert Faithful(v, p, log);
    } else {
      SameFaithful(w, v, p, log);
    }
    hide NewProc;
    hide Faithful;
  }

  lemma ProcessRequestFaithful(w: World, id: nat, reply: Reply, registers: bool, p: nat, log: seq<Bytes>)
    requires Inv(w) && Settled(w) && ReadyForRequest(w, id) && Faithful(w, p, log)
    ensures Faithful(ProcessRequest(w, id, reply, registers), p, log)
  {
    ProcessRequestIs(w, id, reply, registers);
    hide ProcessRequest;
    NewIdIsFresh(w);
    hide Inv;
    hide PrepareResponse;
    var u := Busy(w, id);
    SameFaithful(w, u, p, log);
    hide Faithful;
    PrepareFaithful(u, id, registers, p, log);
    if reply.RunScript? && reply.fd !in u.fds && reply.pid !in u.children {
      NewProcFaithful(u, id, reply.fd, reply.pid, reply.registers, p, log);
      hide NewProc;
      PrepareFaithful(NewProc(u, id, reply.fd, reply.pid, reply.registers), id, registers, p, log);
    }
  }

  lemma PrepareFaithful(w: World, id: nat, registers: bool, p: nat, log: seq<Bytes>)
    requires Faithful(w, p, log)
    ensures Faithful(PrepareResponse(w, id, registers), p, log)
  {
    PrepareSame(w, id, registers, p);
    hide PrepareResponse;
    SameFaithful(w, PrepareResponse(w, id, registers), p, log);
  }

  lemma ClientOnReadFaithful(w: World, id: nat, o: Outcome, p: nat, log: seq<Bytes>)
    requires Inv(w) && Settled(w) && id in w.sessions && w.sessions[id].fd !in w.dropWr && Faithful(w, p, log)
    ensures Faithful(ClientOnRead(w, id, o), p, log)
  {
    CloseSame(w, id, p);
    if o.clientRead.Finished? && !w.sessions[id].busy {
      ProcessRequestFaithful(w, id, o.clientRead.reply, o.registers, p, log);
    }
    hide Inv;
    hide Close;
    hide ProcessRequest;
  }

  // What a script step means for the processor's answer and bytes.
  predicate StepFaithful(w: World, q: nat, r: (Proc, bool, bool, Answer), more: seq<Bytes>)
    requires q in w.procs
  {
    if r.0.described then r.0.chunks == w.procs[q].chunks + more
    else more == [] && (r.3.FromScript? ==> r.3.raw == Concat(w.procs[q].chunks))
  }

  lemma FinishedFaithful(w: World, q: nat, r: (Proc, bool, bool, Answer), p: nat, log: seq<Bytes>)
    requires q in w.procs && w.procs[q].described && q in w.answers && w.answers[q] == []
    requires !r.0.described && StepFaithful(w, q, r, []) && Faithful(w, p, log)
    ensures Faithful(ScriptFinished(w, q, r.0, r.3, r.1, r.2), p, log)
  {
    var none: seq<Answer> := [];
    assert none + [r.3] == [r.3];
  }

  lemma MoveFaithful(w: World, q: nat, r: (Proc, bool, bool, Answer), registers: bool,
                     p: nat, log: seq<Bytes>, more: seq<Bytes>)
    requires CanMove(w, q, r.0, r.1, r.2) && Faithful(w, p, log) && StepFaithful(w, q, r, more)
    ensures Faithful(MoveAndAnswer(w, q, r, registers), p, if p == q then log + more else log)
  {
    OwnerAwaits(w, q);
    assert log + [] == log;
    hide Inv;
    if !r.0.described {
      var v := ScriptFinished(w, q, r.0, r.3, r.1, r.2);
      FinishedFaithful(w, q, r, p, log);
      PrepareSame(v, r.0.owner, registers, p);
      SameFaithful(v, PrepareResponse(v, r.0.owner, registers), p, log);
      hide PrepareResponse;
      hide Faithful;
    }
  }

  lemma ScriptOnReadFaithful(w: World, q: nat, o: Outcome, p: nat, log: seq<Bytes>)
    requires Inv(w) && q in w.procs && w.procs[q].described && !w.procs[q].outputRead && Faithful(w, p, log)
    ensures var more := if o.scriptRead.Output? then [o.scriptRead.data] else [];
            Faithful(ScriptOnRead(w, q, o), p, if p == q then log + more else log)
  {
    ScriptReadCanMove(w, q, o);
    ScriptOnReadIs(w, q, o);
    var more := if o.scriptRead.Output? then [o.scriptRead.data] else [];
    assert w.procs[q].chunks + [] == w.procs[q].chunks;
    MoveFaithful(w, q, AfterScriptRead(w.procs[q], o), o.registers, p, log, more);
    hide ScriptOnRead;
  }

  lemma DispatchFaithful(w: World, e: Event, p: nat, log: seq<Bytes>)
    requires Inv(w) && Settled(w) && Due(w, e) && Faithful(w, p, log)
    ensures Faithful(Dispatch(w, e), p, log + Received(w, e, p))
  {
    assert log + [] == log;
    if e.kind == Read {
      DueRead(w, e);
      match w.rd[e.fd]
      case Listener => AcceptSame(w, e.outcome, p);
      case Client(id) => ClientOnReadFaithful(w, id, e.outcome, p, log);
      case Script(q) => ScriptOnReadFaithful(w, q, e.outcome, p, log);
    } else {
      DueWrite(w, e);
      ClientOnWriteSame(w, w.wr[e.fd].id, e.outcome, p);
      hide ClientOnWrite;
    }
    hide Inv;
    hide Accept;
    hide ClientOnRead;
    hide ScriptOnRead;
  }

  lemma ClientOnWriteSame(w: World, id: nat, o: Outcome, p: nat)
    requires CanEnd(w, id)
    ensures SameProc(w, ClientOnWrite(w, id, o), p)
  {
    CloseSame(w, id, p);
    if o.clientWrite.AllSent? {
      CleanupIs(w, id, o.clientWrite.close);
    }
    hide ResponseSentCleanup;
    hide Close;
  }

  lemma ExitStepFaithful(w: World, q: nat, e: Exit)
    requires q in w.procs
    ensures StepFaithful(w, q, AfterExit(w.procs[q], e), [])
  {
    assert w.procs[q].chunks + [] == w.procs[q].chunks;
  }

  // The child of an entry belongs to a processor that awaits its exit.
  lemma EntryAwaitsExit(w: World, e: Exit)
    requires Inv(w) && e.pid in w.children
    ensures var q := w.children[e.pid];
            && q in w.procs && w.procs[q].described && !w.procs[q].exited && w.procs[q].pid == e.pid
            && var r := AfterExit(w.procs[q], e);
               CanMove(w, q, r.0, r.1, r.2) && Reap(w, e) == MoveAndAnswer(w, q, r, e.registers)
  {
    assert ChildOwned(w, e.pid);
    var q := w.children[e.pid];
    ExitCanMove(w, q, e);
    ReapIs(w, e);
    hide Reap;
    hide MoveAndAnswer;
    hide Inv;
  }

  lemma ReapFaithful(w: World, e: Exit, p: nat, log: seq<Bytes>)
    requires Inv(w) && Faithful(w, p, log)
    ensures Faithful(Reap(w, e), p, log)
  {
    hide Inv;
    hide Faithful;
    if e.pid in w.children {
      EntryAwaitsExit(w, e);
      hide Reap;
      hide MoveAndAnswer;
      hide CanMove;
      var q := w.children[e.pid];
      ExitStepFaithful(w, q, e);
      var none: seq<Bytes> := [];
      assert log + none == log;
      MoveFaithful(w, q, AfterExit(w.procs[q], e), e.registers, p, log, none);
    }
  }

  lemma SweepSame(w: World, fd: int, idle: set<int>, p: nat)
    requires Inv(w)
    ensures SameProc(w, Sweep(w, fd, idle), p)
  {
    if fd in w.clients {
      assert ClientOwned(w, fd);
      CloseSame(w, w.clients[fd], p);
      DestroySessionIs(w, w.clients[fd]);
      hide DestroySession;
      hide Close;
    }
    hide Inv;
  }

  lemma {:induction false} DispatchAllFaithful(w: World, ready: seq<Event>, p: nat, log: seq<Bytes>)
    requires Inv(w) && Settled(w) && AllDue(w, ready) && InOrder(ready) && Faithful(w, p, log)
    ensures Faithful(DispatchAll(w, ready), p, log + ReceivedAll(w, ready, p))
    decreases |ready|
  {
    hide Inv;
    hide Settled;
    hide InOrder;
    hide AllDue;
    hide Faithful;
    hide Received;
    if ready == [] {
      assert log + [] == log;
    } else {
      FirstDue(w, ready);
      DispatchKeeps(w, ready[0]);
      RestDue(w, ready);
      DispatchFaithful(w, ready[0], p, log);
      var now, later := Received(w, ready[0], p), ReceivedAll(Dispatch(w, ready[0]), ready[1..], p);
      DispatchAllFaithful(Dispatch(w, ready[0]), ready[1..], p, log + now);
      assert log + now + later == log + (now + later);
    }
  }

  lemma {:induction false} ReapAllFaithful(w: World, exits: seq<Exit>, p: nat, log: seq<Bytes>)
    requires Inv(w) && Faithful(w, p, log)
    ensures Faithful(ReapAll(w, exits), p, log)
    decreases |exits|
  {
    hide Inv;
    hide Faithful;
    if exits != [] {
      ReapKeeps(w, exits[0]);
      ReapFaithful(w, exits[0], p, log);
      ReapAllFaithful(Reap(w, exits[0]), exits[1..], p, log);
    }
  }

  lemma {:induction false} SweepAllFaithful(w: World, fds: seq<int>, idle: set<int>, p: nat, log: seq<Bytes>)
    requires Inv(w) && Faithful(w, p, log)
    ensures Faithful(SweepAll(w, fds, idle), p, log)
    decreases |fds|
  {
    hide Inv;
    if fds != [] {
      SweepKeeps(w, fds[0], idle);
      SweepSame(w, fds[0], idle, p);
      SweepAllFaithful(Sweep(w, fds[0], idle), fds[1..], idle, p, log);
    }
  }

  lemma RoundFaithful(w: World, r: Round, p: nat, log: seq<Bytes>)
    requires Inv(w) && Ready(Flush(w), r.ready) && Faithful(w, p, log)
    ensures Faithful(DoRound(w, r), p, log + ReceivedAll(Flush(w), r.ready, p))
  {
    ReadyIsDue(w, r.ready);
    var v := Flush(w);
    assert Faithful(v, p, log);
    hide Inv;
    hide Flush;
    hide Ready;
    hide Faithful;
    var w1 := DispatchAll(v, r.ready);
    DispatchAllKeeps(v, r.ready);
    DispatchAllFaithful(v, r.ready, p, log);
    var after := log + ReceivedAll(v, r.ready, p);
    ReapAllKeeps(w1, r.exits);
    ReapAllFaithful(w1, r.exits, p, after);
    SweepAllFaithful(ReapAll(w1, r.exits), r.visited, r.idle, p, after);
  }

  lemma {:induction false} RunFaithful(w: World, rounds: seq<Round>, p: nat, log: seq<Bytes>)
    requires Inv(w) && PossibleRun(w, rounds) && Faithful(w, p, log)
    ensures Faithful(RunLoop(w, rounds), p, log + ReceivedBy(w, rounds, p))
    decreases |rounds|
  {
    hide Inv;
    hide Faithful;
    hide DoRound;
    if rounds == [] {
      assert log + [] == log;
    } else {
      RoundKeeps(w, rounds[0]);
      RoundFaithful(w, rounds[0], p, log);
      var now, later := ReceivedAll(Flush(w), rounds[0].ready, p), ReceivedBy(DoRound(w, rounds[0]), rounds[1..], p);
      RunFaithful(DoRound(w, rounds[0]), rounds[1..], p, log + now);
      assert log + now + later == log + (now + later);
    }
  }

  /** The bytes given to the CGI parser for a response are exactly the bytes
      the kernel handed out on the script's socket, in order. */
  lemma AnswersAreWhatWasRead(listeners: set<int>, rounds: seq<Round>, p: nat)
    requires PossibleRun(Initial(listeners), rounds)
    requires var w := RunLoop(Initial(listeners), rounds);
             p in w.answers && |w.answers[p]| == 1 && w.answers[p][0].FromScript?
    ensures RunLoop(Initial(listeners), rounds).answers[p]
            == [FromScript(Concat(ReceivedBy(Initial(listeners), rounds, p)))]
  {
    InitialInv(listeners);
    RunFaithful(Initial(listeners), rounds, p, []);
    var log := ReceivedBy(Initial(listeners), rounds, p);
    assert [] + log == log;
  }
}
