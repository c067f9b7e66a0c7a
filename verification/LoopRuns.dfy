/** Whole runs of the event loop: what holds after any number of rounds. */
module LoopRuns {
  import opened Octets
  import opened LoopSpec
  import opened LoopInvariant
  import opened LoopSteps
  import opened LoopScripts
  import opened LoopTeardown
  import opened LoopDispatch

  predicate AllDue(w: World, ready: seq<Event>) { forall i :: 0 <= i < |ready| ==> Due(w, ready[i]) }

  /** Right after the flush every registered callback is due. */
  lemma RegisteredIsDue(w: World, e: Event)
    requires Inv(w) && Settled(w) && w.dropRd == {} && w.dropWr == {} && Registered(w, e)
    ensures Due(w, e)
  {
    if e.kind == Write {
      assert WrEntry(w, e.fd) && FdOwned(w, e.fd);
      var id := w.wr[e.fd].id;
      assert SessionProtocol(w, id) && SessionOwns(w, id);
      var s := w.sessions[id];
      if s.proc.Some? {
        assert ProcProtocol(w, s.proc.value);
      }
    }
  }

  lemma RestInOrder(ready: seq<Event>)
    requires ready != [] && InOrder(ready)
    ensures InOrder(ready[1..])
    ensures forall i :: 0 <= i < |ready| - 1 ==> MayFollow(ready[0], ready[1..][i])
  {
    var rest := ready[1..];
    forall i, j | 0 <= i < j < |rest| ensures MayFollow(rest[i], rest[j]) {
      assert rest[i] == ready[i + 1] && rest[j] == ready[j + 1];
    }
    forall i | 0 <= i < |rest| ensures MayFollow(ready[0], rest[i]) {
      assert rest[i] == ready[i + 1];
    }
  }

  lemma DispatchKeeps(w: World, e: Event)
    requires Inv(w) && Settled(w) && Due(w, e)
    ensures Inv(Dispatch(w, e)) && Settled(Dispatch(w, e)) && Frame(w, Dispatch(w, e), e)
  {
    hide Inv;
    hide Settled;
    hide Frame;
    hide Due;
    if e.kind == Read {
      DispatchReadKeeps(w, e);
    } else {
      DispatchWriteKeeps(w, e);
    }
  }

  lemma RestDue(w: World, ready: seq<Event>)
    requires ready != [] && Inv(w) && Settled(w) && AllDue(w, ready) && InOrder(ready)
    ensures AllDue(Dispatch(w, ready[0]), ready[1..]) && InOrder(ready[1..])
  {
    RestInOrder(ready);
    DispatchKeeps(w, ready[0]);
    var v := Dispatch(w, ready[0]);
    hide Inv;
    hide Settled;
    hide Frame;
    hide Due;
    hide Dispatch;
    hide MayFollow;
    forall i | 0 <= i < |ready| - 1 ensures Due(v, ready[1..][i]) {
      assert ready[1..][i] == ready[i + 1];
      DueAfter(w, v, ready[0], ready[i + 1]);
    }
  }

  lemma {:induction false} DispatchAllKeeps(w: World, ready: seq<Event>)
    requires Inv(w) && Settled(w) && AllDue(w, ready) && InOrder(ready)
    ensures Inv(DispatchAll(w, ready)) && Settled(DispatchAll(w, ready))
    decreases |ready|
  {
    hide Inv;
    hide Settled;
    hide InOrder;
    hide AllDue;
    if ready != [] {
      assert Due(w, ready[0]) by {
        FirstDue(w, ready);
      }
      DispatchKeeps(w, ready[0]);
      RestDue(w, ready);
      DispatchAllKeeps(Dispatch(w, ready[0]), ready[1..]);
    }
  }

  lemma FirstDue(w: World, ready: seq<Event>)
    requires ready != [] && AllDue(w, ready)
    ensures Due(w, ready[0])
  {
  }

  lemma {:induction false} ReapAllKeeps(w: World, exits: seq<Exit>)
    requires Inv(w)
    ensures Inv(ReapAll(w, exits))
    decreases |exits|
  {
    hide Inv;
    if exits != [] {
      ReapKeeps(w, exits[0]);
      ReapAllKeeps(Reap(w, exits[0]), exits[1..]);
    }
  }

  lemma {:induction false} SweepAllKeeps(w: World, fds: seq<int>, idle: set<int>)
    requires Inv(w)
    ensures Inv(SweepAll(w, fds, idle))
    decreases |fds|
  {
    hide Inv;
    if fds != [] {
      SweepKeeps(w, fds[0], idle);
      SweepAllKeeps(Sweep(w, fds[0], idle), fds[1..], idle);
    }
  }

  lemma ReadyIsDue(w: World, ready: seq<Event>)
    requires Inv(w) && Ready(Flush(w), ready)
    ensures Inv(Flush(w)) && Settled(Flush(w)) && AllDue(Flush(w), ready) && InOrder(ready)
  {
    FlushKeeps(w);
    var v := Flush(w);
    hide Inv;
    hide Settled;
    hide Due;
    forall i | 0 <= i < |ready| ensures Due(v, ready[i]) {
      RegisteredIsDue(v, ready[i]);
    }
  }

  lemma RoundKeeps(w: World, r: Round)
    requires Inv(w) && Ready(Flush(w), r.ready)
    ensures Inv(DoRound(w, r))
  {
    ReadyIsDue(w, r.ready);
    hide Inv;
    hide Flush;
    hide Ready;
    var w1 := DispatchAll(Flush(w), r.ready);
    DispatchAllKeeps(Flush(w), r.ready);
    ReapAllKeeps(w1, r.exits);
    SweepAllKeeps(ReapAll(w1, r.exits), r.visited, r.idle);
  }

  lemma InitialInv(listeners: set<int>)
    ensures Inv(Initial(listeners))
  {
  }

  lemma {:induction false} RunKeeps(w: World, rounds: seq<Round>)
    requires Inv(w) && PossibleRun(w, rounds)
    ensures Inv(RunLoop(w, rounds))
    decreases |rounds|
  {
    hide Inv;
    hide DoRound;
    if rounds != [] {
      RoundKeeps(w, rounds[0]);
      RunKeeps(DoRound(w, rounds[0]), rounds[1..]);
    }
  }

  // ----- the properties

  /** Callback lifetime. In no run does a callback reach an object that was
      destroyed, does a registration find a stale entry, or does an accepted
      descriptor still have a client; and every registered callback belongs to
      the present owner of its descriptor, or its deletion comes first. */
  lemma CallbacksNeverOutliveObjects(listeners: set<int>, rounds: seq<Round>)
    requires PossibleRun(Initial(listeners), rounds)
    ensures var w := RunLoop(Initial(listeners), rounds);
            && !w.fault
            && (forall f :: f in w.rd ==> RdEntry(w, f))
            && (forall f :: f in w.wr ==> WrEntry(w, f))
            && (forall f :: f in Flush(w).rd ==> f in w.fds && Flush(w).rd[f] == w.fds[f])
            && (forall f :: f in Flush(w).wr ==> f in w.fds && Flush(w).wr[f] == w.fds[f])
            && (forall pid :: pid in w.children ==> w.children[pid] in w.procs)
  {
    InitialInv(listeners);
    RunKeeps(Initial(listeners), rounds);
    var w := RunLoop(Initial(listeners), rounds);
    assert forall f :: f in w.rd ==> RdEntry(w, f);
    assert forall pid :: pid in w.children ==> ChildOwned(w, pid);
    FlushKeeps(w);
    var v := Flush(w);
    assert forall f :: f in v.rd ==> RdEntry(v, f);
    assert forall f :: f in v.wr ==> WrEntry(v, f);
  }

  /** Session protocol. On every live session the requests completed exceed the
      responses sent by one exactly while it is busy, and a session that is not
      busy has no write callback once the flush is over. */
  lemma OneRequestAtATime(listeners: set<int>, rounds: seq<Round>, id: nat)
    requires PossibleRun(Initial(listeners), rounds)
    requires id in RunLoop(Initial(listeners), rounds).sessions
    ensures var w := RunLoop(Initial(listeners), rounds);
            var s := w.sessions[id];
            && s.completed == s.sent + (if s.busy then 1 else 0)
            && (!s.busy ==> s.fd !in Flush(w).wr)
            && (s.fd in Flush(w).wr ==> s.busy && Answered(w, s))
  {
    InitialInv(listeners);
    RunKeeps(Initial(listeners), rounds);
    var w := RunLoop(Initial(listeners), rounds);
    assert SessionProtocol(w, id);
  }

  /** CGI answers. No processor, live or gone, ever handed out two responses; a
      live one has handed out one exactly if its run is over. */
  lemma ScriptsAnswerOnce(listeners: set<int>, rounds: seq<Round>)
    requires PossibleRun(Initial(listeners), rounds)
    ensures var w := RunLoop(Initial(listeners), rounds);
            && (forall p :: p in w.answers ==> |w.answers[p]| <= 1)
            && (forall p :: p in w.procs ==> p in w.answers && |w.answers[p]| == if w.procs[p].described then 0 else 1)
  {
    InitialInv(listeners);
    RunKeeps(Initial(listeners), rounds);
    var w := RunLoop(Initial(listeners), rounds);
    assert forall p :: p in w.answers ==> AtMostOneAnswer(w, p);
    assert forall p :: p in w.procs ==> ProcProtocol(w, p);
  }

  /** Handling a descriptor's read before its write is needed: the other way
      round, a session that has just sent its response can complete the next
      request while its write callback is still registered. */
  lemma WriteBeforeReadFaults(w: World, id: nat, sent: Outcome, next: Outcome)
    requires Inv(w) && Settled(w) && id in w.sessions
    requires var f := w.sessions[id].fd; f in w.rd && f in w.wr && f !in w.dropWr
    requires sent.clientWrite == AllSent(false) && next.clientRead == Finished(Generated)
    ensures var f := w.sessions[id].fd;
            DispatchAll(w, [Event(f, Write, sent), Event(f, Read, next)]).fault
  {
    var f := w.sessions[id].fd;
    var a, b := Event(f, Write, sent), Event(f, Read, next);
    assert SessionOwns(w, id) && SessionProtocol(w, id) && RdEntry(w, f) && WrEntry(w, f);
    CleanupIs(w, id, false);
    hide Inv;
    var v := Ended(w, id, false);
    assert Dispatch(w, a) == v;
    assert [a, b][1..] == [b] && [b][1..] == [];
    assert DispatchAll(w, [a, b]) == DispatchAll(v, [b]) == Dispatch(v, b);
    assert f in v.rd && v.rd[f] == Client(id) && f in v.wr && v.sessions[id].fd == f && !v.sessions[id].busy;
    hide Ended;
    hide ResponseSentCleanup;
    ConflictFaults(v, id, b);
    hide Dispatch;
  }

  lemma ConflictFaults(w: World, id: nat, e: Event)
    requires e.kind == Read && e.fd in w.rd && w.rd[e.fd] == Client(id) && e.outcome.clientRead == Finished(Generated)
    requires id in w.sessions && !w.sessions[id].busy && w.sessions[id].fd in w.wr
    ensures Dispatch(w, e).fault
  {
    var u := Busy(w, id);
    assert Dispatch(w, e) == PrepareResponse(u, id, e.outcome.registers);
    assert PrepareResponse(u, id, e.outcome.registers) == Close(Fault(u), id);
    assert Close(Fault(u), id).fault;
  }
}
