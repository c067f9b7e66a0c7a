/** Whole runs of the loop from what the multiplexers' waits came back with. */
module MultiplexerRuns {
  import opened Octets
  import opened LoopSpec
  import opened LoopInvariant
  import opened LoopRuns
  import opened LoopBackends
  import opened MultiplexerOrders

  /** Every wait came back with something it may report. */
  predicate Legal(w: World, turns: seq<Turn>)
    decreases |turns|
  {
    turns == [] || (MayReport(Flush(w), turns[0].wait) && Legal(DoRound(w, RoundOf(turns[0])), turns[1..]))
  }

  predicate OnlyEpoll(turns: seq<Turn>) { forall i :: 0 <= i < |turns| ==> turns[i].wait.EpollWait? }

  lemma FlushReady(w: World)
    requires Inv(w) && Synced(w)
    ensures Inv(Flush(w)) && Settled(Flush(w)) && Synced(Flush(w))
  {
    FlushKeeps(w);
    FlushSynced(w);
  }

  lemma WaitIsReady(w: World, wait: Wait)
    requires Inv(w) && Settled(w) && Synced(w) && MayReport(w, wait)
    ensures Ready(w, HandedOut(wait))
  {
    hide Inv;
    hide Settled;
    hide Synced;
    match wait
    case SelectWait(readable, writable, maxFd, outcomes) => SelectIsReady(w, readable, writable, maxFd, outcomes);
    case PollWait(toRead, toWrite, outcomes) => PollIsReady(w, toRead, toWrite, outcomes);
    case EpollWait(reported, outcomes) =>
      EpollIsReady(w, reported, outcomes);
      EpollReportsUnshadowed(w, EpollOrder(reported, outcomes));
      hide EpollReady;
    hide Ready;
  }

  lemma RoundsOfFront(turns: seq<Turn>)
    requires turns != []
    ensures RoundsOf(turns)[0] == RoundOf(turns[0]) && RoundsOf(turns)[1..] == RoundsOf(turns[1..])
  {
  }

  lemma {:induction false} LegalIsPossible(w: World, turns: seq<Turn>)
    requires Inv(w) && Synced(w) && Legal(w, turns)
    ensures PossibleRun(w, RoundsOf(turns))
    decreases |turns|
  {
    hide Inv;
    hide Synced;
    hide DoRound;
    hide Ready;
    hide MayReport;
    hide RoundOf;
    if turns != [] {
      FlushReady(w);
      hide Settled;
      hide Flush;
      WaitIsReady(Flush(w), turns[0].wait);
      RoundsOfFront(turns);
      var r := RoundOf(turns[0]);
      RoundReady(turns[0]);
      RoundKeeps(w, r);
      RoundSynced(w, r);
      LegalIsPossible(DoRound(w, r), turns[1..]);
    }
  }

  lemma RoundReady(t: Turn)
    ensures RoundOf(t).ready == HandedOut(t.wait)
  {
  }

  // ----- the epoll waits for given events

  predicate DistinctFds(ready: seq<Event>) { forall i, j :: 0 <= i < j < |ready| ==> ready[i].fd != ready[j].fd }

  function ReportOf(ready: seq<Event>): (r: seq<Reported>)
    ensures |r| == |ready|
    ensures forall i :: 0 <= i < |ready| ==> r[i] == Reported(ready[i].fd, {ready[i].kind})
  {
    seq(|ready|, i requires 0 <= i < |ready| => Reported(ready[i].fd, {ready[i].kind}))
  }

  const IDLE: Outcome := Outcome(None, Incomplete, MoreToSend, ReadFailed, false, false)

  function OutcomeOf(ready: seq<Event>, fd: int): Outcome {
    if ready == [] then IDLE
    else
      var n := |ready| - 1;
      if ready[n].fd == fd then ready[n].outcome else OutcomeOf(ready[..n], fd)
  }

  lemma {:induction false} OutcomeFound(ready: seq<Event>, i: nat)
    requires i < |ready| && DistinctFds(ready)
    ensures OutcomeOf(ready, ready[i].fd) == ready[i].outcome
  {
    var n := |ready| - 1;
    if i < n {
      OutcomeFound(ready[..n], i);
    }
  }

  lemma OneKindSlot(e: Event, outcomes: Outcomes)
    requires outcomes(e.fd, e.kind) == e.outcome
    ensures Slot(e.fd, Read in {e.kind}, Write in {e.kind}, outcomes) == [e]
  {
    if e.kind == Read {
      assert [e] + [] == [e] && ReadEvent(e.fd, outcomes) == e;
    } else {
      assert e.kind == Write;
      assert [] + [e] == [e] && WriteEvent(e.fd, outcomes) == e;
    }
  }

  lemma {:induction false} OrderOfReport(ready: seq<Event>, outcomes: Outcomes)
    requires forall i :: 0 <= i < |ready| ==> outcomes(ready[i].fd, ready[i].kind) == ready[i].outcome
    ensures EpollOrder(ReportOf(ready), outcomes) == ready
  {
    if ready != [] {
      var n := |ready| - 1;
      OrderOfReport(ready[..n], outcomes);
      assert ReportOf(ready)[..n] == ReportOf(ready[..n]);
      var e := ready[n];
      OneKindSlot(e, outcomes);
      assert ready[..n] + [ready[n]] == ready;
    }
  }

  function WaitFor(ready: seq<Event>): Wait {
    EpollWait(ReportOf(ready), (fd: int, kind: Kind) => OutcomeOf(ready, fd))
  }

  /** Anything epoll may hand out comes from a wait that reports each
      descriptor once, since the kernel watches one kind of event on each. */
  lemma EpollWaitFor(w: World, ready: seq<Event>)
    requires Inv(w) && Synced(w) && EpollReady(w, ready)
    ensures MayReport(w, WaitFor(ready)) && HandedOut(WaitFor(ready)) == ready
  {
    forall i, j | 0 <= i < j < |ready| ensures ready[i].fd != ready[j].fd {
      assert MayFollow(ready[i], ready[j]);
      assert SyncedFd(w, ready[i].fd);
    }
    forall i | 0 <= i < |ready| ensures OutcomeOf(ready, ready[i].fd) == ready[i].outcome {
      OutcomeFound(ready, i);
    }
    OrderOfReport(ready, WaitFor(ready).outcomes);
  }

  // The turns over epoll with the same outside events.
  function EpollTurns(w: World, turns: seq<Turn>): seq<Turn>
    decreases |turns|
  {
    if turns == [] then []
    else
      var t := turns[0];
      [t.(wait := WaitFor(Unshadowed(Flush(w), HandedOut(t.wait))))] + EpollTurns(DoRound(w, RoundOf(t)), turns[1..])
  }

  lemma TurnAsEpoll(w: World, t: Turn)
    requires Inv(w) && Synced(w) && MayReport(Flush(w), t.wait)
    ensures var e := t.(wait := WaitFor(Unshadowed(Flush(w), HandedOut(t.wait))));
            MayReport(Flush(w), e.wait) && DoRound(w, RoundOf(e)) == DoRound(w, RoundOf(t))
  {
    FlushReady(w);
    hide Inv;
    hide Settled;
    hide Synced;
    hide Flush;
    hide MayReport;
    hide DoRound;
    hide WaitFor;
    WaitIsReady(Flush(w), t.wait);
    RoundAsEpoll(w, RoundOf(t));
    EpollWaitFor(Flush(w), Unshadowed(Flush(w), HandedOut(t.wait)));
  }

  lemma {:induction false} TurnsAsEpoll(w: World, turns: seq<Turn>)
    requires Inv(w) && Synced(w) && Legal(w, turns)
    ensures var e := EpollTurns(w, turns);
            Legal(w, e) && OnlyEpoll(e) && RunLoop(w, RoundsOf(e)) == RunLoop(w, RoundsOf(turns))
    decreases |turns|
  {
    hide Inv;
    hide Synced;
    hide DoRound;
    hide MayReport;
    hide RoundOf;
    if turns != [] {
      var t := turns[0];
      var e := t.(wait := WaitFor(Unshadowed(Flush(w), HandedOut(t.wait))));
      TurnAsEpoll(w, t);
      FlushReady(w);
      WaitIsReady(Flush(w), t.wait);
      RoundReady(t);
      hide Flush;
      hide Unshadowed;
      hide WaitFor;
      hide HandedOut;
      RoundKeeps(w, RoundOf(t));
      RoundSynced(w, RoundOf(t));
      var v := DoRound(w, RoundOf(t));
      TurnsAsEpoll(v, turns[1..]);
      RoundsOfFront(turns);
      RoundsOfFront([e] + EpollTurns(v, turns[1..]));
      assert ([e] + EpollTurns(v, turns[1..]))[1..] == EpollTurns(v, turns[1..]);
    }
  }

  /** Whatever select, poll and epoll come back with, the run is one that the
      loop's properties cover, and epoll can make a run of the same outside
      events that ends in the same state. */
  lemma WaitsMakeRuns(listeners: set<int>, turns: seq<Turn>)
    requires Legal(Initial(listeners), turns)
    ensures var w := Initial(listeners);
            && PossibleRun(w, RoundsOf(turns))
            && Legal(w, EpollTurns(w, turns)) && OnlyEpoll(EpollTurns(w, turns))
            && RunLoop(w, RoundsOf(EpollTurns(w, turns))) == RunLoop(w, RoundsOf(turns))
  {
    var w := Initial(listeners);
    InitialInv(listeners);
    assert Synced(w) by {
      assert forall f :: f in w.fds ==> SyncedFd(w, f);
    }
    hide Inv;
    hide Synced;
    LegalIsPossible(w, turns);
    TurnsAsEpoll(w, turns);
  }
}
