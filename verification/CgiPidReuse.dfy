/** A run in which a process number is given out again while a processor still
    holds it, and another processor's session ends up waiting for nothing. */
module CgiPidReuse {
  import opened Octets
  import opened LoopSpec
  import CgiChildren

  const LISTENER: int := 3
  const FIRST: int := 4
  const SECOND: int := 5
  const FIRST_SCRIPT: int := 6
  const SECOND_SCRIPT: int := 8
  const PID: int := 7

  const NOTHING: Outcome := Outcome(None, Incomplete, MoreToSend, ReadFailed, true, true)

  function Accepts(fd: int): Event { Event(LISTENER, Read, NOTHING.(accepted := Some(fd))) }

  function Runs(client: int, socket: int): Event {
    Event(client, Read, NOTHING.(clientRead := Finished(RunScript(socket, PID, true))))
  }

  function Reads(socket: int, r: ScriptRead): Event { Event(socket, Read, NOTHING.(scriptRead := r)) }

  function Ready1(e: Event): Round { Round([e], [], [], {}) }

  // Two clients; the first one's script exits and is collected before its
  // output ends, the second one's script gets the same number, then reading
  // the first one's output fails and the second one's output ends.

  function R1(): Round { Ready1(Accepts(FIRST)) }

  function R2(): Round { Ready1(Runs(FIRST, FIRST_SCRIPT)).(exits := [Exit(PID, true, true, true)]) }

  function R3(): Round { Ready1(Accepts(SECOND)) }

  function R4(): Round { Ready1(Runs(SECOND, SECOND_SCRIPT)) }

  function R5(): Round { Round([Reads(FIRST_SCRIPT, ReadFailed), Reads(SECOND_SCRIPT, EndOfOutput)], [], [], {}) }

  function Reuse(): seq<Round> { [R1(), R2(), R3(), R4(), R5()] }

  // ----- the worlds in between

  const START: World := Initial({LISTENER})

  function WithClient(w: World, fd: int): World {
    var id := w.nextId;
    w.(nextId := id + 1, fds := w.fds[fd := Client(id)], clients := w.clients[fd := id],
       sessions := w.sessions[id := Session(fd, false, false, None, 0, 0)],
       rd := w.rd[fd := Client(id)], interest := w.interest[fd := {Read}])
  }

  function WithScript(w: World, id: nat, fd: int): World
    requires id in w.sessions
  {
    var p := w.nextId;
    var s := w.sessions[id];
    w.(nextId := p + 1, fds := w.fds[fd := Script(p)], rd := w.rd[fd := Script(p)],
       interest := w.interest[fd := {Read}],
       sessions := w.sessions[id := s.(busy := true, completed := s.completed + 1, proc := Some(p))],
       children := w.children[PID := p], answers := w.answers[p := []],
       procs := w.procs[p := Proc(id, fd, PID, true, false, false, [])])
  }

  function WithExit(w: World, p: nat): World
    requires p in w.procs
  {
    w.(procs := w.procs[p := w.procs[p].(exited := true)], children := w.children - {PID})
  }

  lemma FlushIdle(w: World)
    requires w.dropRd == {} && w.dropWr == {}
    ensures Flush(w) == w
  {
    assert w.rd - {} == w.rd && w.wr - {} == w.wr;
    assert forall f :: !Deleted(w, f);
    assert Flush(w).interest == w.interest;
  }

  lemma OneEvent(w: World, r: Round)
    requires |r.ready| == 1 && r.visited == [] && w.dropRd == {} && w.dropWr == {}
    ensures DoRound(w, r) == ReapAll(Dispatch(w, r.ready[0]), r.exits)
    ensures Ready(Flush(w), r.ready) <==> Registered(w, r.ready[0])
  {
    FlushIdle(w);
    hide Dispatch;
    assert r.ready[1..] == [];
    assert DispatchAll(w, r.ready) == Dispatch(w, r.ready[0]);
  }

  lemma AcceptStep(w: World, fd: int)
    requires LISTENER in w.rd && w.rd[LISTENER] == Listener && !w.fault
    requires fd !in w.fds && fd !in w.rd && fd !in w.clients
    ensures Dispatch(w, Accepts(fd)) == WithClient(w, fd)
  {
  }

  lemma RunStep(w: World, id: nat, fd: int, socket: int)
    requires fd in w.rd && w.rd[fd] == Client(id) && id in w.sessions && !w.sessions[id].busy
    requires socket !in w.fds && socket !in w.rd && PID !in w.children
    ensures Dispatch(w, Runs(fd, socket)) == WithScript(w, id, socket)
  {
    var s := w.sessions[id];
    var busy := s.(busy := true, completed := s.completed + 1);
    var running := busy.(proc := Some(w.nextId));
    assert w.sessions[id := busy][id := running] == w.sessions[id := running];
    assert Dispatch(w, Runs(fd, socket)) == StartScript(Busy(w, id), id, socket, PID, true, true);
  }

  lemma ExitStep(w: World, p: nat)
    requires PID in w.children && w.children[PID] == p && p in w.procs && w.procs[p].described && !w.procs[p].outputRead
    ensures Reap(w, Exit(PID, true, true, true)) == WithExit(w, p)
  {
  }

  function W1(): World { WithClient(START, FIRST) }

  function W2(): World { WithExit(WithScript(W1(), 0, FIRST_SCRIPT), 1) }

  function W3(): World { WithClient(W2(), SECOND) }

  function W4(): World { WithScript(W3(), 2, SECOND_SCRIPT) }

  lemma FirstRounds()
    ensures DoRound(START, R1()) == W1() && Ready(Flush(START), R1().ready)
    ensures DoRound(W1(), R2()) == W2() && Ready(Flush(W1()), R2().ready)
  {
    OneEvent(START, R1());
    OneEvent(W1(), R2());
    AcceptStep(START, FIRST);
    RunStep(W1(), 0, FIRST, FIRST_SCRIPT);
    ExitStep(WithScript(W1(), 0, FIRST_SCRIPT), 1);
    hide Reap;
    hide Dispatch;
    assert R2().exits[1..] == [];
  }

  lemma ThirdRound()
    ensures DoRound(W2(), R3()) == W3() && Ready(Flush(W2()), R3().ready)
  {
    OneEvent(W2(), R3());
    AcceptStep(W2(), SECOND);
    hide Dispatch;
  }

  lemma FourthRound()
    ensures DoRound(W3(), R4()) == W4() && Ready(Flush(W3()), R4().ready)
  {
    OneEvent(W3(), R4());
    RunStep(W3(), 2, SECOND, SECOND_SCRIPT);
    hide Dispatch;
  }

  /** Nothing that the session waits for can still come: its script's output is
      read, and the exit of its child has no entry. */
  predicate Stuck(w: World, id: nat) {
    && id in w.sessions && w.sessions[id].busy && !w.sessions[id].closed && w.sessions[id].fd !in w.wr
    && w.sessions[id].proc.Some? && w.sessions[id].proc.value in w.procs
    && var p := w.sessions[id].proc.value;
       w.procs[p].described && w.procs[p].outputRead && !w.procs[p].exited
       && forall c :: c in w.children ==> w.children[c] != p
  }

  // Only the session itself and its write callback can change.
  predicate OnlySession(w: World, v: World, id: nat) {
    && v.children == w.children && v.rd == w.rd && v.procs == w.procs
    && (forall i :: i in w.sessions && i != id ==> i in v.sessions && v.sessions[i] == w.sessions[i])
    && (forall f :: f in v.wr ==> f in w.wr || (id in w.sessions && f == w.sessions[id].fd))
  }

  lemma PrepareOnlySession(w: World, id: nat)
    requires id in w.sessions
    ensures OnlySession(w, PrepareResponse(w, id, true), id)
  {
    PrepareTables(w, id);
    hide PrepareResponse;
  }

  lemma PrepareTables(w: World, id: nat)
    requires id in w.sessions
    ensures var v, s := PrepareResponse(w, id, true), w.sessions[id];
            && (s.fd in w.wr ==> v.wr == w.wr && v.sessions == w.sessions[id := s.(closed := true)])
            && (s.fd !in w.wr ==> v.wr == w.wr[s.fd := Client(id)] && v.sessions == w.sessions)
  {
  }

  lemma FailedRead(w: World, p: nat)
    requires p in w.procs && w.procs[p].described && w.procs[p].pid == PID && w.procs[p].owner in w.sessions
    ensures var u := w.(procs := w.procs[p := w.procs[p].(described := false)], children := w.children - {PID});
            OnlySession(u, ScriptOnRead(w, p, NOTHING), w.procs[p].owner)
  {
    var x := w.procs[p];
    var k := Undescribe(Kill(DeleteBoth(w, x.fd), PID), p);
    var a := k.(answers := k.answers[p := AnswersOf(k, p) + [ErrorPage]]);
    PrepareOnlySession(a, x.owner);
    hide PrepareResponse;
    assert ScriptOnRead(w, p, NOTHING) == PrepareResponse(a, x.owner, true);
  }

  lemma OutputEnds(w: World, id: nat, p: nat)
    requires id in w.sessions && w.sessions[id].busy && !w.sessions[id].closed && w.sessions[id].fd !in w.wr
    requires w.sessions[id].proc == Some(p) && p in w.procs && w.procs[p].described && !w.procs[p].exited
    requires forall c :: c in w.children ==> w.children[c] != p
    ensures Stuck(ScriptOnRead(w, p, NOTHING.(scriptRead := EndOfOutput)), id)
  {
  }

  // The two scripts share the number, and only the second one's child has an entry.
  predicate BothScripts(w: World) {
    && w.dropRd == {} && w.dropWr == {} && w.wr == map[] && w.children.Keys == {PID}
    && FIRST_SCRIPT in w.rd && w.rd[FIRST_SCRIPT] == Script(1)
    && SECOND_SCRIPT in w.rd && w.rd[SECOND_SCRIPT] == Script(3)
    && 1 in w.procs && w.procs[1] == Proc(0, FIRST_SCRIPT, PID, true, false, true, [])
    && 3 in w.procs && w.procs[3] == Proc(2, SECOND_SCRIPT, PID, true, false, false, [])
    && 0 in w.sessions && w.sessions[0].fd == FIRST
    && 2 in w.sessions && w.sessions[2] == Session(SECOND, true, false, Some(3), 1, 0)
  }

  lemma FourRoundsReach()
    ensures BothScripts(W4())
  {
  }

  lemma LastRound(w: World)
    requires BothScripts(w)
    ensures Stuck(DoRound(w, R5()), 2) && Ready(Flush(w), R5().ready)
  {
    FlushIdle(w);
    var a, b := R5().ready[0], R5().ready[1];
    assert R5().ready[1..] == [b] && [b][1..] == [];
    FailedRead(w, 1);
    hide Flush;
    hide ScriptOnRead;
    hide Stuck;
    var v := Dispatch(w, a);
    assert v == ScriptOnRead(w, 1, NOTHING);
    OutputEnds(v, 2, 3);
    assert Dispatch(v, b) == ScriptOnRead(v, 3, b.outcome);
    TwoEvents(w, a, b);
    assert R5().ready == [a, b];
    hide Dispatch;
    hide DispatchAll;
  }

  lemma TwoEvents(w: World, a: Event, b: Event)
    ensures DispatchAll(w, [a, b]) == Dispatch(Dispatch(w, a), b)
  {
    hide Dispatch;
    assert [a, b][1..] == [b] && [b][1..] == [];
    assert DispatchAll(w, [a, b]) == DispatchAll(Dispatch(w, a), [b]);
  }

  lemma OneMoreRound(w: World, v: World, r: Round, rest: seq<Round>, end: World)
    requires Ready(Flush(w), r.ready) && DoRound(w, r) == v
    requires PossibleRun(v, rest) && RunLoop(v, rest) == end
    ensures PossibleRun(w, [r] + rest) && RunLoop(w, [r] + rest) == end
  {
    hide DoRound;
    hide Ready;
    hide Flush;
    assert ([r] + rest)[1..] == rest;
  }

  predicate Leads(w: World, r: Round, v: World) { Ready(Flush(w), r.ready) && DoRound(w, r) == v }

  lemma FiveRounds(w0: World, w1: World, w2: World, w3: World, w4: World, w5: World,
                   r1: Round, r2: Round, r3: Round, r4: Round, r5: Round)
    requires Leads(w0, r1, w1) && Leads(w1, r2, w2) && Leads(w2, r3, w3) && Leads(w3, r4, w4) && Leads(w4, r5, w5)
    ensures PossibleRun(w0, [r1, r2, r3, r4, r5]) && RunLoop(w0, [r1, r2, r3, r4, r5]) == w5
  {
    hide DoRound;
    hide Ready;
    hide Flush;
    hide PossibleRun;
    hide RunLoop;
    NoRound(w5);
    OneMoreRound(w4, w5, r5, [], w5);
    assert [r5] + [] == [r5];
    OneMoreRound(w3, w4, r4, [r5], w5);
    assert [r4] + [r5] == [r4, r5];
    OneMoreRound(w2, w3, r3, [r4, r5], w5);
    assert [r3] + [r4, r5] == [r3, r4, r5];
    OneMoreRound(w1, w2, r2, [r3, r4, r5], w5);
    assert [r2] + [r3, r4, r5] == [r2, r3, r4, r5];
    OneMoreRound(w0, w1, r1, [r2, r3, r4, r5], w5);
    assert [r1] + [r2, r3, r4, r5] == [r1, r2, r3, r4, r5];
  }

  /** The run is possible from the start, and it ends with a session that waits
      for an exit nobody will report. */
  lemma ReusedPidStrandsSession()
    ensures PossibleRun(START, Reuse()) && Stuck(RunLoop(START, Reuse()), 2)
  {
    FirstRounds();
    ThirdRound();
    FourthRound();
    FourRoundsReach();
    LastRound(W4());
    hide DoRound;
    hide Ready;
    hide Flush;
    hide Stuck;
    hide PossibleRun;
    hide RunLoop;
    hide W1;
    hide W2;
    hide W3;
    hide W4;
    hide R1;
    hide R2;
    hide R3;
    hide R4;
    hide R5;
    hide BothScripts;
    FiveRounds(START, W1(), W2(), W3(), W4(), DoRound(W4(), R5()), R1(), R2(), R3(), R4(), R5());
  }

  /** Whenever a session is stuck, a kill hit another processor's child. */
  lemma StuckNeedsForeignKill(listeners: set<int>, rounds: seq<Round>, id: nat)
    requires PossibleRun(Initial(listeners), rounds) && Stuck(RunLoop(Initial(listeners), rounds), id)
    ensures !CgiChildren.RunKillsOwn(Initial(listeners), rounds)
  {
    if CgiChildren.RunKillsOwn(Initial(listeners), rounds) {
      CgiChildren.NoSessionIsStuck(listeners, rounds, id);
    }
  }

  lemma NoRound(w: World)
    ensures PossibleRun(w, []) && RunLoop(w, []) == w
  {
  }
}
