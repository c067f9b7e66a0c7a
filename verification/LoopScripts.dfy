/** The invariant is kept by what happens to a script: output, its end, a
    failed read, the exit of its child; and by the end of a response and of a
    session. */
module LoopScripts {
  import opened Octets
  import opened LoopSpec
  import opened LoopInvariant

  /** A script step: its socket's callbacks may be dropped, its child's entry
      may go, and its processor changes to `x`. */
  function ScriptMoved(w: World, p: nat, x: Proc, dropped: bool, reaped: bool): World
    requires p in w.procs
  {
    var was := w.procs[p];
    w.(procs := w.procs[p := x],
       dropRd := if dropped then w.dropRd + {was.fd} else w.dropRd,
       dropWr := if dropped then w.dropWr + {was.fd} else w.dropWr,
       children := if reaped then w.children - {was.pid} else w.children)
  }

  predicate CanMove(w: World, p: nat, x: Proc, dropped: bool, reaped: bool) {
    && Inv(w) && p in w.procs && w.procs[p].described
    && var was := w.procs[p];
    && x == was.(described := x.described, outputRead := x.outputRead, exited := x.exited, chunks := x.chunks)
    && (was.outputRead ==> x.outputRead) && (was.exited ==> x.exited)
    && (x.described ==> !(x.outputRead && x.exited))
    && (dropped ==> x.outputRead || !x.described)
    && (x.outputRead || !x.described ==> dropped || was.outputRead)
    && (x.exited || !x.described ==> reaped || was.exited)
  }

  lemma MovedOwned(w: World, p: nat, x: Proc, dropped: bool, reaped: bool)
    requires CanMove(w, p, x, dropped, reaped)
    ensures Owned(ScriptMoved(w, p, x, dropped, reaped))
  {
    var v := ScriptMoved(w, p, x, dropped, reaped);
    assert ProcOwns(w, p);
    forall i | i in v.sessions ensures SessionOwns(v, i) {
      assert SessionOwns(w, i);
    }
    forall q | q in v.procs ensures ProcOwns(v, q) {
      assert ProcOwns(w, q);
    }
    MovedTables(w, p, x, dropped, reaped);
  }

  lemma MovedTables(w: World, p: nat, x: Proc, dropped: bool, reaped: bool)
    requires CanMove(w, p, x, dropped, reaped)
    ensures var v := ScriptMoved(w, p, x, dropped, reaped);
            && (forall f :: f in v.fds ==> FdOwned(v, f))
            && (forall f :: f in v.clients ==> ClientOwned(v, f))
            && (forall c :: c in v.children ==> ChildOwned(v, c))
  {
    var v := ScriptMoved(w, p, x, dropped, reaped);
    assert ProcOwns(w, p);
    forall f | f in v.fds ensures FdOwned(v, f) {
      assert FdOwned(w, f);
    }
    forall f | f in v.clients ensures ClientOwned(v, f) {
      assert ClientOwned(w, f);
    }
    forall c | c in v.children ensures ChildOwned(v, c) {
      assert ChildOwned(w, c);
    }
  }

  lemma MovedCallbacks(w: World, p: nat, x: Proc, dropped: bool, reaped: bool)
    requires CanMove(w, p, x, dropped, reaped)
    ensures Callbacks(ScriptMoved(w, p, x, dropped, reaped))
  {
    var v := ScriptMoved(w, p, x, dropped, reaped);
    assert ProcOwns(w, p);
    forall f | f in v.rd ensures RdEntry(v, f) {
      assert RdEntry(w, f);
    }
    forall f | f in v.wr ensures WrEntry(v, f) {
      assert WrEntry(w, f);
    }
    forall f | f in v.dropRd ensures RdDrop(v, f) {
      assert f in w.dropRd ==> RdDrop(w, f);
      assert f in w.fds ==> FdOwned(w, f);
    }
    forall f | f in v.dropWr ensures WrDrop(v, f) {
      assert f in w.dropWr ==> WrDrop(w, f);
    }
  }

  // A session does not notice what its script does before the answer.
  lemma MovedSessions(w: World, p: nat, x: Proc, dropped: bool, reaped: bool)
    requires CanMove(w, p, x, dropped, reaped)
    ensures var v := ScriptMoved(w, p, x, dropped, reaped);
            forall i :: i in v.sessions && (i != x.owner || x.described) ==> SessionProtocol(v, i)
  {
    var v := ScriptMoved(w, p, x, dropped, reaped);
    assert ProcOwns(w, p);
    forall i | i in v.sessions && (i != x.owner || x.described) ensures SessionProtocol(v, i) {
      assert SessionOwns(w, i) && SessionProtocol(w, i);
    }
  }

  lemma MovedProcs(w: World, p: nat, x: Proc, dropped: bool, reaped: bool)
    requires CanMove(w, p, x, dropped, reaped)
    ensures var v := ScriptMoved(w, p, x, dropped, reaped);
            forall q :: q in v.procs && (q != p || x.described) ==> ProcProtocol(v, q)
  {
    var v := ScriptMoved(w, p, x, dropped, reaped);
    forall q | q in v.procs && (q != p || x.described) ensures ProcProtocol(v, q) {
      assert ProcOwns(w, q) && ProcProtocol(w, q);
    }
  }

  /** While it is described, the invariant is kept. */
  lemma MovedKeeps(w: World, p: nat, x: Proc, dropped: bool, reaped: bool)
    requires CanMove(w, p, x, dropped, reaped) && x.described
    ensures Inv(ScriptMoved(w, p, x, dropped, reaped))
  {
    var v := ScriptMoved(w, p, x, dropped, reaped);
    MovedOwned(w, p, x, dropped, reaped);
    MovedCallbacks(w, p, x, dropped, reaped);
    MovedSessions(w, p, x, dropped, reaped);
    MovedProcs(w, p, x, dropped, reaped);
    MovedAnswers(w, p, x, dropped, reaped);
    hide CanMove;
    hide ScriptMoved;
    hide Owned;
    hide Callbacks;
    hide SessionProtocol;
    hide ProcProtocol;
    hide AtMostOneAnswer;
  }

  lemma MovedAnswers(w: World, p: nat, x: Proc, dropped: bool, reaped: bool)
    requires CanMove(w, p, x, dropped, reaped)
    ensures var v := ScriptMoved(w, p, x, dropped, reaped);
            !v.fault && forall q :: q in v.answers ==> AtMostOneAnswer(v, q)
  {
    var v := ScriptMoved(w, p, x, dropped, reaped);
    assert forall q :: q in v.answers ==> AtMostOneAnswer(w, q) && AtMostOneAnswer(v, q);
  }

  // The first and only answer of a script that is no longer described.
  function WithAnswer(w: World, p: nat, a: Answer): World { w.(answers := w.answers[p := AnswersOf(w, p) + [a]]) }

  lemma AnswerFrame(w: World, p: nat, a: Answer)
    requires Owned(w) && Callbacks(w)
    ensures Owned(WithAnswer(w, p, a)) && Callbacks(WithAnswer(w, p, a))
  {
    var v := WithAnswer(w, p, a);
    assert forall i :: i in v.sessions ==> SessionOwns(w, i) && SessionOwns(v, i);
    assert forall q :: q in v.procs ==> ProcOwns(w, q) && ProcOwns(v, q);
    assert forall f :: f in v.fds ==> FdOwned(w, f) && FdOwned(v, f);
    assert forall f :: f in v.clients ==> ClientOwned(w, f) && ClientOwned(v, f);
    assert forall c :: c in v.children ==> ChildOwned(w, c) && ChildOwned(v, c);
    AnswerCallbacks(w, p, a);
  }

  lemma AnswerCallbacks(w: World, p: nat, a: Answer)
    requires Callbacks(w)
    ensures Callbacks(WithAnswer(w, p, a))
  {
    var v := WithAnswer(w, p, a);
    assert forall f :: f in v.rd ==> RdEntry(w, f) && RdEntry(v, f);
    assert forall f :: f in v.wr ==> WrEntry(w, f) && WrEntry(v, f);
    assert forall f :: f in v.dropRd ==> RdDrop(w, f) && RdDrop(v, f);
    assert forall f :: f in v.dropWr ==> WrDrop(w, f) && WrDrop(v, f);
  }

  // The owner of the script that is about to answer.
  lemma OwnerAwaits(w: World, p: nat)
    requires Inv(w) && p in w.procs && w.procs[p].described
    ensures var id := w.procs[p].owner;
            && id in w.sessions && w.sessions[id].proc == Some(p) && w.sessions[id].busy
            && w.sessions[id].completed == w.sessions[id].sent + 1
            && w.sessions[id].fd !in w.wr && (w.sessions[id].fd in w.rd || w.sessions[id].closed)
            && p in w.answers && w.answers[p] == []
  {
    assert ProcOwns(w, p) && ProcProtocol(w, p);
    var id := w.procs[p].owner;
    assert SessionOwns(w, id) && SessionProtocol(w, id);
  }

  function ScriptFinished(w: World, p: nat, x: Proc, a: Answer, dropped: bool, reaped: bool): World
    requires p in w.procs
  {
    WithAnswer(ScriptMoved(w, p, x, dropped, reaped), p, a)
  }

  lemma FinishedProtocols(w: World, p: nat, x: Proc, a: Answer, dropped: bool, reaped: bool)
    requires CanMove(w, p, x, dropped, reaped) && !x.described
    ensures var v := ScriptFinished(w, p, x, a, dropped, reaped);
            && (forall i :: i in v.sessions && i != x.owner ==> SessionProtocol(v, i))
            && (forall q :: q in v.procs ==> ProcProtocol(v, q))
            && (forall q :: q in v.answers ==> AtMostOneAnswer(v, q))
  {
    var u := ScriptMoved(w, p, x, dropped, reaped);
    var v := ScriptFinished(w, p, x, a, dropped, reaped);
    MovedSessions(w, p, x, dropped, reaped);
    MovedProcs(w, p, x, dropped, reaped);
    OwnerAwaits(w, p);
    assert ProcOwns(w, p) && ProcProtocol(w, p);
    assert forall i :: i in v.sessions && i != x.owner ==> SessionProtocol(u, i) && SessionProtocol(v, i);
    forall q | q in v.procs ensures ProcProtocol(v, q) {
      assert q != p ==> ProcProtocol(u, q);
    }
    forall q | q in v.answers ensures AtMostOneAnswer(v, q) {
      assert q in w.answers && AtMostOneAnswer(w, q);
    }
  }

  /** Once it is not, its only answer is there and its session waits for a
      write callback. */
  lemma FinishedAwaits(w: World, p: nat, x: Proc, a: Answer, dropped: bool, reaped: bool)
    requires CanMove(w, p, x, dropped, reaped) && !x.described
    ensures AwaitsWrite(ScriptFinished(w, p, x, a, dropped, reaped), x.owner)
  {
    MovedOwned(w, p, x, dropped, reaped);
    MovedCallbacks(w, p, x, dropped, reaped);
    AnswerFrame(ScriptMoved(w, p, x, dropped, reaped), p, a);
    FinishedProtocols(w, p, x, a, dropped, reaped);
    OwnerAwaits(w, p);
    FinishedOwner(w, p, x, a, dropped, reaped);
    hide CanMove;
    hide ScriptFinished;
    hide Owned;
    hide Callbacks;
  }

  lemma FinishedOwner(w: World, p: nat, x: Proc, a: Answer, dropped: bool, reaped: bool)
    requires CanMove(w, p, x, dropped, reaped) && !x.described
    ensures var v := ScriptFinished(w, p, x, a, dropped, reaped);
            && !v.fault && x.owner in v.sessions
            && var s := v.sessions[x.owner];
               s.busy && Answered(v, s) && s.completed == s.sent + 1 && s.fd !in v.wr && (s.fd in v.rd || s.closed)
  {
    OwnerAwaits(w, p);
    assert !w.fault;
    hide Inv;
  }

  // ----- the callbacks in these terms

  // What a readable script socket leads to: its processor, whether the
  // callbacks and the child entry go, and the answer, if any.
  function AfterScriptRead(x: Proc, o: Outcome): (r: (Proc, bool, bool, Answer)) {
    match o.scriptRead
    case ReadFailed => (x.(described := false), true, true, ErrorPage)
    case Output(data) => (x.(chunks := x.chunks + [data]), false, false, ErrorPage)
    case EndOfOutput =>
      (x.(outputRead := true, described := !x.exited), true, false, Parsed(x, o.parses))
  }

  function Parsed(x: Proc, parses: bool): Answer { if parses then FromScript(Concat(x.chunks)) else ErrorPage }

  function AfterExit(x: Proc, e: Exit): (r: (Proc, bool, bool, Answer)) {
    if !e.success then (x.(described := false), true, true, ErrorPage)
    else (x.(exited := true, described := !x.outputRead), false, true, Parsed(x, e.parses))
  }

  function MoveAndAnswer(w: World, p: nat, r: (Proc, bool, bool, Answer), registers: bool): World
    requires p in w.procs
  {
    if r.0.described then ScriptMoved(w, p, r.0, r.1, r.2)
    else PrepareResponse(ScriptFinished(w, p, r.0, r.3, r.1, r.2), r.0.owner, registers)
  }

  lemma SetTwice<K, V>(m: map<K, V>, k: K, a: V, b: V)
    ensures m[k := a][k := b] == m[k := b]
  {
  }

  lemma ScriptOnReadIs(w: World, p: nat, o: Outcome)
    requires p in w.procs && w.procs[p].described
    ensures ScriptOnRead(w, p, o) == MoveAndAnswer(w, p, AfterScriptRead(w.procs[p], o), o.registers)
  {
    hide PrepareResponse;
    if o.scriptRead == EndOfOutput {
      EndOfOutputIs(w, p, o);
    }
  }

  lemma EndOfOutputIs(w: World, p: nat, o: Outcome)
    requires p in w.procs && w.procs[p].described && o.scriptRead == EndOfOutput
    ensures ScriptOnRead(w, p, o) == MoveAndAnswer(w, p, AfterScriptRead(w.procs[p], o), o.registers)
  {
    hide PrepareResponse;
    var x := w.procs[p];
    SetTwice(w.procs, p, x.(outputRead := true), x.(outputRead := true, described := false));
  }

  lemma ReapIs(w: World, e: Exit)
    requires e.pid in w.children
    requires var p := w.children[e.pid]; p in w.procs && w.procs[p].described && w.procs[p].pid == e.pid
    ensures var p := w.children[e.pid];
            Reap(w, e) == MoveAndAnswer(w, p, AfterExit(w.procs[p], e), e.registers)
  {
    var p := w.children[e.pid];
    var x := w.procs[p];
    SetTwice(w.procs, p, x.(exited := true), x.(exited := true, described := false));
    var r := AfterExit(x, e);
    KillCommutes(WithAnswer(ScriptMoved(w, p, r.0, r.1, false), p, r.3), x.owner, e.pid, e.registers);
    hide PrepareResponse;
  }

  function WithChildren(w: World, children: map<int, nat>): World { w.(children := children) }

  lemma CloseIgnoresChildren(w: World, id: nat, children: map<int, nat>)
    ensures Close(WithChildren(w, children), id) == WithChildren(Close(w, id), children)
  {
    if id in w.sessions {
      var s := w.sessions[id].(closed := true);
      assert Close(w, id) == SetSession(w, id, s);
      assert Close(WithChildren(w, children), id) == SetSession(WithChildren(w, children), id, s);
    } else {
      assert Close(w, id) == Fault(w);
    }
  }

  lemma RegisterIgnoresChildren(w: World, fd: int, target: Object, registers: bool, children: map<int, nat>)
    ensures var a := RegisterWrite(w, fd, target, registers);
            var b := RegisterWrite(WithChildren(w, children), fd, target, registers);
            b.0 == WithChildren(a.0, children) && b.1 == a.1
  {
    var v := WithChildren(w, children);
    if fd !in w.wr && registers {
      var u := w.(wr := w.wr[fd := target], interest := w.interest[fd := {Write}]);
      assert RegisterWrite(w, fd, target, registers) == (u, true);
      assert RegisterWrite(v, fd, target, registers) == (WithChildren(u, children), true);
    }
  }

  lemma PrepareIgnoresChildren(w: World, id: nat, registers: bool, children: map<int, nat>)
    ensures PrepareResponse(WithChildren(w, children), id, registers)
            == WithChildren(PrepareResponse(w, id, registers), children)
  {
    if id in w.sessions {
      var fd := w.sessions[id].fd;
      RegisterIgnoresChildren(w, fd, Client(id), registers, children);
      CloseIgnoresChildren(RegisterWrite(w, fd, Client(id), registers).0, id, children);
      hide RegisterWrite;
      hide Close;
      assert WithChildren(w, children).sessions == w.sessions;
      hide WithChildren;
    }
  }

  lemma KillCommutes(w: World, id: nat, pid: int, registers: bool)
    ensures Kill(PrepareResponse(w, id, registers), pid) == PrepareResponse(Kill(w, pid), id, registers)
  {
    PrepareIgnoresChildren(w, id, registers, w.children - {pid});
    hide PrepareResponse;
  }

  lemma MoveKeeps(w: World, p: nat, r: (Proc, bool, bool, Answer), registers: bool)
    requires CanMove(w, p, r.0, r.1, r.2)
    ensures Inv(MoveAndAnswer(w, p, r, registers))
  {
    assert p in w.procs;
    hide CanMove;
    hide AwaitsWrite;
    if r.0.described {
      MovedKeeps(w, p, r.0, r.1, r.2);
    } else {
      FinishedAwaits(w, p, r.0, r.3, r.1, r.2);
      PrepareResponseKeeps(ScriptFinished(w, p, r.0, r.3, r.1, r.2), r.0.owner, registers);
    }
  }

  lemma ScriptReadCanMove(w: World, p: nat, o: Outcome)
    requires Inv(w) && p in w.procs && w.procs[p].described && !w.procs[p].outputRead
    ensures var r := AfterScriptRead(w.procs[p], o); CanMove(w, p, r.0, r.1, r.2)
  {
    hide Inv;
  }

  lemma ExitCanMove(w: World, p: nat, e: Exit)
    requires Inv(w) && p in w.procs && w.procs[p].described && !w.procs[p].exited
    ensures var r := AfterExit(w.procs[p], e); CanMove(w, p, r.0, r.1, r.2)
  {
    hide Inv;
  }

  lemma ScriptOnReadKeeps(w: World, p: nat, o: Outcome)
    requires Inv(w) && p in w.procs && w.procs[p].described && !w.procs[p].outputRead
    ensures Inv(ScriptOnRead(w, p, o))
  {
    hide *;
    ScriptReadCanMove(w, p, o);
    ScriptOnReadIs(w, p, o);
    MoveKeeps(w, p, AfterScriptRead(w.procs[p], o), o.registers);
  }

  lemma ReapKeeps(w: World, e: Exit)
    requires Inv(w)
    ensures Inv(Reap(w, e))
  {
    if e.pid in w.children {
      assert ChildOwned(w, e.pid);
      hide *;
      var p := w.children[e.pid];
      ExitCanMove(w, p, e);
      ReapIs(w, e);
      MoveKeeps(w, p, AfterExit(w.procs[p], e), e.registers);
    }
  }
}
