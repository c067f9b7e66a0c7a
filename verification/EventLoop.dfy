/** The event loop as an object whose tables every callback updates in place,
    proved against the state machine on values. */
module EventLoop {
  import opened Octets
  import opened LoopSpec
  import opened LoopScripts
  import opened MultiplexerOrders

  // An entry of fds_to_delete_: CT_WRITE, or CT_READWRITE when `read` is set.
  datatype Deletion = Deletion(fd: int, read: bool)

  function ReadsOf(q: seq<Deletion>): set<int> { set d | d in q && d.read :: d.fd }

  function WritesOf(q: seq<Deletion>): set<int> { set d | d in q :: d.fd }

  lemma PushDeletion(q: seq<Deletion>, d: Deletion)
    ensures ReadsOf(q + [d]) == ReadsOf(q) + (if d.read then {d.fd} else {})
    ensures WritesOf(q + [d]) == WritesOf(q) + {d.fd}
  {
    var r := q + [d];
    assert forall x :: x in r <==> x in q || x == d;
    assert d in r;
    forall f | f in ReadsOf(q) ensures f in ReadsOf(r) {
      var x :| x in q && x.read && x.fd == f;
      assert x in r;
    }
    forall f | f in WritesOf(q) ensures f in WritesOf(r) {
      var x :| x in q && x.fd == f;
      assert x in r;
    }
  }

  lemma {:induction false} DispatchAllAppend(w: World, ready: seq<Event>, e: Event)
    ensures DispatchAll(w, ready + [e]) == Dispatch(DispatchAll(w, ready), e)
    decreases |ready|
  {
    hide Dispatch;
    if ready == [] {
      assert ready + [e] == [e] && [e][1..] == [];
    } else {
      assert (ready + [e])[1..] == ready[1..] + [e];
      DispatchAllAppend(Dispatch(w, ready[0]), ready[1..], e);
    }
  }

  lemma {:induction false} DispatchAllConcat(w: World, a: seq<Event>, b: seq<Event>)
    ensures DispatchAll(w, a + b) == DispatchAll(DispatchAll(w, a), b)
    decreases |b|
  {
    hide Dispatch;
    if b == [] {
      assert a + b == a;
    } else {
      var n := |b| - 1;
      assert a + b == (a + b[..n]) + [b[n]] && b == b[..n] + [b[n]];
      DispatchAllAppend(w, a + b[..n], b[n]);
      DispatchAllConcat(w, a, b[..n]);
      DispatchAllAppend(DispatchAll(w, a), b[..n], b[n]);
    }
  }

  // One descriptor's events, after those handed out so far.
  lemma DispatchSlot(w: World, done: seq<Event>, fd: int, read: bool, write: bool, outcomes: Outcomes)
    ensures var v := DispatchAll(w, done);
            var v1 := if read then Dispatch(v, ReadEvent(fd, outcomes)) else v;
            var v2 := if write then Dispatch(v1, WriteEvent(fd, outcomes)) else v1;
            DispatchAll(w, done + Slot(fd, read, write, outcomes)) == v2
  {
    hide Dispatch;
    var a := if read then [ReadEvent(fd, outcomes)] else [];
    var b := if write then [WriteEvent(fd, outcomes)] else [];
    assert done + Slot(fd, read, write, outcomes) == done + a + b;
    DispatchAllConcat(w, done, a);
    DispatchAllConcat(w, done + a, b);
    assert a != [] ==> a[1..] == [];
    assert b != [] ==> b[1..] == [];
  }

  // ----- children and clients

  function PidsOf(exits: seq<Exit>): set<int> { set i | 0 <= i < |exits| :: exits[i].pid }

  predicate DistinctPids(exits: seq<Exit>) { forall i, j :: 0 <= i < j < |exits| ==> exits[i].pid != exits[j].pid }

  /** An exit callback neither reads nor changes the table of children. */
  lemma ExitIgnoresChildren(w: World, p: nat, e: Exit, children: map<int, nat>)
    ensures ScriptOnExit(WithChildren(w, children), p, e) == WithChildren(ScriptOnExit(w, p, e), children)
    ensures ScriptOnExit(w, p, e).children == w.children
  {
    hide ScriptOnExit;
    if !(p in w.procs && w.procs[p].described) {
      FaultIgnoresChildren(w, p, e, children);
    } else if e.success {
      SuccessIgnoresChildren(w, p, e, children);
    } else {
      FailureIgnoresChildren(w, p, e, children);
    }
  }

  lemma FaultIgnoresChildren(w: World, p: nat, e: Exit, children: map<int, nat>)
    requires !(p in w.procs && w.procs[p].described)
    ensures ScriptOnExit(WithChildren(w, children), p, e) == WithChildren(ScriptOnExit(w, p, e), children)
    ensures ScriptOnExit(w, p, e).children == w.children
  {
  }

  lemma FailureIgnoresChildren(w: World, p: nat, e: Exit, children: map<int, nat>)
    requires p in w.procs && w.procs[p].described && !e.success
    ensures ScriptOnExit(WithChildren(w, children), p, e) == WithChildren(ScriptOnExit(w, p, e), children)
    ensures ScriptOnExit(w, p, e).children == w.children
  {
    hide Respond;
    RespondIgnoresChildren(Undescribe(DeleteBoth(w, w.procs[p].fd), p), p, ErrorPage, e.registers, children);
  }

  lemma SuccessIgnoresChildren(w: World, p: nat, e: Exit, children: map<int, nat>)
    requires p in w.procs && w.procs[p].described && e.success
    ensures ScriptOnExit(WithChildren(w, children), p, e) == WithChildren(ScriptOnExit(w, p, e), children)
    ensures ScriptOnExit(w, p, e).children == w.children
  {
    hide Respond;
    var x := w.procs[p];
    var a := if e.parses then FromScript(Concat(x.chunks)) else ErrorPage;
    RespondIgnoresChildren(Undescribe(SetProc(w, p, x.(exited := true)), p), p, a, e.registers, children);
  }

  lemma RespondIgnoresChildren(w: World, p: nat, a: Answer, registers: bool, children: map<int, nat>)
    ensures Respond(WithChildren(w, children), p, a, registers) == WithChildren(Respond(w, p, a, registers), children)
    ensures Respond(w, p, a, registers).children == w.children
  {
    if p in w.procs {
      var v := w.(answers := w.answers[p := AnswersOf(w, p) + [a]]);
      PrepareIgnoresChildren(v, w.procs[p].owner, registers, children);
    }
    hide PrepareResponse;
  }

  lemma {:induction false} ReapAllAppend(w: World, exits: seq<Exit>, e: Exit)
    ensures ReapAll(w, exits + [e]) == Reap(ReapAll(w, exits), e)
    decreases |exits|
  {
    hide Reap;
    if exits == [] {
      assert exits + [e] == [e] && [e][1..] == [];
    } else {
      assert (exits + [e])[1..] == exits[1..] + [e];
      ReapAllAppend(Reap(w, exits[0]), exits[1..], e);
    }
  }

  // Calling back first and erasing later is erasing each entry at once.
  lemma ReapLater(was: World, v: World, exits: seq<Exit>, i: nat)
    requires i < |exits| && DistinctPids(exits) && v.children == was.children
    requires WithChildren(v, was.children - PidsOf(exits[..i])) == ReapAll(was, exits[..i])
    ensures var e := exits[i];
            var next := if e.pid in was.children then ScriptOnExit(v, was.children[e.pid], e) else v;
            && next.children == was.children
            && WithChildren(next, was.children - PidsOf(exits[..i + 1])) == ReapAll(was, exits[..i + 1])
  {
    var e := exits[i];
    var before := was.children - PidsOf(exits[..i]);
    assert exits[..i + 1] == exits[..i] + [e];
    ReapAllAppend(was, exits[..i], e);
    OnePidMore(exits, i);
    assert before - {e.pid} == was.children - PidsOf(exits[..i + 1]);
    if e.pid in was.children {
      assert e.pid in before;
      ExitIgnoresChildren(v, was.children[e.pid], e, before);
      hide ScriptOnExit;
      hide ReapAll;
    } else {
      assert before - {e.pid} == before;
    }
  }

  lemma OnePidMore(exits: seq<Exit>, i: nat)
    requires i < |exits| && DistinctPids(exits)
    ensures PidsOf(exits[..i + 1]) == PidsOf(exits[..i]) + {exits[i].pid}
    ensures exits[i].pid !in PidsOf(exits[..i])
  {
    var a, b := exits[..i], exits[..i + 1];
    assert forall k :: 0 <= k < i ==> a[k] == exits[k] && b[k] == exits[k];
    forall p ensures p in PidsOf(b) <==> p in PidsOf(a) + {exits[i].pid} {
      if p in PidsOf(b) {
        var k :| 0 <= k < |b| && b[k].pid == p;
        assert k < i ==> a[k].pid == p;
      }
      if p in PidsOf(a) {
        var k :| 0 <= k < |a| && a[k].pid == p;
        assert b[k].pid == p;
      }
      assert b[i].pid == exits[i].pid;
    }
  }

  lemma {:induction false} SweepAllAppend(w: World, fds: seq<int>, fd: int, idle: set<int>)
    ensures SweepAll(w, fds + [fd], idle) == Sweep(SweepAll(w, fds, idle), fd, idle)
    decreases |fds|
  {
    hide Sweep;
    if fds == [] {
      assert fds + [fd] == [fd] && [fd][1..] == [];
    } else {
      assert (fds + [fd])[1..] == fds[1..] + [fd];
      SweepAllAppend(Sweep(w, fds[0], idle), fds[1..], fd, idle);
    }
  }

  lemma {:induction false} RunAppend(w: World, rounds: seq<Round>, r: Round)
    ensures RunLoop(w, rounds + [r]) == DoRound(RunLoop(w, rounds), r)
    decreases |rounds|
  {
    hide DoRound;
    if rounds == [] {
      assert rounds + [r] == [r] && [r][1..] == [];
    } else {
      assert (rounds + [r])[1..] == rounds[1..] + [r];
      RunAppend(DoRound(w, rounds[0]), rounds[1..], r);
    }
  }

  // The world with other deletions pending.
  function WithDrops(w: World, q: seq<Deletion>): World { w.(dropRd := ReadsOf(q), dropWr := WritesOf(q)) }

  lemma FlushNothing(w: World)
    ensures Flush(WithDrops(w, [])).rd == w.rd && Flush(WithDrops(w, [])).wr == w.wr
    ensures Flush(WithDrops(w, [])).interest == w.interest
  {
    var u := WithDrops(w, []);
    assert u.dropRd == {} && u.dropWr == {};
  }

  /** Tables after one call of UnregisterFd: the callbacks it names are gone,
      and if there was one the kernel watches what is left registered. */
  predicate Unregistered(rd: map<int, Object>, wr: map<int, Object>, interest: map<int, set<Kind>>, d: Deletion,
                         rd': map<int, Object>, wr': map<int, Object>, interest': map<int, set<Kind>>)
  {
    && rd' == (if d.read then rd - {d.fd} else rd) && wr' == wr - {d.fd}
    && interest'.Keys <= interest.Keys
    && (forall f :: f in interest && f != d.fd ==> f in interest' && interest'[f] == interest[f])
    && var found := (d.read && d.fd in rd) || d.fd in wr;
       var left := RegisteredKinds(rd', wr', d.fd);
       if found then
         (d.fd in interest' <==> d.fd in interest && left != {}) && (d.fd in interest' ==> interest'[d.fd] == left)
       else d.fd in interest ==> d.fd in interest' && interest'[d.fd] == interest[d.fd]
  }

  lemma OnlyOneResult(rd: map<int, Object>, wr: map<int, Object>, a: map<int, set<Kind>>, d: Deletion,
                      rd': map<int, Object>, wr': map<int, Object>, b: map<int, set<Kind>>, c: map<int, set<Kind>>)
    requires Unregistered(rd, wr, a, d, rd', wr', b) && Unregistered(rd, wr, a, d, rd', wr', c)
    ensures b == c
  {
    forall f ensures f in b.Keys <==> f in c.Keys {
      assert f in b.Keys ==> f in a.Keys;
      assert f in c.Keys ==> f in a.Keys;
    }
    assert b.Keys == c.Keys;
    forall f | f in b ensures b[f] == c[f] {
      assert f in a;
    }
  }

  // A flush deletes one more callback as UnregisterFd does.
  lemma FlushOne(w: World, q: seq<Deletion>, d: Deletion)
    ensures var v, u := Flush(WithDrops(w, q)), Flush(WithDrops(w, q + [d]));
            Unregistered(v.rd, v.wr, v.interest, d, u.rd, u.wr, u.interest)
  {
    PushDeletion(q, d);
    FlushOneInterest(w, q, d);
    var a, b := WithDrops(w, q), WithDrops(w, q + [d]);
    forall f | f != d.fd ensures Deleted(a, f) == Deleted(b, f) && Kept(a, f) == Kept(b, f) {
    }
  }

  lemma FlushOneInterest(w: World, q: seq<Deletion>, d: Deletion)
    ensures var v, u := Flush(WithDrops(w, q)), Flush(WithDrops(w, q + [d]));
            var found := (d.read && d.fd in v.rd) || d.fd in v.wr;
            var left := RegisteredKinds(u.rd, u.wr, d.fd);
            if found then (d.fd in u.interest <==> d.fd in v.interest && left != {})
                          && (d.fd in u.interest ==> u.interest[d.fd] == left)
            else
              && (d.fd in u.interest <==> d.fd in v.interest)
              && (d.fd in v.interest ==> u.interest[d.fd] == v.interest[d.fd])
  {
    PushDeletion(q, d);
    var a, b := WithDrops(w, q), WithDrops(w, q + [d]);
    var v := Flush(a);
    var found := (d.read && d.fd in v.rd) || d.fd in v.wr;
    assert found ==> Deleted(b, d.fd) && Kept(a, d.fd) != {};
    assert !found ==> Deleted(b, d.fd) == Deleted(a, d.fd) && Kept(b, d.fd) == Kept(a, d.fd);
  }

  class EventLoop {
    var rd: map<int, Object>
    var wr: map<int, Object>
    var fdsToDelete: seq<Deletion>
    var fds: map<int, Object>
    var sessions: map<nat, Session>
    var procs: map<nat, Proc>
    var clients: map<int, nat>
    var children: map<int, nat>
    var answers: map<nat, seq<Answer>>
    var nextId: nat
    var fault: bool
    var interest: map<int, set<Kind>>

    ghost function Value(): World
      reads this
    {
      World(rd, wr, ReadsOf(fdsToDelete), WritesOf(fdsToDelete), fds, sessions, procs, clients, children,
            answers, nextId, fault, interest)
    }

    constructor (listeners: set<int>)
      ensures Value() == Initial(listeners)
    {
      rd := map f | f in listeners :: Listener;
      fds := map f | f in listeners :: Listener;
      interest := map f | f in listeners :: {Read};
      wr, sessions, procs, clients, children, answers := map[], map[], map[], map[], map[], map[];
      fdsToDelete, nextId, fault := [], 0, false;
    }

    // ----- AMultiplexer, EpollMultiplexer

    /** `kernelTakes` is what epoll_ctl answers; adding and modifying both set
        the interest to the one kind being registered. */
    method TryRegisterFd(fd: int, kind: Kind, callback: Object, kernelTakes: bool) returns (ok: bool)
      modifies `rd, `wr, `fault, `interest
      ensures (Value(), ok) == if kind == Read then RegisterRead(old(Value()), fd, callback, kernelTakes)
                               else RegisterWrite(old(Value()), fd, callback, kernelTakes)
    {
      if (kind == Read && fd in rd) || (kind == Write && fd in wr) {
        fault := true;
        return false;
      }
      if !kernelTakes {
        return false;
      }
      interest := interest[fd := {kind}];
      if kind == Read {
        rd := rd[fd := callback];
      } else {
        wr := wr[fd := callback];
      }
      return true;
    }

    method UnregisterFd(d: Deletion)
      modifies `rd, `wr, `interest
      ensures Unregistered(old(rd), old(wr), old(interest), d, rd, wr, interest)
    {
      var foundRead := d.read && d.fd in rd;
      var foundWrite := d.fd in wr;
      if foundRead || foundWrite {
        var left := RegisteredKinds(rd, wr, d.fd) - (if d.read then {Read, Write} else {Write});
        if left == {} || d.fd !in interest {
          interest := interest - {d.fd};
        } else {
          interest := interest[d.fd := left];
        }
      }
      if foundRead {
        rd := rd - {d.fd};
      }
      if foundWrite {
        wr := wr - {d.fd};
      }
      assert !foundRead && d.read ==> rd - {d.fd} == rd;
      assert !foundWrite ==> wr - {d.fd} == wr;
    }

    // ----- EventManager

    method DeleteCallback(fd: int, both: bool)
      modifies `fdsToDelete
      ensures Value() == if both then DeleteBoth(old(Value()), fd) else DeleteWrite(old(Value()), fd)
    {
      PushDeletion(fdsToDelete, Deletion(fd, both));
      fdsToDelete := fdsToDelete + [Deletion(fd, both)];
    }

    /** The first half of CheckOnce_. */
    method FlushDeletions()
      modifies `rd, `wr, `interest, `fdsToDelete
      ensures Value() == Flush(old(Value()))
    {
      ghost var was := Value();
      FlushNothing(was);
      var i := 0;
      while i < |fdsToDelete|
        invariant 0 <= i <= |fdsToDelete| && fdsToDelete == old(fdsToDelete)
        invariant var v := Flush(WithDrops(was, fdsToDelete[..i])); rd == v.rd && wr == v.wr && interest == v.interest
      {
        ghost var q, d := fdsToDelete[..i], fdsToDelete[i];
        FlushOne(was, q, d);
        hide Flush;
        ghost var v, u := Flush(WithDrops(was, q)), Flush(WithDrops(was, q + [d]));
        UnregisterFd(fdsToDelete[i]);
        OnlyOneResult(v.rd, v.wr, v.interest, d, u.rd, u.wr, u.interest, interest);
        assert fdsToDelete[..i + 1] == q + [d];
        i := i + 1;
      }
      assert fdsToDelete[..i] == fdsToDelete;
      assert WithDrops(was, fdsToDelete) == was;
      fdsToDelete := [];
    }

    // ----- ClientSession

    method CloseConnection(id: nat)
      modifies `sessions, `fault
      ensures Value() == Close(old(Value()), id)
    {
      if id !in sessions {
        fault := true;
        return;
      }
      sessions := sessions[id := sessions[id].(closed := true)];
    }

    method PrepareResponse(id: nat, kernelTakes: bool)
      modifies this
      ensures Value() == LoopSpec.PrepareResponse(old(Value()), id, kernelTakes)
    {
      if id !in sessions {
        fault := true;
        return;
      }
      hide RegisterWrite;
      hide Close;
      var ok := TryRegisterFd(sessions[id].fd, Write, Client(id), kernelTakes);
      if !ok {
        CloseConnection(id);
      }
    }

    /** OnReadyToRecvFromClientCb, with what the socket and the request builder
        made of it. */
    method OnReadyToRecvFromClient(id: nat, o: Outcome)
      modifies this
      ensures Value() == ClientOnRead(old(Value()), id, o)
    {
      if id !in sessions {
        fault := true;
        return;
      }
      if sessions[id].busy {
        return;
      }
      match o.clientRead {
        case Disconnected => CloseConnection(id);
        case Incomplete =>
        case Finished(reply) => ProcessNewRequest(id, reply, o.registers);
      }
    }

    method ProcessNewRequest(id: nat, reply: Reply, kernelTakes: bool)
      modifies this
      ensures Value() == ProcessRequest(old(Value()), id, reply, kernelTakes)
    {
      if id !in sessions {
        fault := true;
        return;
      }
      hide LoopSpec.PrepareResponse;
      hide StartScript;
      var s := sessions[id];
      sessions := sessions[id := s.(busy := true, completed := s.completed + 1)];
      assert Value() == Busy(old(Value()), id);
      hide Busy;
      match reply {
        case Generated => PrepareResponse(id, kernelTakes);
        case RunScript(fd, pid, kernelTakesScript) =>
          if fd in fds || pid in children {
            PrepareResponse(id, kernelTakes);
          } else {
            RunCgi(id, fd, pid, kernelTakesScript, kernelTakes);
          }
      }
    }

    method ResponseSentCleanup(id: nat, close: bool)
      modifies this
      ensures Value() == LoopSpec.ResponseSentCleanup(old(Value()), id, close)
    {
      if id !in sessions {
        fault := true;
        return;
      }
      hide DeleteWrite;
      hide DestroyProc;
      var s := sessions[id];
      DeleteCallback(s.fd, false);
      if s.proc.Some? {
        DestroyCgiProcessor(s.proc.value);
      }
      sessions := sessions[id := s.(busy := false, proc := None, sent := s.sent + 1, closed := s.closed || close)];
    }

    method OnReadyToSendToClient(id: nat, o: Outcome)
      modifies this
      ensures Value() == ClientOnWrite(old(Value()), id, o)
    {
      if id !in sessions {
        fault := true;
        return;
      }
      match o.clientWrite {
        case SendFailed => CloseConnection(id);
        case MoreToSend =>
        case AllSent(close) => ResponseSentCleanup(id, close);
      }
    }

    /** The session's destructor: its callbacks first, then its members. */
    method DestroyClientSession(id: nat)
      modifies this
      ensures Value() == DestroySession(old(Value()), id)
    {
      if id !in sessions {
        fault := true;
        return;
      }
      hide DeleteBoth;
      hide DestroyProc;
      var s := sessions[id];
      DeleteCallback(s.fd, true);
      if s.proc.Some? {
        DestroyCgiProcessor(s.proc.value);
      }
      fds := fds - {s.fd};
      interest := interest - {s.fd};
      sessions := sessions - {id};
      clients := clients - {s.fd};
    }

    // ----- CGIProcessor

    /** The constructor from the fork on. */
    method RunCgi(id: nat, fd: int, pid: int, kernelTakesScript: bool, kernelTakes: bool)
      requires id in sessions
      modifies this
      ensures Value() == StartScript(old(Value()), id, fd, pid, kernelTakesScript, kernelTakes)
    {
      hide NewChild;
      hide RegisterRead;
      hide Kill;
      hide Undescribe;
      hide Respond;
      var p := RunChildProcess(id, fd, pid);
      var ok := TryRegisterFd(fd, Read, Script(p), kernelTakesScript);
      if !ok {
        KillChildProcess(pid);
        ResetDescription(p);
        CallResponseCallback(p, ErrorPage, kernelTakes);
      }
    }

    method RunChildProcess(id: nat, fd: int, pid: int) returns (p: nat)
      requires id in sessions
      modifies `nextId, `fds, `sessions, `children, `answers, `procs
      ensures p == old(nextId) && Value() == NewChild(old(Value()), id, fd, pid)
    {
      p := nextId;
      nextId := p + 1;
      fds := fds[fd := Script(p)];
      sessions := sessions[id := sessions[id].(proc := Some(p))];
      children := children[pid := p];
      answers := answers[p := []];
      procs := procs[p := Proc(id, fd, pid, true, false, false, [])];
    }

    method KillChildProcess(pid: int)
      modifies `children
      ensures Value() == Kill(old(Value()), pid)
    {
      if pid in children {
        children := children - {pid};
      }
      assert pid !in old(children) ==> old(children) - {pid} == old(children);
    }

    method ResetDescription(p: nat)
      modifies `procs, `fault
      ensures Value() == Undescribe(old(Value()), p)
    {
      if p !in procs {
        fault := true;
        return;
      }
      procs := procs[p := procs[p].(described := false)];
    }

    method DestroyCgiProcessor(p: nat)
      modifies this
      ensures Value() == DestroyProc(old(Value()), p)
    {
      if p !in procs {
        fault := true;
        return;
      }
      var x := procs[p];
      if x.described {
        DeleteCallback(x.fd, true);
        KillChildProcess(x.pid);
      }
      fds := fds - {x.fd};
      interest := interest - {x.fd};
      procs := procs - {p};
    }

    method CallResponseCallback(p: nat, a: Answer, kernelTakes: bool)
      modifies this
      ensures Value() == Respond(old(Value()), p, a, kernelTakes)
    {
      if p !in procs {
        fault := true;
        return;
      }
      answers := answers[p := (if p in answers then answers[p] else []) + [a]];
      PrepareResponse(procs[p].owner, kernelTakes);
    }

    method ProceedWithRsIfRdy(p: nat, parses: bool, kernelTakes: bool)
      modifies this
      ensures Value() == ProceedIfReady(old(Value()), p, parses, kernelTakes)
    {
      if p !in procs {
        fault := true;
        return;
      }
      var x := procs[p];
      if !(x.outputRead && x.exited) {
        return;
      }
      ResetDescription(p);
      if parses {
        CallResponseCallback(p, FromScript(Concat(x.chunks)), kernelTakes);
      } else {
        CallResponseCallback(p, ErrorPage, kernelTakes);
      }
    }

    method ReadChildOutput(p: nat, o: Outcome)
      modifies this
      ensures Value() == ScriptOnRead(old(Value()), p, o)
    {
      if p !in procs || !procs[p].described {
        fault := true;
        return;
      }
      var x := procs[p];
      match o.scriptRead {
        case ReadFailed =>
          DeleteCallback(x.fd, true);
          KillChildProcess(x.pid);
          ResetDescription(p);
          CallResponseCallback(p, ErrorPage, o.registers);
        case Output(data) =>
          procs := procs[p := x.(chunks := x.chunks + [data])];
        case EndOfOutput =>
          procs := procs[p := x.(outputRead := true)];
          DeleteCallback(x.fd, true);
          ProceedWithRsIfRdy(p, o.parses, o.registers);
      }
    }

    method ChildProcessDone(p: nat, e: Exit)
      modifies this
      ensures Value() == ScriptOnExit(old(Value()), p, e)
    {
      if p !in procs || !procs[p].described {
        fault := true;
        return;
      }
      var x := procs[p];
      if !e.success {
        DeleteCallback(x.fd, true);
        ResetDescription(p);
        CallResponseCallback(p, ErrorPage, e.registers);
        return;
      }
      procs := procs[p := x.(exited := true)];
      ProceedWithRsIfRdy(p, e.parses, e.registers);
    }

    // ----- ServerCluster

    method AcceptClient(o: Outcome)
      modifies this
      ensures Value() == Accept(old(Value()), o)
    {
      if o.accepted.None? || o.accepted.value in fds {
        return;
      }
      hide NewClient;
      hide RegisterRead;
      hide Close;
      var fd := o.accepted.value;
      var id := MakeClientSession(fd);
      var ok := TryRegisterFd(fd, Read, Client(id), o.registers);
      if !ok {
        CloseConnection(id);
      }
    }

    method MakeClientSession(fd: int) returns (id: nat)
      modifies `nextId, `fds, `sessions, `fault, `clients
      ensures id == old(nextId) && Value() == NewClient(old(Value()), fd)
    {
      id := nextId;
      nextId := id + 1;
      fds := fds[fd := Client(id)];
      sessions := sessions[id := Session(fd, false, false, None, 0, 0)];
      fault := fault || fd in clients;
      clients := clients[fd := id];
    }

    /** Looks the callback up and calls it: one event of any multiplexer. */
    method CallReady(e: Event)
      modifies this
      ensures Value() == Dispatch(old(Value()), e)
    {
      if e.kind == Read {
        if e.fd in rd {
          match rd[e.fd] {
            case Listener => AcceptClient(e.outcome);
            case Client(id) => OnReadyToRecvFromClient(id, e.outcome);
            case Script(p) => ReadChildOutput(p, e.outcome);
          }
        }
      } else if e.fd in wr {
        match wr[e.fd] {
          case Client(id) => OnReadyToSendToClient(id, e.outcome);
          case _ => fault := true;
        }
      }
    }

    // ----- CheckOnce of the three multiplexers

    method SelectCheckOnce(readable: set<int>, writable: set<int>, maxFd: nat, outcomes: Outcomes)
      modifies this
      ensures Value() == DispatchAll(old(Value()), SelectOrder(readable, writable, maxFd, outcomes))
    {
      hide Dispatch;
      ghost var was := Value();
      for fd := 0 to maxFd + 1
        invariant Value() == DispatchAll(was, SelectOrder(readable, writable, fd - 1, outcomes))
      {
        ghost var done := SelectOrder(readable, writable, fd - 1, outcomes);
        DispatchSlot(was, done, fd, fd in readable, fd in writable, outcomes);
        if fd in readable {
          CallReady(ReadEvent(fd, outcomes));
        }
        if fd in writable {
          CallReady(WriteEvent(fd, outcomes));
        }
      }
    }

    method PollCheckOnce(readable: seq<int>, writable: seq<int>, outcomes: Outcomes)
      modifies this
      ensures Value() == DispatchAll(old(Value()), PollOrder(readable, writable, outcomes))
    {
      HandleReady(ReadEvents(readable, outcomes));
      DispatchAllConcat(old(Value()), ReadEvents(readable, outcomes), WriteEvents(writable, outcomes));
      HandleReady(WriteEvents(writable, outcomes));
    }

    method EpollCheckOnce(reported: seq<Reported>, outcomes: Outcomes)
      modifies this
      ensures Value() == DispatchAll(old(Value()), EpollOrder(reported, outcomes))
    {
      hide Dispatch;
      ghost var was := Value();
      for i := 0 to |reported|
        invariant Value() == DispatchAll(was, EpollOrder(reported[..i], outcomes))
      {
        var r := reported[i];
        assert reported[..i + 1][..i] == reported[..i];
        DispatchSlot(was, EpollOrder(reported[..i], outcomes), r.fd, Read in r.kinds, Write in r.kinds, outcomes);
        if Read in r.kinds {
          CallReady(ReadEvent(r.fd, outcomes));
        }
        if Write in r.kinds {
          CallReady(WriteEvent(r.fd, outcomes));
        }
      }
      assert reported[..|reported|] == reported;
    }

    method HandleReady(ready: seq<Event>)
      modifies this
      ensures Value() == DispatchAll(old(Value()), ready)
    {
      hide Dispatch;
      ghost var was := Value();
      for i := 0 to |ready|
        invariant Value() == DispatchAll(was, ready[..i])
      {
        assert ready[..i + 1] == ready[..i] + [ready[i]];
        DispatchAllAppend(was, ready[..i], ready[i]);
        CallReady(ready[i]);
      }
      assert ready[..|ready|] == ready;
    }

    // ----- the rest of a round

    /** The children that have exited: their callbacks are called while their
        entries stay, and the entries are erased after the pass. */
    method ReapChildren(exits: seq<Exit>)
      requires DistinctPids(exits)
      modifies this
      ensures Value() == ReapAll(old(Value()), exits)
    {
      ghost var was := Value();
      var toDelete := {};
      assert was.children - PidsOf(exits[..0]) == was.children && exits[..0] == [];
      assert WithChildren(was, was.children) == was;
      for i := 0 to |exits|
        invariant children == was.children && toDelete == PidsOf(exits[..i]) * was.children.Keys
        invariant WithChildren(Value(), was.children - PidsOf(exits[..i])) == ReapAll(was, exits[..i])
      {
        hide ScriptOnExit;
        ReapLater(was, Value(), exits, i);
        OnePidMore(exits, i);
        if exits[i].pid in children {
          ChildProcessDone(children[exits[i].pid], exits[i]);
          toDelete := toDelete + {exits[i].pid};
        }
      }
      assert exits[..|exits|] == exits;
      assert children - toDelete == children - PidsOf(exits);
      children := children - toDelete;
    }

    method CheckClients(order: seq<int>, idle: set<int>)
      modifies this
      ensures Value() == SweepAll(old(Value()), order, idle)
    {
      ghost var was := Value();
      for i := 0 to |order|
        invariant Value() == SweepAll(was, order[..i], idle)
      {
        assert order[..i + 1] == order[..i] + [order[i]];
        SweepAllAppend(was, order[..i], order[i], idle);
        CheckClient(order[i], idle);
      }
      assert order[..|order|] == order;
    }

    method CheckClient(fd: int, idle: set<int>)
      modifies this
      ensures Value() == Sweep(old(Value()), fd, idle)
    {
      hide DestroySession;
      hide Close;
      if fd !in clients {
        return;
      }
      var id := clients[fd];
      if id !in sessions {
        fault := true;
      } else if sessions[id].closed {
        DestroyClientSession(id);
      } else if fd in idle {
        CloseConnection(id);
      }
    }

    /** CheckOnce of the multiplexer in use, once its wait is over. */
    method CheckOnce(wait: Wait)
      modifies this
      ensures Value() == DispatchAll(old(Value()), HandedOut(wait))
    {
      match wait
      case SelectWait(readable, writable, maxFd, outcomes) => SelectCheckOnce(readable, writable, maxFd, outcomes);
      case PollWait(toRead, toWrite, outcomes) => PollCheckOnce(toRead, toWrite, outcomes);
      case EpollWait(reported, outcomes) => EpollCheckOnce(reported, outcomes);
    }

    /** ServerCluster::Run. */
    method Run(turns: seq<Turn>)
      requires forall i :: 0 <= i < |turns| ==> DistinctPids(turns[i].exits)
      modifies this
      ensures Value() == RunLoop(old(Value()), RoundsOf(turns))
    {
      ghost var was, rounds := Value(), RoundsOf(turns);
      for i := 0 to |turns|
        invariant Value() == RunLoop(was, rounds[..i])
      {
        hide Flush;
        hide DispatchAll;
        hide ReapAll;
        hide SweepAll;
        hide HandedOut;
        assert rounds[..i + 1] == rounds[..i] + [rounds[i]];
        RunAppend(was, rounds[..i], rounds[i]);
        FlushDeletions();
        CheckOnce(turns[i].wait);
        ReapChildren(turns[i].exits);
        CheckClients(turns[i].visited, turns[i].idle);
      }
      assert rounds[..|turns|] == rounds;
    }
  }
}
