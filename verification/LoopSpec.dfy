/** The event loop with its sessions and CGI processors as a state machine on
    values. Sessions and processors are objects with an identity that is never
    used again, so that a callback can refer to one that is gone. */
module LoopSpec {
  import opened Octets

  // What a descriptor belongs to, and what a callback holds a reference to.
  datatype Object = Listener | Client(id: nat) | Script(id: nat)

  // ClientSession: `completed` and `sent` count its requests and its fully
  // sent responses.
  datatype Session = Session(fd: int, busy: bool, closed: bool, proc: Option<nat>, completed: nat, sent: nat)

  // CGIProcessor. `described` is the flag of its child description: clearing it
  // does not close the socket, which goes with the processor.
  datatype Proc = Proc(owner: nat, fd: int, pid: int, described: bool, outputRead: bool, exited: bool,
                       chunks: seq<Bytes>)

  // What the response callback is given: the parsed script output or an error page.
  datatype Answer = FromScript(raw: Bytes) | ErrorPage

  datatype Kind = Read | Write

  /** The multiplexer's maps, the deferred deletions, the descriptor table, the
      live objects, `clients_` and `child_processes_`. `fault` records that a
      callback reached a destroyed object or an absent child description, that
      a registration found an entry in its place, or that `clients_` had one.
      `interest` is what the kernel watches for the epoll multiplexer. */
  datatype World = World(
    rd: map<int, Object>, wr: map<int, Object>, dropRd: set<int>, dropWr: set<int>,
    fds: map<int, Object>, sessions: map<nat, Session>, procs: map<nat, Proc>,
    clients: map<int, nat>, children: map<int, nat>,
    answers: map<nat, seq<Answer>>, nextId: nat, fault: bool,
    interest: map<int, set<Kind>>)

  // ----- what the outside may do

  datatype Reply = Generated | RunScript(fd: int, pid: int, registers: bool)

  datatype ClientRead = Disconnected | Incomplete | Finished(reply: Reply)

  datatype ClientWrite = SendFailed | MoreToSend | AllSent(close: bool)

  datatype ScriptRead = ReadFailed | Output(data: Bytes) | EndOfOutput

  // `registers`: the kernel takes the descriptor the callback registers;
  // `parses`: the script output is a response.
  datatype Outcome = Outcome(accepted: Option<int>, clientRead: ClientRead, clientWrite: ClientWrite,
                             scriptRead: ScriptRead, parses: bool, registers: bool)

  datatype Event = Event(fd: int, kind: Kind, outcome: Outcome)

  datatype Exit = Exit(pid: int, success: bool, parses: bool, registers: bool)

  // ----- EventManager and multiplexer

  // GetRegisteredEventType, for given maps.
  function RegisteredKinds(rd: map<int, Object>, wr: map<int, Object>, fd: int): set<Kind> {
    (if fd in rd then {Read} else {}) + (if fd in wr then {Write} else {})
  }

  function Fault(w: World): World { w.(fault := true) }

  function RegisterRead(w: World, fd: int, target: Object, registers: bool): (World, bool) {
    if fd in w.rd then (Fault(w), false)
    else if !registers then (w, false)
    else (w.(rd := w.rd[fd := target], interest := w.interest[fd := {Read}]), true)
  }

  function RegisterWrite(w: World, fd: int, target: Object, registers: bool): (World, bool) {
    if fd in w.wr then (Fault(w), false)
    else if !registers then (w, false)
    else (w.(wr := w.wr[fd := target], interest := w.interest[fd := {Write}]), true)
  }

  function DeleteWrite(w: World, fd: int): World { w.(dropWr := w.dropWr + {fd}) }

  function DeleteBoth(w: World, fd: int): World { w.(dropRd := w.dropRd + {fd}, dropWr := w.dropWr + {fd}) }

  // A deletion finds a callback, and what stays registered without it.
  predicate Deleted(w: World, fd: int) { (fd in w.rd && fd in w.dropRd) || (fd in w.wr && fd in w.dropWr) }

  function Kept(w: World, fd: int): set<Kind> { RegisteredKinds(w.rd - w.dropRd, w.wr - w.dropWr, fd) }

  function Flush(w: World): World {
    w.(rd := w.rd - w.dropRd, wr := w.wr - w.dropWr, dropRd := {}, dropWr := {},
       interest := map f | f in w.interest && (Deleted(w, f) ==> Kept(w, f) != {}) ::
                     if Deleted(w, f) then Kept(w, f) else w.interest[f])
  }

  // ----- ClientSession

  function SetSession(w: World, id: nat, s: Session): World { w.(sessions := w.sessions[id := s]) }

  function Close(w: World, id: nat): (v: World)
    ensures v == w.(sessions := v.sessions, fault := v.fault)
  {
    if id !in w.sessions then Fault(w) else SetSession(w, id, w.sessions[id].(closed := true))
  }

  function PrepareResponse(w: World, id: nat, registers: bool): (v: World)
    ensures v == w.(sessions := v.sessions, wr := v.wr, interest := v.interest, fault := v.fault)
  {
    if id !in w.sessions then Fault(w)
    else
      var r := RegisterWrite(w, w.sessions[id].fd, Client(id), registers);
      if r.1 then r.0 else Close(r.0, id)
  }

  function ClientOnRead(w: World, id: nat, o: Outcome): World {
    if id !in w.sessions then Fault(w)
    else if w.sessions[id].busy then w
    else match o.clientRead
      case Disconnected => Close(w, id)
      case Incomplete => w
      case Finished(reply) => ProcessRequest(w, id, reply, o.registers)
  }

  function Busy(w: World, id: nat): World
    requires id in w.sessions
  {
    var s := w.sessions[id];
    SetSession(w, id, s.(busy := true, completed := s.completed + 1))
  }

  /** A complete request: the session is busy and a processor is made. A
      processor that generates its response calls back at once. */
  function ProcessRequest(w: World, id: nat, reply: Reply, registers: bool): World {
    if id !in w.sessions then Fault(w)
    else
      var w1 := Busy(w, id);
      match reply
      case Generated => PrepareResponse(w1, id, registers)
      case RunScript(fd, pid, registersScript) =>
        // the kernel gives out no descriptor or process number that is in use
        if fd in w1.fds || pid in w1.children then PrepareResponse(w1, id, registers)
        else StartScript(w1, id, fd, pid, registersScript, registers)
  }

  // The child runs and its entry is made.
  function NewChild(w: World, id: nat, fd: int, pid: int): World
    requires id in w.sessions
  {
    var p := w.nextId;
    w.(nextId := p + 1, fds := w.fds[fd := Script(p)],
       sessions := w.sessions[id := w.sessions[id].(proc := Some(p))],
       children := w.children[pid := p], answers := w.answers[p := []],
       procs := w.procs[p := Proc(id, fd, pid, true, false, false, [])])
  }

  /** CGIProcessor's constructor once the child runs. */
  function StartScript(w: World, id: nat, fd: int, pid: int, registersScript: bool, registers: bool): World
    requires id in w.sessions
  {
    var p := w.nextId;
    var r := RegisterRead(NewChild(w, id, fd, pid), fd, Script(p), registersScript);
    if r.1 then r.0
    else Respond(Undescribe(Kill(r.0, pid), p), p, ErrorPage, registers)
  }

  function ClientOnWrite(w: World, id: nat, o: Outcome): World {
    if id !in w.sessions then Fault(w)
    else match o.clientWrite
      case SendFailed => Close(w, id)
      case MoreToSend => w
      case AllSent(close) => ResponseSentCleanup(w, id, close)
  }

  function ResponseSentCleanup(w: World, id: nat, close: bool): World {
    if id !in w.sessions then Fault(w)
    else
      var s := w.sessions[id];
      var w1 := DeleteWrite(w, s.fd);
      var w2 := if s.proc.Some? then DestroyProc(w1, s.proc.value) else w1;
      SetSession(w2, id, s.(busy := false, proc := None, sent := s.sent + 1, closed := s.closed || close))
  }

  function DestroySession(w: World, id: nat): World {
    if id !in w.sessions then Fault(w)
    else
      var s := w.sessions[id];
      var w1 := DeleteBoth(w, s.fd);
      var w2 := if s.proc.Some? then DestroyProc(w1, s.proc.value) else w1;
      w2.(fds := w2.fds - {s.fd}, interest := w2.interest - {s.fd},
          sessions := w2.sessions - {id}, clients := w2.clients - {s.fd})
  }

  // ----- CGIProcessor

  function Kill(w: World, pid: int): World { w.(children := w.children - {pid}) }

  function SetProc(w: World, p: nat, x: Proc): World { w.(procs := w.procs[p := x]) }

  function Undescribe(w: World, p: nat): World {
    if p !in w.procs then Fault(w) else SetProc(w, p, w.procs[p].(described := false))
  }

  function DestroyProc(w: World, p: nat): World {
    if p !in w.procs then Fault(w)
    else
      var x := w.procs[p];
      var w1 := if x.described then Kill(DeleteBoth(w, x.fd), x.pid) else w;
      w1.(fds := w1.fds - {x.fd}, interest := w1.interest - {x.fd}, procs := w1.procs - {p})
  }

  function AnswersOf(w: World, p: nat): seq<Answer> { if p in w.answers then w.answers[p] else [] }

  // The response callback.
  function Respond(w: World, p: nat, a: Answer, registers: bool): World {
    if p !in w.procs then Fault(w)
    else PrepareResponse(w.(answers := w.answers[p := AnswersOf(w, p) + [a]]), w.procs[p].owner, registers)
  }

  function ProceedIfReady(w: World, p: nat, parses: bool, registers: bool): World {
    if p !in w.procs then Fault(w)
    else
      var x := w.procs[p];
      if !(x.outputRead && x.exited) then w
      else Respond(Undescribe(w, p), p, if parses then FromScript(Concat(x.chunks)) else ErrorPage, registers)
  }

  function ScriptOnRead(w: World, p: nat, o: Outcome): World {
    if p !in w.procs || !w.procs[p].described then Fault(w)
    else
      var x := w.procs[p];
      match o.scriptRead
      case ReadFailed => Respond(Undescribe(Kill(DeleteBoth(w, x.fd), x.pid), p), p, ErrorPage, o.registers)
      case Output(data) => SetProc(w, p, x.(chunks := x.chunks + [data]))
      case EndOfOutput =>
        ProceedIfReady(SetProc(DeleteBoth(w, x.fd), p, x.(outputRead := true)), p, o.parses, o.registers)
  }

  /** ChildProcessDoneCb. */
  function ScriptOnExit(w: World, p: nat, e: Exit): World {
    if p !in w.procs || !w.procs[p].described then Fault(w)
    else
      var x := w.procs[p];
      if !e.success then Respond(Undescribe(DeleteBoth(w, x.fd), p), p, ErrorPage, e.registers)
      else ProceedIfReady(SetProc(w, p, x.(exited := true)), p, e.parses, e.registers)
  }

  // ----- ServerCluster

  function NewClient(w: World, fd: int): World {
    var id := w.nextId;
    w.(nextId := id + 1, fds := w.fds[fd := Client(id)],
       sessions := w.sessions[id := Session(fd, false, false, None, 0, 0)],
       fault := w.fault || fd in w.clients, clients := w.clients[fd := id])
  }

  function Accept(w: World, o: Outcome): World {
    if o.accepted.None? || o.accepted.value in w.fds then w
    else
      var r := RegisterRead(NewClient(w, o.accepted.value), o.accepted.value, Client(w.nextId), o.registers);
      if r.1 then r.0 else Close(r.0, w.nextId)
  }

  // ----- the four phases

  function Dispatch(w: World, e: Event): World {
    if e.kind == Read then
      if e.fd !in w.rd then w
      else match w.rd[e.fd]
        case Listener => Accept(w, e.outcome)
        case Client(id) => ClientOnRead(w, id, e.outcome)
        case Script(p) => ScriptOnRead(w, p, e.outcome)
    else
      if e.fd !in w.wr then w
      else match w.wr[e.fd]
        case Client(id) => ClientOnWrite(w, id, e.outcome)
        case _ => Fault(w)
  }

  function DispatchAll(w: World, ready: seq<Event>): World
    decreases |ready|
  {
    if ready == [] then w else DispatchAll(Dispatch(w, ready[0]), ready[1..])
  }

  /** A child whose exit was collected: its callback, then its entry goes. */
  function Reap(w: World, e: Exit): World {
    if e.pid !in w.children then w else Kill(ScriptOnExit(w, w.children[e.pid], e), e.pid)
  }

  function ReapAll(w: World, exits: seq<Exit>): World
    decreases |exits|
  {
    if exits == [] then w else ReapAll(Reap(w, exits[0]), exits[1..])
  }

  /** One client in CheckClients_: a closed one is destroyed, an idle one is
      closed and stays for another round. */
  function Sweep(w: World, fd: int, idle: set<int>): World {
    if fd !in w.clients then w
    else
      var id := w.clients[fd];
      if id !in w.sessions then Fault(w)
      else if w.sessions[id].closed then DestroySession(w, id)
      else if fd in idle then Close(w, id) else w
  }

  function SweepAll(w: World, fds: seq<int>, idle: set<int>): World
    decreases |fds|
  {
    if fds == [] then w else SweepAll(Sweep(w, fds[0], idle), fds[1..], idle)
  }

  // One round: what was ready, which children had exited, which clients were
  // visited and which of them were idle.
  datatype Round = Round(ready: seq<Event>, exits: seq<Exit>, visited: seq<int>, idle: set<int>)

  function DoRound(w: World, r: Round): World {
    SweepAll(ReapAll(DispatchAll(Flush(w), r.ready), r.exits), r.visited, r.idle)
  }

  /** What a multiplexer may hand out: each event once, only for callbacks that
      were registered when it waited, and for one descriptor the read first. */
  predicate Registered(w: World, e: Event) { if e.kind == Read then e.fd in w.rd else e.fd in w.wr }

  predicate SameSlot(a: Event, b: Event) { a.fd == b.fd && a.kind == b.kind }

  predicate MayFollow(e: Event, later: Event) {
    !SameSlot(e, later) && !(e.fd == later.fd && e.kind == Write && later.kind == Read)
  }

  predicate InOrder(ready: seq<Event>) {
    forall i, j :: 0 <= i < j < |ready| ==> MayFollow(ready[i], ready[j])
  }

  predicate Ready(w: World, ready: seq<Event>) {
    InOrder(ready) && forall i :: 0 <= i < |ready| ==> Registered(w, ready[i])
  }

  // Start: listeners are open and registered.
  function Initial(listeners: set<int>): World {
    var m := map f | f in listeners :: Listener;
    World(m, map[], {}, {}, m, map[], map[], map[], map[], map[], 0, false, map f | f in listeners :: {Read})
  }

  predicate PossibleRun(w: World, rounds: seq<Round>)
    decreases |rounds|
  {
    rounds == [] || (Ready(Flush(w), rounds[0].ready) && PossibleRun(DoRound(w, rounds[0]), rounds[1..]))
  }

  function RunLoop(w: World, rounds: seq<Round>): World
    decreases |rounds|
  {
    if rounds == [] then w else RunLoop(DoRound(w, rounds[0]), rounds[1..])
  }
}
