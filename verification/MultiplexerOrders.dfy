/** The order in which each multiplexer hands out what is ready. */
module MultiplexerOrders {
  import opened LoopSpec
  import opened LoopBackends

  type Outcomes = (int, Kind) -> Outcome

  function ReadEvent(fd: int, outcomes: Outcomes): Event { Event(fd, Read, outcomes(fd, Read)) }

  function WriteEvent(fd: int, outcomes: Outcomes): Event { Event(fd, Write, outcomes(fd, Write)) }

  // The events of one descriptor, the read first.
  function Slot(fd: int, read: bool, write: bool, outcomes: Outcomes): seq<Event> {
    (if read then [ReadEvent(fd, outcomes)] else []) + (if write then [WriteEvent(fd, outcomes)] else [])
  }

  /** select: descriptors 0 to `maxFd`. */
  function SelectOrder(readable: set<int>, writable: set<int>, maxFd: int, outcomes: Outcomes): seq<Event>
    decreases maxFd + 1
  {
    if maxFd < 0 then []
    else
      SelectOrder(readable, writable, maxFd - 1, outcomes)
      + Slot(maxFd, maxFd in readable, maxFd in writable, outcomes)
  }

  function ReadEvents(fds: seq<int>, outcomes: Outcomes): seq<Event> {
    seq(|fds|, i requires 0 <= i < |fds| => ReadEvent(fds[i], outcomes))
  }

  function WriteEvents(fds: seq<int>, outcomes: Outcomes): seq<Event> {
    seq(|fds|, i requires 0 <= i < |fds| => WriteEvent(fds[i], outcomes))
  }

  /** poll: all that is readable, then all that is writable. */
  function PollOrder(readable: seq<int>, writable: seq<int>, outcomes: Outcomes): seq<Event> {
    ReadEvents(readable, outcomes) + WriteEvents(writable, outcomes)
  }

  // One epoll_event.
  datatype Reported = Reported(fd: int, kinds: set<Kind>)

  /** epoll: the reported descriptors in the kernel's order. */
  function EpollOrder(reported: seq<Reported>, outcomes: Outcomes): seq<Event> {
    if reported == [] then []
    else
      var n := |reported| - 1;
      var r := reported[n];
      EpollOrder(reported[..n], outcomes) + Slot(r.fd, Read in r.kinds, Write in r.kinds, outcomes)
  }

  predicate Distinct(fds: seq<int>) { forall i, j :: 0 <= i < j < |fds| ==> fds[i] != fds[j] }

  predicate DistinctReported(reported: seq<Reported>) {
    forall i, j :: 0 <= i < j < |reported| ==> reported[i].fd != reported[j].fd
  }

  // ----- each of them is in order

  lemma ConcatInOrder(a: seq<Event>, b: seq<Event>)
    requires InOrder(a) && InOrder(b)
    requires forall i, j :: 0 <= i < |a| && 0 <= j < |b| ==> MayFollow(a[i], b[j])
    ensures InOrder(a + b)
  {
    var s := a + b;
    forall i, j | 0 <= i < j < |s| ensures MayFollow(s[i], s[j]) {
      assert s[i] == if i < |a| then a[i] else b[i - |a|];
      assert s[j] == if j < |a| then a[j] else b[j - |a|];
    }
  }

  predicate EventWithin(e: Event, readable: set<int>, writable: set<int>, maxFd: int) {
    0 <= e.fd <= maxFd && if e.kind == Read then e.fd in readable else e.fd in writable
  }

  predicate EventsWithin(s: seq<Event>, readable: set<int>, writable: set<int>, maxFd: int) {
    forall i :: 0 <= i < |s| ==> EventWithin(s[i], readable, writable, maxFd)
  }

  lemma SlotInOrder(readable: set<int>, writable: set<int>, fd: nat, outcomes: Outcomes)
    ensures var s := Slot(fd, fd in readable, fd in writable, outcomes);
            InOrder(s) && EventsWithin(s, readable, writable, fd) && forall i :: 0 <= i < |s| ==> s[i].fd == fd
  {
  }

  lemma {:induction false} SelectInOrder(readable: set<int>, writable: set<int>, maxFd: int, outcomes: Outcomes)
    ensures var s := SelectOrder(readable, writable, maxFd, outcomes);
            InOrder(s) && EventsWithin(s, readable, writable, maxFd)
    decreases maxFd + 1
  {
    if maxFd >= 0 {
      SelectInOrder(readable, writable, maxFd - 1, outcomes);
      SlotInOrder(readable, writable, maxFd, outcomes);
      var a := SelectOrder(readable, writable, maxFd - 1, outcomes);
      var b := Slot(maxFd, maxFd in readable, maxFd in writable, outcomes);
      hide Slot;
      ConcatInOrder(a, b);
      hide InOrder;
      var s := a + b;
      forall i | 0 <= i < |s| ensures EventWithin(s[i], readable, writable, maxFd) {
        assert s[i] == if i < |a| then a[i] else b[i - |a|];
      }
    }
  }

  lemma PollInOrder(readable: seq<int>, writable: seq<int>, outcomes: Outcomes)
    requires Distinct(readable) && Distinct(writable)
    ensures InOrder(PollOrder(readable, writable, outcomes))
  {
    ConcatInOrder(ReadEvents(readable, outcomes), WriteEvents(writable, outcomes));
  }

  predicate IsReported(reported: seq<Reported>, e: Event) {
    exists k :: 0 <= k < |reported| && reported[k].fd == e.fd && e.kind in reported[k].kinds
  }

  lemma {:induction false} EpollInOrder(reported: seq<Reported>, outcomes: Outcomes)
    requires DistinctReported(reported)
    ensures var s := EpollOrder(reported, outcomes);
            && InOrder(s)
            && forall i :: 0 <= i < |s| ==> IsReported(reported, s[i])
  {
    if reported != [] {
      var n := |reported| - 1;
      var r := reported[n];
      EpollInOrder(reported[..n], outcomes);
      var a := EpollOrder(reported[..n], outcomes);
      var b := Slot(r.fd, Read in r.kinds, Write in r.kinds, outcomes);
      forall i, j | 0 <= i < |a| && 0 <= j < |b| ensures MayFollow(a[i], b[j]) {
        assert IsReported(reported[..n], a[i]);
        var k :| 0 <= k < n && reported[..n][k].fd == a[i].fd;
        assert reported[k].fd != r.fd;
      }
      ConcatInOrder(a, b);
      var s := a + b;
      forall i | 0 <= i < |s| ensures IsReported(reported, s[i]) {
        if i < |a| {
          assert IsReported(reported[..n], a[i]);
          var k :| 0 <= k < n && reported[..n][k].fd == a[i].fd && a[i].kind in reported[..n][k].kinds;
          assert reported[k].fd == s[i].fd && s[i].kind in reported[k].kinds;
        } else {
          assert reported[n].fd == s[i].fd && s[i].kind in reported[n].kinds;
        }
      }
    }
  }

  // ----- and of registered callbacks only

  /** What select and poll hand out after a wait is what the runs of the loop
      assume of a multiplexer. */
  lemma SelectIsReady(w: World, readable: set<int>, writable: set<int>, maxFd: int, outcomes: Outcomes)
    requires readable <= w.rd.Keys && writable <= w.wr.Keys
    ensures Ready(w, SelectOrder(readable, writable, maxFd, outcomes))
  {
    SelectInOrder(readable, writable, maxFd, outcomes);
  }

  lemma PollIsReady(w: World, readable: seq<int>, writable: seq<int>, outcomes: Outcomes)
    requires Distinct(readable) && Distinct(writable)
    requires forall i :: 0 <= i < |readable| ==> readable[i] in w.rd
    requires forall i :: 0 <= i < |writable| ==> writable[i] in w.wr
    ensures Ready(w, PollOrder(readable, writable, outcomes))
  {
    PollInOrder(readable, writable, outcomes);
  }

  /** And what epoll hands out is what the runs over epoll assume. */
  lemma EpollIsReady(w: World, reported: seq<Reported>, outcomes: Outcomes)
    requires DistinctReported(reported)
    requires forall k :: 0 <= k < |reported| ==>
               reported[k].fd in w.interest && reported[k].kinds <= w.interest[reported[k].fd]
    ensures EpollReady(w, EpollOrder(reported, outcomes))
  {
    EpollInOrder(reported, outcomes);
  }

  // ----- one wait, one turn of the loop

  /** What a multiplexer's wait came back with, and how the calls go. */
  datatype Wait =
    | SelectWait(readable: set<int>, writable: set<int>, maxFd: nat, outcomes: Outcomes)
    | PollWait(toRead: seq<int>, toWrite: seq<int>, outcomes: Outcomes)
    | EpollWait(reported: seq<Reported>, outcomes: Outcomes)

  function HandedOut(wait: Wait): seq<Event> {
    match wait
    case SelectWait(readable, writable, maxFd, outcomes) => SelectOrder(readable, writable, maxFd, outcomes)
    case PollWait(toRead, toWrite, outcomes) => PollOrder(toRead, toWrite, outcomes)
    case EpollWait(reported, outcomes) => EpollOrder(reported, outcomes)
  }

  /** What a wait may come back with: for select and poll what is registered,
      for epoll what the kernel watches, each descriptor once. */
  predicate MayReport(w: World, wait: Wait) {
    match wait
    case SelectWait(readable, writable, _, _) => readable <= w.rd.Keys && writable <= w.wr.Keys
    case PollWait(toRead, toWrite, _) =>
      && Distinct(toRead) && Distinct(toWrite)
      && (forall i :: 0 <= i < |toRead| ==> toRead[i] in w.rd)
      && (forall i :: 0 <= i < |toWrite| ==> toWrite[i] in w.wr)
    case EpollWait(reported, _) =>
      && DistinctReported(reported)
      && forall k :: 0 <= k < |reported| ==>
           reported[k].fd in w.interest && reported[k].kinds <= w.interest[reported[k].fd]
  }

  datatype Turn = Turn(wait: Wait, exits: seq<Exit>, visited: seq<int>, idle: set<int>)

  function RoundOf(t: Turn): Round { Round(HandedOut(t.wait), t.exits, t.visited, t.idle) }

  function RoundsOf(turns: seq<Turn>): (r: seq<Round>)
    ensures |r| == |turns| && forall i :: 0 <= i < |turns| ==> r[i] == RoundOf(turns[i])
  {
    seq(|turns|, i requires 0 <= i < |turns| => RoundOf(turns[i]))
  }
}
