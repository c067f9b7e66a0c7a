/** Sending a response: the serialized head, then the body file in chunks, in
    as many partial sends as the socket takes. */
module Delivery {
  import opened Octets
  import opened NumericUtils

  const SEND_FILE_BUF: nat := 8192

  // SendPackage
  datatype Package = Package(buf: Bytes, sent: nat)
  {
    predicate AllDataSent() { sent == |buf| }
  }

  // SendFilePackage: the chunk and the file stream's position and end-of-file flag.
  datatype FilePackage = FilePackage(content: Bytes, pos: nat, eof: bool, chunk: Package)
  {
    predicate AllDataSent() { eof && chunk.AllDataSent() }
  }

  // OnReadyToSendToClientCb; `out` is what the socket took so far.
  datatype Sending = Sending(head: Package, file: Option<FilePackage>, out: Bytes)

  datatype SendStatus = SendOk | SendError

  datatype CallResult = Failed | More | Finished

  /** One send of what is left of a package; the socket takes at most `room`
      bytes, and none at all is an error or a closed connection. */
  function Send(p: Package, room: int): (r: (Package, SendStatus, Bytes))
    requires p.sent <= |p.buf|
  {
    if p.AllDataSent() then (p, SendOk, [])
    else if room <= 0 then (p, SendError, [])
    else
      var n := Min(room, |p.buf| - p.sent);
      (p.(sent := p.sent + n), SendOk, p.buf[p.sent..p.sent + n])
  }

  /** PrepareNextChunk: a read that comes up short sets end-of-file. */
  function NextChunk(f: FilePackage): FilePackage
    requires f.pos <= |f.content|
  {
    if !f.chunk.AllDataSent() then f
    else if f.eof then f.(chunk := Package([], 0))
    else
      var n := Min(SEND_FILE_BUF, |f.content| - f.pos);
      f.(pos := f.pos + n, eof := n < SEND_FILE_BUF, chunk := Package(f.content[f.pos..f.pos + n], 0))
  }

  predicate FileOk(f: FilePackage) {
    && f.pos <= |f.content| && f.chunk.sent <= |f.chunk.buf| <= f.pos
    && f.chunk.buf == f.content[f.pos - |f.chunk.buf|..f.pos]
    && (f.eof ==> f.pos == |f.content|)
    && (!f.eof ==> f.pos % SEND_FILE_BUF == 0)
    && (f.pos % SEND_FILE_BUF != 0 ==> f.eof)
  }

  function FileSent(f: FilePackage): nat
    requires FileOk(f)
  {
    f.pos - |f.chunk.buf| + f.chunk.sent
  }

  function SendFile(f: FilePackage, room: int): (r: (FilePackage, SendStatus, Bytes))
    requires FileOk(f)
  {
    if f.AllDataSent() then (f, SendOk, [])
    else
      var g := NextChunk(f);
      var s := Send(g.chunk, room);
      (g.(chunk := s.0), s.1, s.2)
  }

  function Total(s: Sending): Bytes { s.head.buf + if s.file.Some? then s.file.value.content else [] }

  /** What was taken is the part of the response counted as sent. */
  predicate Valid(s: Sending) {
    && s.head.sent <= |s.head.buf|
    && (s.file.Some? ==> FileOk(s.file.value))
    && if s.head.AllDataSent() then
         s.out == s.head.buf + if s.file.Some? then s.file.value.content[..FileSent(s.file.value)] else []
       else s.out == s.head.buf[..s.head.sent] && (s.file.Some? ==> FileSent(s.file.value) == 0)
  }

  function Start(head: Bytes, file: Option<Bytes>): (s: Sending)
    ensures Valid(s) && s.out == []
  {
    Sending(Package(head, 0), if file.Some? then Some(FilePackage(file.value, 0, false, Package([], 0))) else None, [])
  }

  predicate Done(s: Sending) { s.head.AllDataSent() && (s.file.Some? ==> s.file.value.AllDataSent()) }

  function AfterHead(s: Sending, room: int): (Sending, CallResult)
    requires Valid(s) && s.head.AllDataSent()
  {
    if s.file.None? || s.file.value.AllDataSent() then (s, Finished)
    else
      var r := SendFile(s.file.value, room);
      var t := s.(file := Some(r.0), out := s.out + r.2);
      if r.1 == SendError then (t, Failed) else if r.0.AllDataSent() then (t, Finished) else (t, More)
  }

  /** One call of the write callback, with what the socket takes of the head
      and then of the file. */
  function OnCall(s: Sending, room: int, fileRoom: int): (Sending, CallResult)
    requires Valid(s)
  {
    if s.head.AllDataSent() then AfterHead(s, fileRoom)
    else
      var r := Send(s.head, room);
      var t := s.(head := r.0, out := s.out + r.2);
      if r.1 == SendError then (t, Failed)
      else if !t.head.AllDataSent() then (t, More)
      else
        HeadSent(s, room);
        AfterHead(t, fileRoom)
  }

  lemma SendsNext(p: Package, room: int)
    requires p.sent <= |p.buf|
    ensures var r := Send(p, room);
            && r.0.buf == p.buf && p.sent <= r.0.sent <= |p.buf|
            && p.buf[..p.sent] + r.2 == p.buf[..r.0.sent]
  {
    var r := Send(p, room);
    SliceAfter(p.buf, p.sent, r.0.sent);
  }

  lemma HeadSent(s: Sending, room: int)
    requires Valid(s) && !s.head.AllDataSent()
    ensures var r := Send(s.head, room); Valid(s.(head := r.0, out := s.out + r.2))
  {
    SendsNext(s.head, room);
    var r := Send(s.head, room);
    hide Send;
    hide FileOk;
    hide FileSent;
    if r.0.AllDataSent() {
      assert s.head.buf[..r.0.sent] == s.head.buf == s.head.buf + [];
      assert s.file.Some? ==> s.file.value.content[..0] == [];
    }
  }

  // ----- one call

  lemma NextChunkOk(f: FilePackage)
    requires FileOk(f)
    ensures FileOk(NextChunk(f)) && NextChunk(f).content == f.content && FileSent(NextChunk(f)) == FileSent(f)
    ensures NextChunk(f).chunk.AllDataSent() ==> NextChunk(f).eof && NextChunk(f).pos == |f.content|
  {
  }

  lemma SendFileOk(f: FilePackage, room: int)
    requires FileOk(f) && !f.AllDataSent()
    ensures var r := SendFile(f, room);
            && FileOk(r.0) && r.0.content == f.content
            && f.content[..FileSent(f)] + r.2 == f.content[..FileSent(r.0)]
            && (r.1 == SendError ==> r.2 == [])
  {
    NextChunkOk(f);
    var g := NextChunk(f);
    hide NextChunk;
    SendChunkOk(g, room);
    SliceAfter(f.content, FileSent(g), FileSent(SendFile(f, room).0));
    hide Send;
  }

  lemma SendChunkOk(g: FilePackage, room: int)
    requires FileOk(g)
    ensures var r := Send(g.chunk, room);
            && var h := g.(chunk := r.0);
            FileOk(h) && FileSent(g) <= FileSent(h) && r.2 == g.content[FileSent(g)..FileSent(h)]
            && (r.1 == SendError ==> r.2 == [])
  {
    var r := Send(g.chunk, room);
    SliceOfSlice(g.content, g.pos - |g.chunk.buf|, g.pos, g.chunk.sent, r.0.sent);
  }

  lemma SliceOfSlice(c: Bytes, lo: nat, hi: nat, a: nat, b: nat)
    requires lo <= hi <= |c| && a <= b <= hi - lo
    ensures c[lo..hi][a..b] == c[lo + a..lo + b]
  {
    var inner := c[lo..hi];
    forall i | 0 <= i < b - a ensures inner[a..b][i] == c[lo + a..lo + b][i] {
      assert inner[a + i] == c[lo + a + i];
    }
  }

  lemma SliceAfter(c: Bytes, a: nat, b: nat)
    requires a <= b <= |c|
    ensures c[..a] + c[a..b] == c[..b]
  {
  }

  lemma AfterHeadKeeps(s: Sending, room: int)
    requires Valid(s) && s.head.AllDataSent()
    ensures var r := AfterHead(s, room);
            && Valid(r.0) && Total(r.0) == Total(s) && s.out <= r.0.out
            && (r.1 == Finished <==> r.1 != Failed && Done(r.0))
  {
    if s.file.Some? && !s.file.value.AllDataSent() {
      SendFileOk(s.file.value, room);
      var r := SendFile(s.file.value, room);
      Assoc(s.head.buf, s.file.value.content[..FileSent(s.file.value)], r.2);
    }
  }

  /** Every call leaves what was sent a prefix of the response, only adds to
      it, and asks for the cleanup exactly when nothing is left to send. */
  lemma CallKeeps(s: Sending, room: int, fileRoom: int)
    requires Valid(s)
    ensures var r := OnCall(s, room, fileRoom);
            && Valid(r.0) && Total(r.0) == Total(s)
            && s.out <= r.0.out && r.0.out <= Total(s)
            && (r.1 == Finished <==> r.1 != Failed && Done(r.0))
  {
    if s.head.AllDataSent() {
      AfterHeadKeeps(s, fileRoom);
    } else {
      HeadSent(s, room);
      var h := Send(s.head, room);
      var t := s.(head := h.0, out := s.out + h.2);
      if h.1 != SendError && t.head.AllDataSent() {
        AfterHeadKeeps(t, fileRoom);
      }
    }
    SentIsPrefix(OnCall(s, room, fileRoom).0);
  }

  lemma SentIsPrefix(s: Sending)
    requires Valid(s)
    ensures s.out <= Total(s)
  {
    if s.head.AllDataSent() && s.file.Some? {
      var c := s.file.value.content;
      assert s.head.buf + c == (s.head.buf + c[..FileSent(s.file.value)]) + c[FileSent(s.file.value)..];
    } else if !s.head.AllDataSent() {
      assert Total(s) == s.head.buf[..s.head.sent] + Total(s)[s.head.sent..];
    }
  }

  /** Nothing is left to send exactly when the whole response was sent and, for
      a file, its end was seen. */
  lemma DoneIsComplete(s: Sending)
    requires Valid(s)
    ensures Done(s) <==> s.out == Total(s) && s.head.AllDataSent() && (s.file.Some? ==> s.file.value.eof)
  {
    if s.head.AllDataSent() && s.file.Some? {
      var f := s.file.value;
      assert f.content[..|f.content|] == f.content;
      if s.out == Total(s) {
        assert |s.out| == |s.head.buf| + FileSent(f);
      }
    }
  }

  /** The one delay: when the last bytes of a non-empty file whose size is a
      multiple of the chunk size have gone, its end was not seen yet, and the
      next call asks for the cleanup without sending anything. */
  lemma CleanupDelay(s: Sending, room: int, fileRoom: int)
    requires Valid(s) && s.out == Total(s) && s.head.AllDataSent() && !Done(s)
    ensures s.file.Some? && |s.file.value.content| % SEND_FILE_BUF == 0
    ensures OnCall(s, room, fileRoom).1 == Finished && OnCall(s, room, fileRoom).0.out == s.out
  {
    DoneIsComplete(s);
    var f := s.file.value;
    assert |s.out| == |s.head.buf| + FileSent(f);
    assert f.pos == |f.content| && f.chunk.AllDataSent();
    assert s.out + [] == s.out;
  }

  // ----- whole deliveries

  // Bytes still to send, and one for the end of the file.
  function Left(s: Sending): nat
    requires Valid(s)
  {
    SentIsPrefix(s);
    |Total(s)| - |s.out| + if s.file.Some? && !s.file.value.eof then 1 else 0
  }

  lemma HeadProgress(s: Sending, room: int)
    requires Valid(s) && !s.head.AllDataSent() && room > 0
    ensures var h := Send(s.head, room);
            var u := s.(head := h.0, out := s.out + h.2);
            Valid(u) && Total(u) == Total(s) && Left(u) < Left(s)
  {
    HeadSent(s, room);
    assert |Send(s.head, room).2| > 0;
  }

  /** A call that asks for more has made progress. */
  lemma CallProgress(s: Sending, room: int, fileRoom: int)
    requires Valid(s) && OnCall(s, room, fileRoom).1 == More
    ensures Valid(OnCall(s, room, fileRoom).0) && Left(OnCall(s, room, fileRoom).0) < Left(s)
  {
    if s.head.AllDataSent() {
      FileProgress(s, fileRoom);
    } else {
      assert room > 0;
      HeadProgress(s, room);
      hide Valid;
      hide Left;
      var h := Send(s.head, room);
      var u := s.(head := h.0, out := s.out + h.2);
      if u.head.AllDataSent() {
        assert OnCall(s, room, fileRoom) == AfterHead(u, fileRoom);
        hide OnCall;
        FileProgress(u, fileRoom);
      }
    }
  }

  lemma FileProgress(s: Sending, room: int)
    requires Valid(s) && s.head.AllDataSent() && AfterHead(s, room).1 == More
    ensures Valid(AfterHead(s, room).0) && Left(AfterHead(s, room).0) < Left(s)
  {
    AfterHeadKeeps(s, room);
    var f := s.file.value;
    NextChunkOk(f);
    var g := NextChunk(f);
    var r := SendFile(f, room);
    assert !g.chunk.AllDataSent() && |r.2| > 0;
    assert f.eof ==> g.eof;
  }

  /** The calls of a delivery: what the socket takes in each. */
  function Deliver(s: Sending, rooms: seq<(int, int)>): (r: (Sending, CallResult))
    requires Valid(s)
    decreases |rooms|
  {
    if rooms == [] then (s, More)
    else
      CallKeeps(s, rooms[0].0, rooms[0].1);
      var r := OnCall(s, rooms[0].0, rooms[0].1);
      if r.1 == More then Deliver(r.0, rooms[1..]) else r
  }

  /** Response delivery. Under every schedule of partial sends the bytes sent
      are a prefix of the head followed by the file, and they are all of it when
      the cleanup is asked for; as long as the socket takes something each time,
      one more call than there are bytes is always enough. */
  lemma {:induction false} DeliveryCorrect(s: Sending, rooms: seq<(int, int)>)
    requires Valid(s)
    ensures var r := Deliver(s, rooms);
            && Valid(r.0) && Total(r.0) == Total(s) && r.0.out <= Total(s)
            && (r.1 == Finished ==> r.0.out == Total(s))
            && ((forall i :: 0 <= i < |rooms| ==> rooms[i].0 > 0 && rooms[i].1 > 0) && |rooms| > Left(s)
                ==> r.1 == Finished)
    decreases |rooms|
  {
    SentIsPrefix(s);
    if rooms != [] {
      var a, b := rooms[0].0, rooms[0].1;
      CallKeeps(s, a, b);
      var c := OnCall(s, a, b);
      DoneIsComplete(c.0);
      if c.1 == More {
        CallProgress(s, a, b);
        DeliveryCorrect(c.0, rooms[1..]);
        assert forall i :: 0 <= i < |rooms| - 1 ==> rooms[1..][i] == rooms[i + 1];
      } else if a > 0 && b > 0 {
        TakenNeverFails(s, a, b);
      }
    }
  }

  lemma TakenNeverFails(s: Sending, room: int, fileRoom: int)
    requires Valid(s) && room > 0 && fileRoom > 0
    ensures OnCall(s, room, fileRoom).1 != Failed
  {
  }
}
