/** The objects that send a response: packages whose counters a socket moves
    on, and the write callback that drives them. */
module ResponseSending {
  import opened Octets
  import opened NumericUtils
  import opened Delivery

  class SendPackage {
    var buf: Bytes
    var bytesSent: nat

    ghost function Value(): Package
      reads this
    {
      Package(buf, bytesSent)
    }

    constructor (content: Bytes)
      ensures Value() == Package(content, 0)
    {
      buf, bytesSent := content, 0;
    }

    predicate AllDataSent()
      reads this
    {
      |buf| == bytesSent
    }
  }

  class SendFilePackage {
    const content: Bytes
    var pos: nat
    var eof: bool
    const chunk: SendPackage

    ghost function Value(): FilePackage
      reads this, chunk
    {
      FilePackage(content, pos, eof, chunk.Value())
    }

    constructor (content: Bytes)
      ensures Value() == FilePackage(content, 0, false, Package([], 0)) && fresh(chunk)
    {
      this.content := content;
      pos, eof := 0, false;
      chunk := new SendPackage([]);
    }

    predicate AllDataSent()
      reads this, chunk
    {
      eof && chunk.AllDataSent()
    }

    method PrepareNextChunk()
      requires pos <= |content|
      modifies this, chunk
      ensures Value() == NextChunk(old(Value()))
    {
      if !chunk.AllDataSent() {
        return;
      }
      if eof {
        chunk.buf, chunk.bytesSent := [], 0;
        return;
      }
      var n := Min(SEND_FILE_BUF, |content| - pos);
      chunk.buf, chunk.bytesSent := content[pos..pos + n], 0;
      pos, eof := pos + n, n < SEND_FILE_BUF;
    }
  }

  class ClientSocket {
    var taken: Bytes

    constructor ()
      ensures taken == []
    {
      taken := [];
    }

    /** `room` is what the kernel takes at most in this call. */
    method Send(pack: SendPackage, room: int) returns (status: SendStatus)
      requires pack.bytesSent <= |pack.buf|
      modifies this, pack`bytesSent
      ensures var r := Delivery.Send(old(pack.Value()), room);
              pack.Value() == r.0 && status == r.1 && taken == old(taken) + r.2
    {
      assert taken + [] == taken;
      if pack.AllDataSent() {
        return SendOk;
      }
      if room <= 0 {
        return SendError;
      }
      var n := Min(room, |pack.buf| - pack.bytesSent);
      taken := taken + pack.buf[pack.bytesSent..pack.bytesSent + n];
      pack.bytesSent := pack.bytesSent + n;
      return SendOk;
    }

    method SendFile(pack: SendFilePackage, room: int) returns (status: SendStatus)
      requires FileOk(pack.Value())
      modifies this, pack, pack.chunk
      ensures var r := Delivery.SendFile(old(pack.Value()), room);
              pack.Value() == r.0 && status == r.1 && taken == old(taken) + r.2
    {
      assert taken + [] == taken;
      if pack.AllDataSent() {
        return SendOk;
      }
      pack.PrepareNextChunk();
      status := Send(pack.chunk, room);
    }
  }

  class OnReadyToSendToClient {
    const socket: ClientSocket
    const pack: SendPackage
    const filePack: SendFilePackage?

    ghost predicate Separate()
    {
      filePack != null ==> filePack.chunk != pack
    }

    ghost function Value(): Sending
      reads socket, pack, filePack, if filePack == null then {} else {filePack.chunk}
    {
      Sending(pack.Value(), if filePack == null then None else Some(filePack.Value()), socket.taken)
    }

    // `file` is what the body file holds, when there is one and it opens.
    constructor (socket: ClientSocket, head: Bytes, file: Option<Bytes>)
      requires socket.taken == []
      ensures Separate() && Value() == Start(head, file)
    {
      this.socket := socket;
      var p := new SendPackage(head);
      pack := p;
      if file.Some? {
        var f := new SendFilePackage(file.value);
        filePack := f;
      } else {
        filePack := null;
      }
    }

    method Call(room: int, fileRoom: int) returns (result: CallResult)
      requires Separate() && Valid(Value())
      modifies socket, pack, filePack, if filePack == null then {} else {filePack.chunk}
      ensures (Value(), result) == OnCall(old(Value()), room, fileRoom)
    {
      if !pack.AllDataSent() {
        HeadSent(Value(), room);
        var status := socket.Send(pack, room);
        if status != SendOk {
          return Failed;
        }
        if !pack.AllDataSent() {
          return More;
        }
      }
      if filePack != null && !filePack.AllDataSent() {
        var status := socket.SendFile(filePack, fileRoom);
        if status != SendOk {
          return Failed;
        }
        if !filePack.AllDataSent() {
          return More;
        }
      }
      return Finished;
    }
  }
}
