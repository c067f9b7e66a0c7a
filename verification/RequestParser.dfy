/** http::RequestParser: the receive buffer and its scan cursor. */
module RequestParser {
  import opened Octets

  class RequestParser {
    var buf: Bytes
    var elementEndIdx: nat

    constructor ()
      ensures buf == [] && elementEndIdx == 0
    {
      buf, elementEndIdx := [], 0;
    }

    method AddNewData(data: Bytes)
      modifies `buf
      ensures buf == old(buf) + data
    {
      buf := buf + data;
    }

    method Advance(n: nat)
      modifies `elementEndIdx
      ensures elementEndIdx == old(elementEndIdx) + n
    {
      elementEndIdx := elementEndIdx + n;
    }

    function Peek(): Byte
      reads this
    {
      if elementEndIdx >= |buf| then '\0' else buf[elementEndIdx]
    }

    function ElementLen(): nat
      reads this
    {
      elementEndIdx + 1
    }

    function RemainingLength(): int
      reads this
    {
      |buf| - elementEndIdx
    }

    predicate EndOfBuffer()
      reads this
    {
      elementEndIdx >= |buf|
    }

    predicate EndsWithCRLF()
      requires elementEndIdx < |buf|
      reads this
    {
      elementEndIdx >= 1 && buf[elementEndIdx - 1] == '\r' && buf[elementEndIdx] == '\n'
    }

    predicate FoundSingleCR()
      requires elementEndIdx < |buf|
      reads this
    {
      elementEndIdx >= 1 && buf[elementEndIdx - 1] == '\r' && buf[elementEndIdx] != '\n'
    }

    predicate BeginsWithCRLF()
      reads this
    {
      |buf| >= 2 && buf[0] == '\r' && buf[1] == '\n'
    }

    /** Cuts the line that ends with the CRLF under the cursor off the buffer. */
    method ExtractLine() returns (line: Bytes)
      requires elementEndIdx < |buf| && EndsWithCRLF()
      modifies this
      ensures old(buf) == line + ['\r', '\n'] + buf
      ensures |line| == old(elementEndIdx) - 1 && elementEndIdx == 0
    {
      var len := if elementEndIdx <= 0 then 0 else elementEndIdx - 1;
      line := buf[..len];
      buf := buf[len + 2..];
      elementEndIdx := 0;
    }

    /** Moves up to n bytes from the front of the buffer; returns them. */
    method MoveToStream(n: nat) returns (moved: Bytes)
      modifies this
      ensures old(buf) == moved + buf && elementEndIdx == 0
      ensures |moved| == n || (|moved| < n && buf == [])
    {
      var k := n;
      if k > |buf| {
        k := |buf|;
      }
      moved := buf[..k];
      buf := buf[k..];
      elementEndIdx := 0;
    }

    method Ignore(n: nat)
      modifies this
      ensures buf == old(buf)[if n < |old(buf)| then n else |old(buf)|..]
      ensures elementEndIdx == if n == 0 || old(buf) == [] then old(elementEndIdx) else 0
    {
      var k := n;
      if k > |buf| {
        k := |buf|;
      }
      if k <= 0 {
        return;
      }
      buf := buf[k..];
      elementEndIdx := 0;
    }
  }
}
