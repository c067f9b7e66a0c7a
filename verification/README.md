# Verification of the web server's request handling, event loop, routing and configuration

This project models the parts of the web server where its behaviour is hard to see from
one function, and proves what holds of them for all inputs, all states and all runs.

* **Request targets** (`PercentCodec`, `PathNormalization`, `DotSegments`, `RqTarget`,
  `RqTargetRoundTrip`, `EscapedPercent`): parsing, validating, normalising and printing a
  request target (sections 2.1, 3 and 5.2.4 of RFC 3986).
* **Request builder** (`RequestParser`, `RequestBuilder` over `BuilderSpec`;
  `BuilderFragments`, `BuilderLimits`, `ChunkedCoding`, `RequestRendering`,
  `RequestFraming`, `ChunkTail`, `UploadLimits`): the resumable machine that turns bytes into requests (sections 3, 5,
  6 and 7.1 of RFC 9112).
* **Event loop** (`EventLoop` over `LoopSpec`; `LoopInvariant`, `LoopSteps`,
  `LoopScripts`, `LoopTeardown`, `LoopDispatch`, `LoopRuns`, `LoopBackends`, `CgiRuns`,
  `CgiChildren`, `CgiFreshPids`, `CgiPidReuse`, `MultiplexerOrders`, `MultiplexerRuns`): deferred deletions, the three multiplexers, client
  sessions, CGI processors and their children, round by round.
* **Sending responses** (`ResponseSending` over `Delivery`).
* **Selection and configuration** (`Routing`, `ConfigFile`).

`Octets` and `NumericUtils` hold bytes, searches and number conversions.

## How to read the model

Code that changes objects step by step is a class or a method with the source's fields,
loops and branches; each is proved equal to a function on values, and the properties are
proved about that function. `RequestBuilder.Build`, for example, takes the object to
`BuilderSpec.Feed` of its old value, and `BuilderFragments` is about `Feed`.

The outside is a parameter. The builder takes the headers-ready callback and the file
system as functions (`Env`). The event loop takes, for each ready descriptor, what the
socket, the request builder and the CGI parser made of it (`Outcome`), and for each round
which children had exited and which clients were idle; every theorem about runs holds for
all of them. A run is restricted only by what a multiplexer can hand out: callbacks that
were registered when it waited, each once, and for one descriptor the read first.
`MultiplexerOrders` proves this of the three dispatch loops, and `MultiplexerRuns` of whole
runs made from what their waits came back with (`EventLoop.Run`). The kernel gives out no
descriptor that is open. A client read that is `Finished` stands for a builder that is done
after the bytes received (`RequestBuilder.Build`), and the results of a client write are
those of `ResponseSending.OnReadyToSendToClient.Call`.

In the event loop a session or a CGI processor is an entry under an identity that is
never used again, so that a callback can refer to one that is gone. `fault` is set
whenever a callback reaches a destroyed object or an absent child description, or a
registration finds its place taken; the theorems say that it never is.

## Where the code and its promises part

* A literal percent sign: `/%25//ab` is accepted, but printing and parsing it again gives
  another target (`EscapedPercentBreaksReparse`). `PrintReparse` gives the exact condition.
* The percent codec gives a string back for every string only if the encoder escapes the
  percent sign and copies what the decoder leaves escaped (`CodecRoundTripForAll`);
  `CodecRoundTrip` says for any two sets which strings come back.
* The chunk size sum is a 64-bit sum. When an accepted size makes it wrap, more than
  `max_body_size` bytes are written. `BodyLimitHoldsAlways` shows that this is the only way,
  `PassableExactly` that it is open on every chunked request whose limit is not zero.
* The CRLF after the last chunk stays buffered and is rejected as the next request
  (`TrailingCrlfIsRejected`). A request with `Content-Length: 0` is complete only when
  another byte arrives (`FixedLengthRoundTrip`).
* A call of Build ends with one request, and the next call comes with further bytes. Of
  requests that arrive together only the first is handed on (`PipelinedRequestsWait`);
  `SplitAtBoundaries` counts the requests that any division into fragments hands on.
* In chunk content with nothing remaining and one byte buffered the loop guard holds and a
  step changes nothing (`OnlyFixpoint`): the source's loop does not end there. It is reached
  exactly on whole chunks followed by a last chunk's size line, its data and one more byte
  (`RequestStallsExactly`). The model takes this state as waiting for
  data.
* A CGI processor keeps the process number of a child that was collected and kills that
  number when its read fails (`KillTakesOnlyOwnChild`) or its session goes
  (`DestroyTakesOnlyOwnChild`). If the number was given out again, the child of another
  processor loses its entry, and its session can be left waiting for an exit that is never
  reported: `ReusedPidStrandsSession` is a run that ends so, and `ExitsAreReportedExactly`
  says which runs do not. No callback reaches a destroyed object even then.

## Model

| member | source | states |
|---|---|---|
| PercentCodec.CodecRoundTrip | src/http/http.cpp:65-106 | For every string and every pair of keep sets: decoding the encoding gives the string back if and only if no byte that was escaped is one the decoder leaves escaped, and every percent sign that was copied opens an escape the decoder leaves as it is; NUL included (strchr finds the terminator) |
| PercentCodec.CopiedPercentRoundTrip | src/http/http.cpp:65-106 | The half with an encoder that copies percent signs: what an escape loses cannot come back from the bytes behind it |
| PercentCodec.NothingInFront | src/http/http.cpp:65-106 | No round trip puts bytes in front of the string it was given, if their percent signs all open escapes that are resolved |
| PercentCodec.CodecRoundTripForAll | src/http/http.cpp:65-106 | Any two keep sets give the round trip on all strings if and only if the encoder escapes the percent sign and copies whatever the decoder leaves escaped |
| PercentCodec.DecodedEncodingIsIdentity | src/http/http.cpp:65-106 | When the sets agree on a string, decoding its encoding is the string |
| PercentCodec.CopyingPercentBreaksTheCodec | src/http/http.cpp:93-106 | A keep set with the percent sign: a concrete string that does not come back |
| PercentCodec.PercentDecode | src/http/http.cpp:65-89 | The loop computes the decoding function on every string; a malformed escape gives no result |
| PercentCodec.PercentEncode | src/http/http.cpp:93-106 | The loop computes the encoding function on every string |
| NumericUtils.HexRoundTrip | src/utils/numeric_utils.h:64-80 | Reading the hexadecimal rendering of any value within the limit gives the value |
| NumericUtils.DecRoundTrip | src/utils/numeric_utils.h:42-61 | Reading the decimal rendering of any value within the limit gives the value |
| NumericUtils.HexPair | src/utils/numeric_utils.h:64-80 | A two-byte string is read as a number if and only if both bytes are hexadecimal digits |
| NumericUtils.ByteToHexStr | src/utils/numeric_utils.h:91-97 | Two upper-case hexadecimal digits that denote the byte |
| PathNormalization.ConvertEncodedHexToUpper | src/http/RqTarget.cpp:381-389 | In place on the string: the bytes after a percent sign become upper case, all others stay |
| PathNormalization.UpperHexFixpoint | src/http/RqTarget.cpp:381-389 | Nothing changes if and only if no lower-case letter stands in the two bytes after a percent sign |
| PathNormalization.UpperHexIdempotent | src/http/RqTarget.cpp:381-389 | One pass leaves nothing for a second |
| PathNormalization.CollapseSlashes | src/http/RqTarget.cpp:367-379 | The loop computes the string without the slashes that follow a slash |
| PathNormalization.CollapseShape | src/http/RqTarget.cpp:367-379 | The result has no double slash |
| PathNormalization.CollapseIdentity | src/http/RqTarget.cpp:367-379 | A string without double slashes is unchanged |
| PathNormalization.CollapseKeepsWords | src/http/RqTarget.cpp:367-379 | Collapsing keeps exactly the non-empty segments, in order |
| DotSegments.RemoveLastSegment | src/http/RqTarget.cpp:346-353 | On a path with a segment on top, exactly that segment goes |
| DotSegments.RemoveDotSegments | src/http/RqTarget.cpp:310-365 | The loop over input, output and dir_level computes the result of a segment stack; there is none exactly when dir_level ends below zero, and otherwise dir_level is the number of segments of the result |
| DotSegments.RemoveDotsRefinesRfc | src/http/RqTarget.cpp:310-365 | For every rooted path: no result if and only if some prefix climbs above the root, and otherwise the output that rules A to E of section 5.2.4 of RFC 3986 leave in their buffers, with no dot segment in it |
| DotSegments.RfcOnStack | src/http/RqTarget.cpp:310-365 | On every rooted path the rules of the RFC, run over an input and an output buffer, do what a stack of segments does, climbing above the root included |
| DotSegments.RemoveDotsIdempotent | src/http/RqTarget.cpp:310-365 | The result is left alone by a second pass |
| DotSegments.RemoveDotsIdentity | src/http/RqTarget.cpp:310-365 | A rooted path without dot segments is unchanged |
| DotSegments.RemoveDotsNoDoubleSlash | src/http/RqTarget.cpp:310-365 | No double slash appears that was not there |
| RqTarget.RqTarget.constructor | src/http/RqTarget.cpp:22-38 | The object built by the component parsers, the validation and the normalisation in turn holds the parsed value of the string |
| RqTarget.RqTarget.ToStr | src/http/RqTarget.cpp:101-126 | The components printed in order, path and query encoded |
| RqTarget.RqTarget.Validate | src/http/RqTarget.cpp:391-414 | Adds exactly the flags of the components that are not acceptable |
| RqTarget.RqTarget.ValidateHost | src/http/RqTarget.cpp:426-450 | The loop flags the host if and only if it is empty or some byte outside escapes is not allowed |
| RqTarget.RqTarget.ValidatePath | src/http/RqTarget.cpp:471-493 | The loop flags the path if and only if it is not a valid absolute path |
| RqTarget.RqTarget.ValidateQuery | src/http/RqTarget.cpp:495-513 | The loop flags the query if and only if some byte outside escapes is not allowed |
| RqTarget.RqTarget.Normalize | src/http/RqTarget.cpp:267-307 | Components replaced by their normal forms; a component that cannot be decoded or climbs above the root is flagged |
| RqTargetRoundTrip.OriginFormAccepted | src/http/RqTarget.cpp:22-38 | An origin-form target is accepted if and only if it fits, has no fragment, its path and query are valid and decodable and its path stays below the root; and then its value |
| RqTargetRoundTrip.CleanPathShape | src/http/RqTarget.cpp:267-307 | The path of an accepted target is rooted and has neither double slashes nor dot segments |
| RqTargetRoundTrip.PrintReparse | src/http/RqTarget.cpp:101-126 | For every accepted origin-form target: printing and parsing again gives an equal target if and only if the printed form fits the limit and the path has no lower-case letter after a percent sign |
| EscapedPercent.PrintReparseWithoutEscapedPercent | src/http/RqTarget.cpp:267-307 | Print and reparse holds for every accepted origin-form target without an escaped percent sign in its raw path whose printed form fits |
| EscapedPercent.NoEscapedPercentIsUpper | src/http/RqTarget.cpp:381-389 | Without an escaped percent sign in the raw path the case condition always holds |
| EscapedPercent.EscapedPercentBreaksReparse | src/http/RqTarget.cpp:281-296 | The target /%25//ab is accepted and does not survive: collapsing runs after the upper-casing pass |
| RequestParser.RequestParser.AddNewData | src/http/RequestParser.cpp:19-23 | New bytes go behind the buffered ones, the cursor stays |
| RequestParser.RequestParser.ExtractLine | src/http/RequestParser.cpp:66-74 | The bytes before the CRLF at the cursor are returned, the line and its end are gone, and the cursor is at the front |
| RequestParser.RequestParser.MoveToStream | src/http/RequestParser.cpp:77-86 | As many bytes as asked for and buffered are handed out in order and removed |
| RequestParser.RequestParser.Ignore | src/http/RequestParser.cpp:120-130 | The first bytes are removed, all of them if fewer are buffered |
| RequestBuilder.RequestBuilder.Build | src/http/RequestBuilder.cpp:59-84 | One call takes the object to the state the value machine reaches from its old state and the new bytes, and reports whether the request is done |
| RequestBuilder.RequestBuilder.Reset | src/http/RequestBuilder.cpp:101-111 | Everything but the unread bytes is as in a new builder |
| RequestBuilder.RequestBuilder.TryToExtractLine | src/http/RequestBuilder.cpp:427-449 | The scan stops at the first CRLF, at the first objection (8192 bytes, single CR, NUL) or at the end of the buffer, and takes exactly the line |
| RequestBuilder.RequestBuilder.BuildHeaderField | src/http/RequestBuilder.cpp:204-242 | One header line changes the object as the value machine does |
| RequestBuilder.RequestBuilder.ProcessHeaders | src/http/RequestBuilder.cpp:301-322 | Complete headers are checked, interpreted and handed to the callback, and the body is prepared, as in the value machine |
| RequestBuilder.RequestBuilder.BuildBodyRegular | src/http/RequestBuilder.cpp:363-375 | Buffered bytes go to the body until its length is reached |
| RequestBuilder.RequestBuilder.BuildBodyChunkSize | src/http/RequestBuilder.cpp:377-402 | A size line is taken, limits are applied, a zero size ends the request |
| RequestBuilder.RequestBuilder.BuildBodyChunkContent | src/http/RequestBuilder.cpp:404-425 | Chunk data goes to the body and its CRLF is consumed as a whole |
| BuilderSpec.StepLowersRank | src/http/RequestBuilder.cpp:47-80 | Every step of the loop lowers (buffered bytes, headers to process, unscanned bytes) or ends the request: the loop always stops |
| BuilderSpec.OnlyFixpoint | src/http/RequestBuilder.cpp:404-425 | The one state on which the loop guard holds and a step changes nothing: chunk content with nothing remaining and one byte buffered |
| ChunkTail.TailStalls | src/http/RequestBuilder.cpp:404-425 | A well-formed chunk within the limit followed by one byte leads to that state |
| ChunkTail.StallsExactly | src/http/RequestBuilder.cpp:377-425 | The chunked states reach it if and only if the buffer is a list of well-formed chunks, then a size line, its data and one byte, all sizes within the limit |
| ChunkTail.StalledIsTail | src/http/RequestBuilder.cpp:377-425 | From any stalled builder: its chunks, the last data and the byte |
| ChunkTail.RequestStallsExactly | src/http/RequestBuilder.cpp:59-84 | A new builder given a chunked request stalls if and only if what follows the head is such a body |
| BuilderFragments.FragmentationIndependence | src/http/RequestBuilder.cpp:59-84 | From any state, every division of the bytes into non-empty fragments ends in the same state, request, counters, body, buffer and cursor |
| BuilderFragments.FeedTwice | src/http/RequestBuilder.cpp:59-84 | Two calls of Build are one call with both fragments |
| BuilderFragments.StreamConservation | src/http/RequestParser.cpp:66-86 | What a builder holds after any fragments is the end of everything it held and was given: no byte is lost or reordered |
| BuilderLimits.ReachableBounds | src/http/RequestBuilder.cpp:324-402 | After any calls: at most 8192 bytes wait in line states, none in a regular body, one in chunk content; unless rejected, at most 100 headers and 32768 header bytes; written plus remaining is the Content-Length, or the chunk size sum modulo 2^64, within the limit |
| BuilderLimits.StepKeepsInv | src/http/RequestBuilder.cpp:59-84 | Every state of the builder keeps the bounds and the body account |
| BuilderLimits.StepWithinLimit | src/http/RequestBuilder.cpp:388-402 | A step keeps written plus remaining within max_body_size if and only if it does not accept a chunk size that makes the 64-bit sum wrap |
| BuilderLimits.BodyLimitHolds | src/http/RequestBuilder.cpp:388-402 | The body stays within max_body_size in every state of a run if and only if no accepted chunk size makes the sum wrap |
| BuilderLimits.BodyLimitHoldsAlways | src/http/RequestBuilder.cpp:59-111 | Over all calls of Build and Reset from a new builder: the body stays within max_body_size in every state if and only if no call accepts a chunk size that makes the sum wrap |
| BuilderLimits.UnchunkedWithinLimit | src/http/RequestBuilder.cpp:353-360 | Without chunks the limit holds unconditionally |
| ChunkedCoding.ChunkedRoundTrip | src/http/RequestBuilder.cpp:377-425 | Chunks of any data, with any spelling of their sizes, closed by a zero size and delivered in any fragments: the body is their concatenation, the request is done, and what follows the last size line is in the buffer |
| ChunkedCoding.ChunkedExactly | src/http/RequestBuilder.cpp:377-425 | The chunked states reach the end if and only if the buffer is a list of well-formed chunks within the limit, a zero size line and a rest |
| ChunkedCoding.CompleteIsChunked | src/http/RequestBuilder.cpp:377-425 | From any completed body: its chunks, last size line and rest |
| ChunkedCoding.CanonicalIsChunked | src/utils/numeric_utils.h:64-80 | Any non-empty parts with sizes in hexadecimal are such a list |
| ChunkedCoding.WrappedSumPassesLimit | src/http/RequestBuilder.cpp:394-399 | After a one-byte chunk, a size of 2^64 - 1 makes the sum zero, and whatever data follows is written |
| UploadLimits.PassableExactly | src/http/RequestBuilder.cpp:377-402 | From a new builder: a chunked request has a body that is written beyond max_body_size if and only if that limit is not zero |
| UploadLimits.UploadOverflowsAndStalls | src/http/RequestBuilder.cpp:47-84 | A concrete request, from its first byte on, whose body passes its limit, and on which the loop of Build stalls |
| RequestRendering.HeadRoundTrip | src/http/RequestBuilder.cpp:113-242 | A rendered request line and header section is read back as the request it was made from, and nothing behind it is touched |
| RequestRendering.SplitsFieldLine | src/http/RequestBuilder.cpp:204-242 | A rendered header field is split into its name and value |
| RequestRendering.FirstLineApplies | src/http/RequestBuilder.cpp:113-202 | A rendered request line sets method, target and version |
| RequestFraming.BodilessRoundTrip | src/http/RequestBuilder.cpp:301-322 | A request without a body ends with the empty line; the rest stays buffered |
| RequestFraming.FixedLengthRoundTrip | src/http/RequestBuilder.cpp:363-375 | A request with a Content-Length ends after that many bytes; an empty body is noticed if and only if another byte is buffered |
| RequestFraming.FixedLengthIsWhole | src/http/RequestBuilder.cpp:363-375 | Such a request is one whole request; it needs one byte more than it has exactly when its Content-Length is zero |
| RequestFraming.ChunkedRequestRoundTrip | src/http/RequestBuilder.cpp:377-425 | A chunked request ends with the line of its last chunk |
| RequestFraming.TrailingCrlfIsRejected | src/http/RequestBuilder.cpp:390-394 | The CRLF that closes a chunked body is read as the next request and rejected with 400 |
| RequestFraming.ResetIsFresh | src/http/RequestBuilder.cpp:101-111 | After a request and Reset, later bytes lead where a new builder gets from the unread bytes followed by them |
| RequestFraming.SplitAtBoundaries | src/ClientSession.cpp:47-99 | However a concatenation of requests, those with a Content-Length of zero included, is cut into fragments, the requests handed on are the first Handed(...) of them, in order and unchanged, and the unread bytes are exactly the others; Handed counts from the lengths alone, at most one with each fragment |
| RequestFraming.AllServed | src/ClientSession.cpp:47-99 | On a new connection all requests have been handed on if and only if Handed(...) of the fragments is their number |
| RequestFraming.PipelinedRequestsWait | src/ClientSession.cpp:139-157 | Of several requests that arrive in one fragment only the first is handed on; the others wait in the buffer for further bytes |
| RequestFraming.OnePerFragment | src/ClientSession.cpp:139-157 | Requests that arrive one in each fragment are all handed on, unless one has a Content-Length of zero |
| LoopInvariant.FlushKeeps | src/c_api/EventManager.cpp:34-41 | The flush keeps the invariant, and after it no closed descriptor has a callback or a pending deletion |
| LoopRuns.DispatchKeeps | src/c_api/EventManager.cpp:34-41 | Handling an event that is due keeps the invariant and every other callback that is due |
| LoopDispatch.DueAfter | src/c_api/multiplexers/SelectMultiplexer.cpp:50-64 | An event that is due and may follow another is still due after it |
| LoopSteps.AcceptKeeps | src/ServerCluster.cpp:154-175 | Accepting a connection keeps the invariant |
| LoopSteps.ProcessRequestKeeps | src/ClientSession.cpp:47-68 | A complete request, with every outcome of making its processor, keeps the invariant |
| LoopInvariant.PrepareResponseKeeps | src/ClientSession.cpp:70-85 | Registering the write callback of a response restores the invariant |
| LoopScripts.ScriptOnReadKeeps | src/server/response_processors/CGIProcessor.cpp:100-123 | Output, failed read and end of output of a script keep the invariant |
| LoopScripts.FinishedAwaits | src/server/response_processors/CGIProcessor.cpp:83-98 | A script whose run ends has its only answer, and its session exactly awaits the write callback |
| LoopScripts.ReapKeeps | src/c_api/ChildProcessesManager.cpp:94-111 | Collecting a child and calling its exit callback keeps the invariant |
| LoopTeardown.CleanupKeeps | src/ClientSession.cpp:87-99 | The cleanup after a response, with the processor destroyed, keeps the invariant |
| LoopTeardown.DestroySessionKeeps | src/ClientSession.cpp:36-39 | Destroying a session with its processor keeps the invariant |
| LoopTeardown.SweepKeeps | src/ServerCluster.cpp:127-144 | A visited client keeps the invariant |
| LoopRuns.RoundKeeps | src/ServerCluster.cpp:110-124 | Flush, dispatch, reap and sweep in turn keep the invariant |
| LoopRuns.CallbacksNeverOutliveObjects | src/ServerCluster.cpp:110-144 | In every run: no callback reaches a destroyed session or processor, no registration finds a stale entry of a reused descriptor, and after the flush each callback belongs to the present owner of its descriptor |
| LoopRuns.OneRequestAtATime | src/ClientSession.cpp:47-99 | In every run, completed requests minus sent responses of a live session is 1 exactly while it is busy, and a session that is not busy has no write callback after the flush |
| LoopRuns.ScriptsAnswerOnce | src/server/response_processors/CGIProcessor.cpp:83-137 | In every run no processor hands out two responses, and a live one has handed out one exactly if its run is over |
| LoopRuns.WriteBeforeReadFaults | src/c_api/multiplexers/SelectMultiplexer.cpp:50-64 | The order of dispatch is needed: with the write handled first, a registration can find its own stale entry |
| CgiRuns.AnswersAreWhatWasRead | src/server/response_processors/CGIProcessor.cpp:83-123 | The bytes given to the CGI parser are the concatenation of all that was read from the script, in every run |
| CgiChildren.NoSessionIsStuck | src/server/response_processors/CGIProcessor.cpp:75-137 | In every run in which no kill hits an awaited child of another processor: a busy session that is not closed has its write callback, or a script whose output and exit are still watched |
| CgiChildren.ExitsAreReportedExactly | src/server/response_processors/CGIProcessor.cpp:75-137 | For every run: each awaited child has its entry after every event and every visited client if and only if no kill of the run hits an awaited child of another processor |
| CgiFreshPids.FreshPidsKillOwn | src/server/response_processors/CGIProcessor.cpp:48-54 | That holds in particular as long as no process number is given out again while a processor holds it |
| CgiPidReuse.ReusedPidStrandsSession | src/server/response_processors/CGIProcessor.cpp:75-123 | A possible run from the start, in which a reused number leaves a session waiting with its output read and no entry for its child |
| CgiPidReuse.StuckNeedsForeignKill | src/server/response_processors/CGIProcessor.cpp:75-137 | Whenever a run ends with such a session, one of its kills hit an awaited child of another processor |
| CgiChildren.KillTakesOnlyOwnChild | src/server/response_processors/CGIProcessor.cpp:100-112 | A failed read leaves every awaited child its entry if and only if no awaited child of another processor has that process number |
| CgiChildren.DestroyTakesOnlyOwnChild | src/server/response_processors/CGIProcessor.cpp:75-81 | A session destroyed with its processor leaves every awaited child its entry under exactly the same condition |
| LoopBackends.EpollReportsUnshadowed | src/c_api/multiplexers/EpollMultiplexer.cpp:46-76 | epoll can report exactly the events of registered callbacks but the reads of descriptors whose write is registered |
| LoopBackends.ShadowedDoesNothing | src/ClientSession.cpp:139-157 | A read event of a descriptor whose write callback is due changes nothing: its session is busy |
| LoopBackends.RoundSynced | src/c_api/multiplexers/EpollMultiplexer.cpp:46-76 | After every round the kernel watches the write of a descriptor whose write is registered, else its read |
| LoopBackends.BackendsAgree | src/c_api/multiplexers/EpollMultiplexer.cpp:46-102 | Every admissible run (orders across descriptors left open) is, with the same outside events, a run over epoll through the same states, and every run over epoll is an admissible run |
| MultiplexerOrders.SelectIsReady | src/c_api/multiplexers/SelectMultiplexer.cpp:50-64 | Ascending descriptors, read before write, is an admissible order |
| MultiplexerOrders.PollIsReady | src/c_api/multiplexers/PollMultiplexer.cpp:31-45 | All reads and then all writes is an admissible order |
| MultiplexerOrders.EpollIsReady | src/c_api/multiplexers/EpollMultiplexer.cpp:87-101 | Reported descriptors in any order, read before write, is an admissible order over epoll |
| MultiplexerRuns.WaitsMakeRuns | src/c_api/EventManager.cpp:34-41 | Whatever the waits of select, poll and epoll come back with, round by round, in the order each hands it out: the run is admissible, and epoll has waits of its own with the same outside events that end in the same state |
| MultiplexerRuns.EpollWaitFor | src/c_api/multiplexers/EpollMultiplexer.cpp:78-102 | Everything epoll may hand out comes from a wait that reports each descriptor once |
| EventLoop.EventLoop.TryRegisterFd | src/c_api/multiplexers/AMultiplexer.cpp:9-30 | Refuses an occupied place; otherwise the entry is made and the kernel watches the one kind being registered |
| EventLoop.EventLoop.UnregisterFd | src/c_api/multiplexers/AMultiplexer.cpp:32-50 | Named callbacks are gone, others stay, and if there was one the kernel watches exactly what is left |
| EventLoop.EventLoop.DeleteCallback | src/c_api/EventManager.cpp:51-54 | Only queues the deletion |
| EventLoop.EventLoop.FlushDeletions | src/c_api/EventManager.cpp:34-41 | The loop over the queue has the effect of deleting all of it at once, in the maps and in the kernel |
| EventLoop.EventLoop.SelectCheckOnce | src/c_api/multiplexers/SelectMultiplexer.cpp:22-65 | Ready callbacks are handled in ascending order of descriptors, read before write |
| EventLoop.EventLoop.PollCheckOnce | src/c_api/multiplexers/PollMultiplexer.cpp:14-46 | All ready reads are handled before all ready writes |
| EventLoop.EventLoop.EpollCheckOnce | src/c_api/multiplexers/EpollMultiplexer.cpp:78-102 | Reported descriptors are handled in their order, read before write |
| EventLoop.EventLoop.CheckOnce | src/c_api/EventManager.cpp:34-41 | The multiplexer in use handles what its wait came back with |
| EventLoop.EventLoop.CallReady | src/c_api/multiplexers/EpollMultiplexer.cpp:89-100 | One ready event calls the callback registered at that moment, or none |
| EventLoop.EventLoop.AcceptClient | src/ServerCluster.cpp:154-175 | A new session with its read callback and entry, or a closed one |
| EventLoop.EventLoop.OnReadyToRecvFromClient | src/ClientSession.cpp:139-157 | A busy session ignores it; otherwise a disconnect closes and a complete request is processed |
| EventLoop.EventLoop.ProcessNewRequest | src/ClientSession.cpp:47-68 | The session turns busy and its processor is made |
| EventLoop.EventLoop.PrepareResponse | src/ClientSession.cpp:70-85 | The write callback is registered, or the session closed |
| EventLoop.EventLoop.OnReadyToSendToClient | src/ClientSession.cpp:170-204 | A failed send closes, a complete one cleans up |
| EventLoop.EventLoop.ResponseSentCleanup | src/ClientSession.cpp:87-99 | The write callback is queued for deletion, the processor destroyed, the session ready again |
| EventLoop.EventLoop.DestroyClientSession | src/ClientSession.cpp:36-39 | Callbacks queued for deletion, processor destroyed, socket closed |
| EventLoop.EventLoop.RunCgi | src/server/response_processors/CGIProcessor.cpp:55-72 | A running child with its read callback, or a killed one and an error page |
| EventLoop.EventLoop.ReadChildOutput | src/server/response_processors/CGIProcessor.cpp:100-123 | Failed read, output and end of output of a script |
| EventLoop.EventLoop.ChildProcessDone | src/server/response_processors/CGIProcessor.cpp:125-137 | Exit of a child: an error page, or the second half of completion |
| EventLoop.EventLoop.ProceedWithRsIfRdy | src/server/response_processors/CGIProcessor.cpp:83-98 | Nothing until both halves are there; then one answer |
| EventLoop.EventLoop.DestroyCgiProcessor | src/server/response_processors/CGIProcessor.cpp:75-81 | A child still described is killed and its callbacks are queued for deletion; the socket is closed |
| EventLoop.EventLoop.ReapChildren | src/c_api/ChildProcessesManager.cpp:94-111 | Calling back first and erasing afterwards has the effect of erasing each child at once |
| EventLoop.EventLoop.CheckClients | src/ServerCluster.cpp:127-144 | Closed clients are destroyed, idle ones closed |
| EventLoop.EventLoop.Run | src/ServerCluster.cpp:110-124 | The loop of flush, one of the three CheckOnce loops, reaping and sweep goes through the states of the value machine, turn by turn |
| EventLoop.ReapLater | src/c_api/ChildProcessesManager.cpp:94-111 | Why the order of callback and erasure does not matter: exit callbacks neither read nor change the table |
| Delivery.CallKeeps | src/ClientSession.cpp:170-204 | Every call leaves what was sent a prefix of head and file, only adds to it, and asks for the cleanup exactly when nothing is left |
| Delivery.DoneIsComplete | src/c_api/Socket.cpp:140-143 | Nothing is left if and only if the whole response was sent and the end of the file was seen |
| Delivery.CleanupDelay | src/c_api/Socket.cpp:117-143 | The one delay: a non-empty file whose size is a multiple of the chunk size needs one more call, which sends nothing |
| Delivery.DeliveryCorrect | src/ClientSession.cpp:170-204 | Under every schedule of partial sends: always a prefix, complete at the cleanup, and finished within one call more than there are bytes |
| Delivery.CallProgress | src/c_api/Socket.cpp:63-88 | A call that wants another has made progress |
| ResponseSending.ClientSocket.Send | src/c_api/Socket.cpp:63-76 | At most what the kernel takes is sent, and the package counts it |
| ResponseSending.ClientSocket.SendFile | src/c_api/Socket.cpp:78-88 | The next chunk is prepared and sent |
| ResponseSending.SendFilePackage.PrepareNextChunk | src/c_api/Socket.cpp:117-138 | A chunk that was sent is replaced by the next bytes of the file, and a short read is its end |
| ResponseSending.OnReadyToSendToClient.Call | src/ClientSession.cpp:170-204 | The callback on its packages and socket does what the value machine does |
| Routing.ChooseLocation | src/server/Server.cpp:70-97 | The loop finds the earliest location with the greatest (exact, route length), or none if nothing matches |
| Routing.LocationChosen | src/server/Server.cpp:70-97 | An exact route that is the path wins; else the longest route the path starts with |
| Routing.LocationOfPermutation | src/server/Server.cpp:70-97 | Permuted locations have the same winning route |
| Routing.MatchHostName | src/server/Server.cpp:133-156 | The host itself if it is listed, else the last listed wildcard that covers it |
| Routing.ChooseServer | src/ServerCluster.cpp:81-99 | The loop finds the earliest server with the greatest (match type, name length), or the first if none matches |
| Routing.ServerOfPermutation | src/ServerCluster.cpp:81-99 | Permuted servers have the same winning match type and name |
| Routing.LocationMatches | src/server/Location.cpp:67-79 | What a match with a location says about the path |
| ConfigFile.ReadConfig | src/config/ParsedConfig.cpp:7-43 | The recursive constructor over the stream computes the block it reads and where it stops, or fails |
| ConfigFile.ConfigRoundTrip | src/config/ParsedConfig.cpp:7-43 | For every tree of blocks and settings with well-formed words: reading its rendering gives the tree |
| ConfigFile.SettingsInFileOrder | src/config/ParsedConfig.cpp:65-77 | FindSetting gives the values of a key in file order |
| ConfigFile.ClassifyLine | src/config/ParsedConfig.cpp:13-33 | A rendered line is recognised with its key and value, whatever blanks surround the ending |
| ConfigFile.MakePairOfWords | src/config/ParsedConfig.cpp:79-90 | A key and a value written with a blank between them are taken apart again |
| ConfigFile.TrimExact | src/utils/str_utils.cpp:22-30 | Trimming removes exactly the surrounding bytes |
| ConfigFile.AcceptedIffWellNested | src/config/ParsedConfig.cpp:7-43 | A file is accepted if and only if its lines are well nested: none malformed, no block closed that is not open, all closed at the end |
| ConfigFile.UnbalancedIsRejected | src/config/ParsedConfig.cpp:33-42 | Unbalanced braces are rejected |

## Left out

- Sockets, `select`, `poll`, `epoll_wait`, `fork`, `execve`, `waitpid`, signals and clocks: replaced by the outcomes, exits and idle sets of a round.
- select: descriptors above its limit, which its loop cuts off.
- Exceptions and the recovery from `bad_alloc` in `ServerCluster::Run`; `KillAllClients_`.
- Sessions and CGI processors as heap objects: they are entries of maps, so aliasing between them is not modelled; what their callbacks and destructors do to the loop's tables is.
- Synchronous processors (files, directories, redirects, error pages) and the parsing of CGI output: one step that calls the response callback once, or a yes/no outcome.
- Creating the temporary body file is taken as successful: the logging statement in front of its error branch dereferences the missing name first, so that branch is not reached.
- `max_body_size` for requests that do not upload is not initialised by the source; the model takes any value.
- The constructor of a request target from components leaves its validity unset and is not part of this model.
- Print and reparse for targets with a scheme and host: the decoded host is printed as it is.
- The parser methods that no caller uses (`ExtractElement`, `operator[]`, `TryToExtractBodyContent_`).
- Logging, debug strings, MIME tables, HTML pages, configuration builders and their validation.
- The kind of location that is chosen (redirect, CGI, static): read off the winner.
- An empty server name: the source indexes before its start; the model lets it match nothing. Names with an empty entry do not come out of the configuration.
- Settings of one key keep their file order in the model; this is what the standard library's multimap does since C++11.
- Calling a private `Parse*` method of a request target a second time: the constructor calls each once, on unset components.
- Routing.ChooseServer: the list of servers of a listening socket is taken as non-empty, because a socket is opened only for a server that listens on it.
