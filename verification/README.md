# Verified models of libnhttp

libnhttp is a C++20 coroutine server for HTTP/1.1, HTTP/2 and WebSocket. This project models its
hardest parts in Dafny and proves what they promise: a lock-free job queue with its wakeup
protocol, the HTTP/2 connection driver, the HPACK codec, the backtracking router, the streaming
parsers, the sliding file mapping and the plugin scopes. `dafny verify dfyconfig.toml` checks
everything.

| file | part of libnhttp |
|---|---|
| `MpmcQueue.dfy`, `ThreadPool.dfy` | bounded multi-producer multi-consumer ring; workers, condition variable and shutdown on top of it |
| `WriterLock.dfy`, `FlowControl.dfy`, `H2Demux.dfy`, `H2Requests.dfy`, `H2Frame.dfy` | HTTP/2: the writer lock, DATA under flow control, frames gathered into requests, the same with the HPACK decoder behind it, the frame header and padding |
| `HpackInteger.dfy`, `Huffman.dfy`, `HuffmanTable.dfy`, `HpackTable.dfy`, `Hpack.dfy`, `HpackForms.dfy` | HPACK: integers, the Huffman trie and packer, the real code table, the dynamic table, header blocks, all representations with their meaning |
| `RouteTrie.dfy`, `RouteMatch.dfy`, `Router.dfy` | the routing trie, the choice among branches, the router's methods |
| `Streams.dfy`, `Multipart.dfy`, `Chunked.dfy`, `Http1.dfy`, `WebSocket.dfy` | sources that hand out bytes in arbitrary pieces, and the parsers over them |
| `FileMapping.dfy`, `PluginScope.dfy` | the mapped window over a file; begin and end hooks around a handler |
| `Arithmetic.dfy`, `Bytes.dfy` | shared facts |

## How things are modelled

- Concurrent code is a transition system whose steps are the atomic accesses (the ring, the pool)
  or the stretches between two suspension points (the HTTP/2 coroutines). A run is a sequence of
  states linked by steps, and the theorems speak of every state of every run, with any number of
  threads, writers or callers. History variables (`pushed`, `popped`, `ran`, `sent`, `parks`,
  `resumes`, `arrivals`) record what happened; no step reads them.
- Code that updates objects is a class with those fields, proved against a function of the whole
  input. A byte source returns any 1 to n bytes per read, so each reader's contract holds for every
  way the bytes are cut up.
- The routing trie's nodes live in one sequence and refer to each other by index, which stands for
  the shared pointers of the original.

Assumptions: sequentially consistent memory; unbounded queue positions, windows and file offsets;
wire writes accept at least one byte and do not fail; no enqueue overlaps the pool's destruction;
a source that has ended stays ended; a mapped file does not change; strings are shorter than 2^64
bytes.

Where the code and its own comments disagree, the code is modelled:

- `try_pop` and `try_push` may fail while the ring is neither empty nor full
  (`PopFailsIffHeadUnpublished`, `PushFailsIffTailUnreleased` say exactly when,
  `PopFailsBehindSlowPush` and `PushFailsBehindSlowPop` give runs).
- `read_integer` says that it rejects instead of wrapping; its tenth byte can wrap
  (`TenthByteWraps`, and `TenBytesExactIffFits` for the exact condition).
- The encoder's class comment mentions more representations; `encode` writes only literals without
  indexing.
- `route_match` says that it leaves the state alone on failure; the depth stays one higher.
- `window_capacity` is called the largest window ever mapped; a request that is longer from its
  page on gets a larger one (`LargerThanCapacityIff`).

## Model

| member | source | states |
|---|---|---|
| `MpmcQueue.MaskIsModulo` | include/nhttp/async/detail/mpmc_queue.hpp:43-48 | masking a position with a power of two minus one is taking it modulo the capacity |
| `MpmcQueue.QueueSafety` | include/nhttp/async/detail/mpmc_queue.hpp:65-117 | in every state of every run with capacity at least 2: at most `capacity` tickets are live, a live ticket's value sits intact in its cell or with exactly one pusher, and a popped ticket returned exactly the value pushed under it, once |
| `MpmcQueue.StepRefinesFifo` | include/nhttp/async/detail/mpmc_queue.hpp:65-117 | each atomic step either leaves an abstract bounded FIFO queue alone, or appends to one that is not full, or removes its head, which is what that pop returns |
| `MpmcQueue.PopFailsIffHeadUnpublished` | include/nhttp/async/detail/mpmc_queue.hpp:93-117 | a pop fails if and only if it looks at the head ticket and finds it unpublished, and that is the case if and only if the queue is empty or its oldest push is still in flight |
| `MpmcQueue.PopFailsBehindSlowPush` | include/nhttp/async/detail/mpmc_queue.hpp:93-117 | a run in which a pop fails on a queue of two values, one of them published |
| `MpmcQueue.PushFailsIffTailUnreleased` | include/nhttp/async/detail/mpmc_queue.hpp:65-89 | a push fails if and only if it looks at the tail and finds the cell unreleased, and that is the case if and only if the ring is full or the pop of the ticket one lap earlier is still in flight |
| `MpmcQueue.PushFailsBehindSlowPop` | include/nhttp/async/detail/mpmc_queue.hpp:65-89 | a run in which a push fails on an empty ring |
| `MpmcQueue.CapacityOneLosesValues` | include/nhttp/async/detail/mpmc_queue.hpp:43-89 | with capacity 1 there is a run in which a second push overwrites an unpopped value |
| `MpmcQueue.WedgedForever` | include/nhttp/async/detail/mpmc_queue.hpp:93-117 | after such an overwrite no pop of any continuation succeeds |
| `ThreadPool.NoLostWakeup` | src/async/thread_pool.cpp:37-90 | in every reachable state with a ticket waiting, a worker is awake and will look at the queue again before it sleeps, or a client has yet to notify |
| `ThreadPool.ShutdownRunsEveryJobOnce` | src/async/thread_pool.cpp:17-35 | when the destructor returns, every enqueued job has run, and each exactly once |
| `ThreadPool.ShutdownLeavesNoSleeper` | src/async/thread_pool.cpp:17-35 | once the destructor joins, no worker sleeps or is about to |
| `ThreadPool.WorkersRunWhatWasPushed` | src/async/thread_pool.cpp:62-90 | a worker runs the job that was enqueued under the ticket it popped |
| `WriterLock.FramesNeverInterleave` | src/server/connection_h2.cpp:48-127 | in every reachable state the wire holds whole frames in lock-arrival order, then a prefix of the holder's frame; there is one holder at most, and waiters only while there is one |
| `WriterLock.PeerReadsFramesInOrder` | src/server/connection_h2.cpp:108-127 | in every reachable state, cutting the wire into frames gives exactly the finished frames in lock-arrival order, and the holder's once it is written, however the writes were split |
| `WriterLock.ArrivalOrderIsFinal` | src/server/connection_h2.cpp:48-67 | nobody who arrives later overtakes: the arrival order only grows at its end |
| `FlowControl.StreamObeysWindow` | src/server/connection_h2.cpp:476-519 | in every run a stream never commits more than its initial window plus its increments; its frames hold 1 to 16384 bytes without END_STREAM, followed, if and only if the response is over, by exactly one empty frame with END_STREAM; the payloads concatenate to a prefix of the body cut to the announced length, and to all of it once the response is over |
| `FlowControl.FramesFitPeer` | src/server/connection_h2.cpp:497-508 | each DATA frame fits the peer's frame size and both windows at the time of the check |
| `FlowControl.NoStreamSleepsOnOpenWindows` | src/server/connection_h2.cpp:296-332 | a registered stream is parked only while one of its windows is used up; handles being resumed are distinct and detached, and a writer was parked as often as it was resumed, once more while it is suspended |
| `FlowControl.SleepsOnOpenWindowsOnlyIfReset` | src/server/connection_h2.cpp:296-332 | a writer parked although both windows are open belongs to a stream that was reset |
| `FlowControl.ResetWriterSleepsOnOpenWindows` | src/server/connection_h2.cpp:365 | there is a run that leads to such a writer |
| `FlowControl.ResetWriterSleepsForever` | src/server/connection_h2.cpp:365 | a writer that is parked when its stream is reset is never resumed |
| `FlowControl.ConnectionOvershootBound` | src/server/connection_h2.cpp:501-510 | with at most k writers awaiting a send, the connection window is overrun by at most (k - 1) * 16384 bytes, so never with one |
| `FlowControl.OvershootBoundIsReached` | src/server/connection_h2.cpp:501-510 | for every k some run reaches that bound |
| `H2Demux.Demultiplexer.HandleHeaders` | src/server/connection_h2.cpp:226-270 | opens a stream with the unpadded block, finishing it at END_HEADERS, or refuses the frame and changes nothing |
| `H2Demux.Demultiplexer.HandleContinuation` | src/server/connection_h2.cpp:272-294 | extends the open block of the expected stream, finishing it at END_HEADERS, or refuses the frame and changes nothing |
| `H2Demux.Demultiplexer.HandleData` | src/server/connection_h2.cpp:379-415 | appends the unpadded content within the body limit, returns the frame's length as credit and dispatches a request that is complete, or refuses the frame and changes nothing |
| `H2Demux.Demultiplexer.Run` | src/server/connection_h2.cpp:343-376 | the frame loop over any sequence of frames and finished responses; with an orderly peer it never gives up and has dispatched exactly the requests each stream's own frames stand for |
| `H2Demux.DispatchesAreRequests` | src/server/connection_h2.cpp:179-443 | for every interleaving from an orderly peer, decodable headers or not: each stream is dispatched as its own frames ask for, with its own headers and DATA; credit equals the payload received while the stream was unanswered, and for the connection all payload but that on answered streams |
| `H2Demux.DispatchedTwiceIff` | src/server/connection_h2.cpp:257-262 | a stream is dispatched twice if and only if its headers do not decode and END_STREAM comes on DATA after END_HEADERS while the answer is unfinished; otherwise at most once |
| `H2Demux.RequestsAreDemultiplexed` | src/server/connection_h2.cpp:226-443 | with decodable headers each stream is dispatched exactly once, when END_HEADERS and END_STREAM have both been seen, with its decoded headers and its own DATA in order, and credit returned equals payload received, per stream and in total |
| `H2Demux.BlocksReachDecoderInStartOrder` | src/server/connection_h2.cpp:226-294 | header blocks reach the shared decoder in the order their streams were started |
| `H2Requests.HeaderListsArrive` | src/server/connection_h2.cpp:179-224 | with the HPACK decoder shared by all streams, the k-th stream to be started is dispatched with exactly the k-th header list the peer wrote, whatever representations it used, as the peer's own tables give it; or as malformed if that list is in error |
| `H2Requests.TablesAgree` | src/http2/hpack.cpp:220-307 | after any sequence of blocks the decoder's tables are those of the peer that wrote them |
| `H2Requests.UndecodableStreamDispatchedTwice` | src/server/connection_h2.cpp:257-262 | a run of an orderly peer with the refused block 0x80 whose stream is dispatched at END_HEADERS and again at END_STREAM |
| `H2Requests.LateDataEarnsNoCredit` | src/server/connection_h2.cpp:382-383 | a run in which DATA for an answered stream earns no credit, so the connection window loses exactly its length |
| `H2Frame.HeaderRoundTrip` | src/http2/frame.cpp:40-53 | parsing a written header and payload gives the frame back, whatever follows |
| `H2Frame.PartialFrame` | src/http2/frame.cpp:47-53 | a proper prefix of a frame is not taken for one |
| `H2Frame.DeframeInverts` | src/http2/frame.cpp:40-53 | a concatenation of frames followed by an incomplete one cuts back into exactly those frames |
| `H2Frame.PaddingRoundTrip` | src/http2/frame.cpp:111-129 | stripping padding recovers exactly the content that was padded |
| `HpackInteger.BitReader.ReadInteger` | src/http2/hpack.cpp:105-136 | consumes and yields what the integer decoding function says, or fails when it does |
| `HpackInteger.WriteInteger` | src/http2/hpack.cpp:311-328 | appends the prefix form of the value |
| `HpackInteger.DecodedMeaning` | src/http2/hpack.cpp:105-136 | decoding succeeds exactly for a varint of at most ten bytes and yields prefix plus septets, reduced to 64 bits |
| `HpackInteger.IntegerRoundTrip` | src/http2/hpack.cpp:311-328 | every 64-bit value survives encoding and decoding with every prefix and pattern, whatever follows, using exactly the bytes written |
| `HpackInteger.NoWrapUpToNineBytes` | src/http2/hpack.cpp:117-132 | up to nine continuation bytes never wrap |
| `HpackInteger.TenBytesExactIffFits` | src/http2/hpack.cpp:117-132 | with ten bytes the result is exact if and only if the sum is below 2^64 |
| `HpackInteger.TenthByteWraps` | src/http2/hpack.cpp:130-131 | an input whose tenth byte makes the result wrap |
| `Huffman.ScanInvertsEncode` | src/http2/hpack.cpp:24-58 | over any usable prefix code, bits decode to a text if and only if they are its encoding followed by fewer than eight ones |
| `Huffman.HuffmanTree.Insert` | src/http2/hpack.cpp:66-81 | adds one word to the trie, keeping every earlier path and symbol |
| `Huffman.HuffmanTree.constructor` | src/http2/hpack.cpp:15-20 | the trie holds exactly the words of the table and their prefixes |
| `Huffman.HuffmanTree.Decode` | src/http2/hpack.cpp:24-58 | walking the trie agrees with declarative prefix-code decoding on every input |
| `Huffman.EncodeString` | src/http2/hpack.cpp:330-355 | packs exactly the concatenated words, filled up with ones |
| `Huffman.PutSymbol` | src/http2/hpack.cpp:336-349 | the accumulator, with the new code shifted in, stays below 2^37, and no bit is lost between it and the output |
| `Huffman.Drain` | src/http2/hpack.cpp:341-344 | emits whole bytes until fewer than eight bits are left, keeping the bit string |
| `Huffman.PadLast` | src/http2/hpack.cpp:352-355 | the left-over bits and ones up to the byte boundary |
| `Huffman.StringRoundTrip` | src/http2/hpack.cpp:330-359 | decoding a packed text gives the text back for every byte string |
| `HuffmanTable.TableIsPrefixFree` | src/http2/hpack_tables.hpp:86-152 | no word of the real table is a prefix of another |
| `HuffmanTable.TableIsPaddable` | src/http2/hpack_tables.hpp:86-152 | no word is made of up to seven ones, and some word starts with seven |
| `HpackTable.LongestFitUnique` | src/http2/hpack.cpp:190-204 | there is only one longest newest-first prefix of the insertions that fits the bound |
| `HpackTable.EvictedIsLongestFit` | src/http2/hpack.cpp:198-204 | evicting from the oldest end leaves that prefix |
| `HpackTable.InsertKeepsLongestFit` | src/http2/hpack.cpp:190-196 | an insertion, also of an entry larger than the bound, keeps the table equal to it |
| `HpackTable.LowerKeepsLongestFit` | src/http2/hpack.cpp:206-218 | so does lowering the bound |
| `HpackTable.BareBoundChangeKeepsIff` | include/nhttp/http2/hpack.hpp:46 | setting the bound without evicting keeps it if and only if the bound still covers the table and does not reach the next evicted entry |
| `HpackTable.RaisedBoundBreaks` | include/nhttp/http2/hpack.hpp:46 | a table and a raised bound for which it fails |
| `Hpack.Decoder.EvictToFit` | src/http2/hpack.cpp:198-204 | the loop leaves the longest fit and the right stored size |
| `Hpack.Decoder.AddToDynamicTable` | src/http2/hpack.cpp:190-196 | the table is the longest fit of the history with the new entry in front |
| `Hpack.Decoder.LookupIndexed` | src/http2/hpack.cpp:168-188 | index 62 + i is the (i + 1)-th newest insertion still held, lower ones the static entries, others nothing |
| `Hpack.Decoder.ReadString` | src/http2/hpack.cpp:138-166 | one string, plain or Huffman coded, or failure, with the position after it |
| `Hpack.Decoder.ReadLiteral` | src/http2/hpack.cpp:240-265 | a literal with an indexed or spelled-out name |
| `Hpack.Decoder.ReadSizeUpdate` | src/http2/hpack.cpp:206-218 | bounds only go down, and the table stays the longest fit |
| `Hpack.Decoder.DecodeOne` | src/http2/hpack.cpp:223-304 | one representation does to output and tables what the whole-input function says |
| `Hpack.Decoder.Decode` | src/http2/hpack.cpp:220-307 | a whole block, well formed or not, from any table state; the invariant that the table is the longest fit of all insertions holds throughout |
| `Hpack.WriteString` | src/http2/hpack.cpp:330-359 | appends length and packed text |
| `Hpack.Encode` | src/http2/hpack.cpp:361-370 | appends one literal without indexing per field |
| `HpackForms.FormDecodes` | src/http2/hpack.cpp:226-303 | each representation of section 6 of RFC 7541, with names by index or spelled out and strings plain or Huffman coded, is read with the fields and tables it is to mean, or refused, whatever follows it |
| `HpackForms.BlockHasItsMeaning` | src/http2/hpack.cpp:220-307 | so a block of any sequence of representations, from any table state, gives exactly the fields, success and tables it is to mean |
| `HpackForms.HeaderListRoundTrip` | src/http2/hpack.cpp:220-370 | decoding an encoded list returns the list for all byte strings, from any table state, and leaves the tables unchanged |
| `RouteTrie.ReachUnique` | src/router/route.cpp:24-52 | every node is reached by one path of segments only |
| `RouteTrie.ReachKept` | src/router/route.cpp:54-81 | what leads to a node before a registration leads to it afterwards |
| `Router.Routes.FindStaticChild` | src/router/route.cpp:14-22 | binary search finds what linear search over the children finds |
| `Router.Routes.FindOrCreateStaticChild` | src/router/route.cpp:24-34 | finds or adds exactly one step, keeping the children strictly sorted |
| `Router.Routes.FindOrCreateParamChild` | src/router/route.cpp:36-45 | finds or adds exactly one step, keeping parameter names unique |
| `Router.Routes.FindOrCreateWildcardChild` | src/router/route.cpp:47-52 | finds or adds the wildcard step |
| `Router.Routes.Child` | src/router/route.cpp:54-81 | exactly the prefixes of the path become reachable, the path leads to the returned node, and repeating it changes nothing |
| `Router.Routes.SetPredicate` | src/router/route.cpp:203-207 | sets the predicate where the path leads and moves no step |
| `Router.Routes.SetCapture` | include/nhttp/router/route.hpp:33-41 | the capture is looked up afterwards, all others as before |
| `Router.Routes.Match` | src/router/route.cpp:83-147 | returns the node, captures and depth of the picked branch; without one, nothing, with the depth one higher |
| `Router.Routes.MatchParams` | src/router/route.cpp:114-132 | among the parameter children, the first of the deepest, each tried on its own copy of the state |
| `RouteMatch.PickIsPreferred` | src/router/route.cpp:83-147 | a path matches if and only if some branch consumes it, and the branch taken is the one the documented preference singles out at every level: static, then deepest and first-registered parameter, then wildcard |
| `RouteMatch.CapturesAreBindings` | src/router/route.cpp:122-143 | captures are exactly those of the chosen branch, the last of equal names, on top of what was there |
| `RouteMatch.LookupPut` | include/nhttp/router/route.hpp:33-50 | the capture list behaves as a map |
| `RouteMatch.LiteralPathMatches` | src/router/route.cpp:96-104 | a literal path that is registered matches exactly its node and captures nothing |
| `RouteMatch.LiteralPathStaysMatched` | src/router/route.cpp:54-104 | whatever else is registered later, on any node and in any order |
| `RouteMatch.DepthIgnoresParamOrder` | src/router/route.cpp:118-132 | whether a path matches, and how deep, does not depend on the order of parameter children anywhere |
| `RouteMatch.RegistrationOrderIrrelevant` | src/router/route.cpp:54-147 | routers given the same paths in any order match the same requests to the same depth |
| `Multipart.Reader.EnsureDelimiterOrEof` | src/protocol/http_multipart.cpp:86-102 | finds the first marker of the remaining input, or that there is none |
| `Multipart.Reader.ReadPartBody` | src/protocol/http_multipart.cpp:126-172 | for every source chunking and size: the next bytes before the first marker, none exactly at their end; during the call the buffer never exceeds the larger of its size at entry and marker length + 4096; a read of zero bytes gives up the part |
| `Multipart.Reader.SkipPart` | src/protocol/http_multipart.cpp:178-185 | passes over exactly the rest of the body |
| `Multipart.Reader.NextPart` | src/protocol/http_multipart.cpp:174-230 | the next part of the remaining input as the whole-input function gives it, or none from then on |
| `Multipart.Reader.ReadHeaderLines` | src/protocol/http_multipart.cpp:207-224 | the header lines up to the empty one, or failure at the end of the input |
| `Multipart.ReadsMakeTheBody` | src/protocol/http_multipart.cpp:126-172 | whatever sizes are asked for, the pieces concatenate to the bytes before the marker |
| `Multipart.SkippingIsReading` | src/protocol/http_multipart.cpp:178-192 | however much of a part was read, the next part is the same |
| `Multipart.PartsOfWire` | src/protocol/http_multipart.cpp:60-230 | parts written with a boundary that does not occur in them come back with their header lines and bodies, whatever follows |
| `Chunked.FormatChunkHeader` | src/protocol/http_chunked.cpp:8-25 | the digits built backwards and reversed are the hexadecimal size |
| `Chunked.HexRoundTrip` | src/protocol/http_chunked.cpp:8-25 | that size reads back, for every number |
| `Chunked.SizeExactIffFits` | src/protocol/http_chunked.cpp:78-91 | a size is read back exactly if and only if it is below 2^64 |
| `Chunked.Decoder.ParseSize` | src/protocol/http_chunked.cpp:78-96 | the value of the leading digits, reduced to 64 bits, or nothing |
| `Chunked.Decoder.BeginNextChunk` | src/protocol/http_chunked.cpp:70-113 | moves to the next chunk without changing what is still to be delivered |
| `Chunked.Decoder.SkipTrailers` | src/protocol/http_chunked.cpp:98-104 | passes over the trailers and the empty line after them |
| `Chunked.Decoder.Read` | src/protocol/http_chunked.cpp:115-157 | for every source chunking and size: the next bytes of the body, none exactly at its end and from then on; a read of zero bytes ends the body |
| `Chunked.ChunkedRoundTrip` | src/protocol/http_chunked.cpp:70-157 | any chunking of the data, with extensions, trailers and other messages after it, decodes to the data |
| `Chunked.WriteChunkedBody` | src/server/http1_io.cpp:138-152 | whatever pieces the body comes in, what is sent decodes to the body |
| `Http1.ReadHeaderFields` | src/protocol/http_header.cpp:38-77 | name and trimmed value of a line, or failure |
| `Http1.Connection.ReadLine` | src/server/connection.cpp:27-45 | a line of the input; gives up early only if the line is over the limit |
| `Http1.Connection.ReadHeaders` | src/server/http1_io.cpp:37-74 | the header block of the input; gives up early only if a line is over the limit |
| `Http1.Connection.ReadBody` | src/io/range_stream.cpp:78-94 | the next bytes of the body, never beyond its end |
| `Http1.Connection.ReadBuffered` | include/nhttp/server/http1_io.hpp:35-44 | what is buffered comes first, then the wire, without losing or repeating a byte |
| `Http1.Connection.Serve` | src/server/connection.cpp:150-156 | whatever the handler reads, the body is passed over exactly |
| `Http1.Connection.Run` | src/server/connection.cpp:127-164 | for every wire chunking and every handler, the requests seen are those of the whole input, up to the first over-long line |
| `Http1.RequestsOfWire` | src/server/connection.cpp:127-164 | well-formed requests sent one after the other are exactly the requests served, up to and including the first that ends the connection |
| `Http1.WireFits` | src/server/connection.cpp:39-40 | requests whose lines are within the limits are never cut short |
| `WebSocket.MaskedTwice` | src/ws/connection.cpp:99-102 | unmasking inverts masking for every key |
| `WebSocket.Unmask` | src/ws/connection.cpp:99-102 | the in-place loop masks the whole payload |
| `WebSocket.FrameRoundTrip` | src/ws/connection.cpp:46-139 | reading a written frame returns fin, opcode and payload across all three length forms, masked or not, whatever follows |
| `WebSocket.Connection.ReadFrame` | src/ws/connection.cpp:46-106 | the first frame of the input, however its bytes arrive, or none |
| `WebSocket.Connection.WriteFrame` | src/ws/connection.cpp:116-139 | appends exactly one frame to the wire |
| `WebSocket.Connection.Receive` | src/ws/connection.cpp:141-194 | message, replies and closing as the whole-input function gives them; at most one close frame is ever sent |
| `WebSocket.Connection.Close` | src/ws/connection.cpp:204-215 | one close frame unless already closed, keeping that invariant |
| `WebSocket.Connection.SendText` | src/ws/connection.cpp:196-198 | one text frame, keeping that invariant |
| `WebSocket.Connection.SendBinary` | src/ws/connection.cpp:200-202 | one binary frame, keeping that invariant |
| `WebSocket.FragmentationIsInvisible` | src/ws/connection.cpp:141-194 | any fragmentation of a message, with pings and pongs in between and any masks, gives the same message, and the pongs echo the pings in order |
| `FileMapping.Mapping.EnsureWindow` | src/platform/posix/file_mapping.cpp:99-116 | a result shows exactly the requested bytes of the file; the window stays aligned and inside it, and is replaced only if it does not cover the request |
| `FileMapping.Mapping.Remap` | src/platform/posix/file_mapping.cpp:83-97 | replaces the window, or leaves it alone when mapping fails |
| `FileMapping.LargerThanCapacityIff` | src/platform/posix/file_mapping.cpp:106-110 | a window exceeds its capacity if and only if the request, counted from its page, does |
| `FileMapping.WholeFileExceedsCapacity` | src/platform/posix/file_mapping.cpp:106-110 | a request for all of a file larger than the capacity maps all of it |
| `FileMapping.FileStream.Read` | src/io/file_stream.cpp:142-217 | reads as from one flat byte array, mapped or not, also after seeks made before mapping |
| `FileMapping.FileStream.Seek` | src/io/file_stream.cpp:85-131 | seeks inside the file behave alike mapped and unmapped; the two differ exactly beyond its end |
| `FileMapping.SequentialRemapBound` | src/platform/posix/file_mapping.cpp:99-116 | sequential reads of at most n bytes remap at most 1 + S / (4 MiB - page - n) times for S bytes, whatever was mapped before |
| `PluginScope.Request.Handle` | src/plugin/plugin_scope.cpp:8-42 | one scope's calls are bracketed, and its outcome is the target's response or the earliest exception |
| `PluginScope.Request.Invoke` | src/router/middleware.cpp:17-27 | the same for a stack of scopes of any height |
| `PluginScope.RunIsWellNested` | src/plugin/plugin_scope.cpp:8-42 | ends match the begins that succeeded, innermost first, and none stays open |
| `PluginScope.EveryBeginHasItsEnd` | src/plugin/plugin_scope.cpp:8-42 | each successful begin has exactly one end, a failed one none; the target runs, once, if and only if all begins succeeded |

## Left out

- Sockets, reactors, TLS and the Windows variants: calls into the system whose effect the code does not show.
- Coroutine frames and the scheduler: suspension points are step boundaries.
- Weaker memory orders and 64-bit wrap-around of queue positions in the ring.
- The ring, the pool, the writer lock and the flow-control coroutines are modelled on values, as transition systems: in-place update of the cells shows only through the steps.
- The contents of the HPACK static table: the decoder is proved for every table of 61 entries.
- Pseudo-header handling in `finish_header_block`: a request carries the decoded header list.
- SETTINGS, PING, GOAWAY and WINDOW_UPDATE payload codecs, PRIORITY and push: one-branch claims. In the frame loop GOAWAY ends it, and the others are taken to be well formed.
- SETTINGS changes of the initial window take effect for new streams only, as in the code; only the frame-size change is a step.
- Method tables, middlewares other than plugin scopes, groups and the router's response codes.
- Http1.Connection.Run: stops at a request with chunked transfer coding, because that decoder takes bytes beyond its body from the connection; it also leaves out writing the response, the 400 answers and upgrades.
- Http1.ReadHeaderFields: path decoding, the query string and the host name are not derived from the head.
- Content-Length values are unbounded; the code's signed overflow beyond 2^63 is not modelled.
- Multipart.Reader.ReadHeaderLines: returns the lines; splitting them into names and values is not repeated there.
- WebSocket.Connection.Receive: concurrent senders on one connection are not modelled.
- The handshake of WebSocket connections, dates, SHA-1, base64, MIME and status tables, byte ranges, virtual hosts, overlays, the reverse proxy and the listener.
- FileMapping.FileStream.Read: when the system refuses a mapping it returns nothing, and the contract says so; writing and closing are not modelled.
