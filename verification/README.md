# Muxio, modelled in Dafny

Muxio multiplexes remote procedure calls over one byte connection. This project models its wire
stack, from bytes to completed calls, and proves what the stack promises about whole runs: however
frames are interleaved and reordered and however their bytes are cut, every stream is reassembled,
every request is served once as it was made, and every call returns what the handler of the other
side computes from its arguments.

`dafny verify dfyconfig.toml` checks the whole project.

## Layers

| module | models |
|---|---|
| `Bytes`, `Sequences` | machine integers, little-endian numbers, selection by key |
| `Lanes` | machines that keep one independent state per key, and non-interference for all of them |
| `FrameCodec` | the 13-byte frame header and its codec |
| `FrameEncoder` | the encoder that cuts a stream into sequenced frames |
| `FrameMux`, `InOrder` | the multiplexing decoder; reassembly of streams that arrive out of order |
| `Transfer` | encoders and decoder together |
| `RpcStream` | the RPC header, its encoder and the stream decoder |
| `Session` | one RPC decoder per stream over the frame decoder |
| `Cancellation` | a message cancelled at any point, from its encoder to the session that reads it |
| `Splits` | which reads of a session fail, and when a split of the bytes shows |
| `IdBits`, `Ids` | the id counter and the split of the ids between the two ends |
| `Routing`, `Lifecycle` | response handlers, prebuffering, the catch-all; the life of a handler over whole runs |
| `Inbox`, `Dispatcher` | the queue of inbound requests; the respondable session and the dispatcher |
| `Service`, `Responder` | arguments, handlers, answers, the caller's receiver; streaming responses |
| `Link` | one direction of a connection, request by request |
| `Peer`, `Network` | two peers that call each other, all runs they can have, and the end-to-end theorems |
| `RoundTrip` | any requests, finalized at once or streamed, from dispatcher to dispatcher |
| `Disconnection` | losing the connection in the middle of a run |
| `Progress` | from every reachable state, every call can still complete |
| `PeerObjects` | the dispatcher objects refine the peers of the network |

Objects that the source updates in place (encoders, decoders, sessions, dispatcher, receiver,
responder, id counter) are classes. Their methods are proved against step functions on values, and
the theorems are about those functions. The network theorems reach the objects through
`PeerObjects`: a dispatcher object stands for a peer, and each receiver object for what its call has
received.

## Conventions

- A callback is a token; the model records every call of it in order. The handlers of a batch are
  called after the frames of the batch are decoded. They cannot influence the decoding, so the order
  of calls is that of the source.
- `u32` counters wrap, as in a release build. `usize` has 64 bits.
- The traversal order of a hash map is arbitrary: `FailAllPendingRequests` returns the order it took,
  of which only that it enumerates the entries is known.
- Two dispatchers of opposite halves are connected, as the WebSocket and IPC servers connect them.
- A handler is known by its token. What a call receives is what the handler with the token of that
  call was called with.
- What the code demands is demanded: a positive chunk size for writing, fewer than 2^32 frames on a
  stream whose reassembly is claimed and fewer than 2^32 bytes in each, fewer than 2^31 ids drawn
  while old ids are in use. Payloads of 2^32 bytes and metadata of 2^16 bytes or more are cut by
  casts; `DecodeEncode` and `HeaderRoundTrip` state the exact conditions.

Where the documentation of the repository and its code disagree, the model follows the code:

- README.md:43 announces 17 bytes per frame with a timestamp; the header has 13 bytes and no
  timestamp (core/src/constants.rs:2-6).
- core/src/rpc/rpc_internals/rpc_respondable_session.rs:92-97 says the stream router is asked when no
  handler exists yet; it is asked on every header and replaces the handler that is there (lines 120-129).
- A stream is never kept with its cancelled flag set, so frames after a cancel start a new
  reassembly instead of being reported (core/src/frame/frame_mux_stream_decoder.rs:104-121).

Not every split of the bytes is invisible to a session: a read that fails drops the rest of its
slice. `ReadFailsIff` says which reads fail, `SplitInvisibleIff` gives the exact condition under which
the split does not show, and `SplitCanShow` an input for which it does. `SlicesAreOne` shows that it
never does for complete messages.

## Model

| member | source | states |
|---|---|---|
| `FrameCodec.EncodeFrame` | core/src/frame/frame_codec.rs:34-47 | the buffer built field by field is 13 bytes longer than the payload, and decoding it gives the frame back if and only if the payload is shorter than 2^32 bytes or the frame is a cancel frame |
| `FrameCodec.DecodeEncode` | core/src/frame/frame_codec.rs:34-118 | decoding an encoded frame followed by any bytes gives the frame (a cancel frame without its payload) if and only if the cast of the payload length to 32 bits loses nothing that matters |
| `FrameCodec.EncodeDecode` | core/src/frame/frame_codec.rs:67-118 | a buffer that decodes is the encoding of its frame if and only if nothing follows the frame and its kind byte is not that of a cancel frame with a payload |
| `FrameCodec.HeaderFields` | core/src/frame/frame_codec.rs:67-118 | every field of the 13-byte little-endian header, and the payload, is read back from its place whatever follows the frame |
| `FrameCodec.KindRoundTrip` | core/src/frame/frame_kind.rs:5-28 | kinds and the bytes 0 to 5 correspond one to one, and no other byte is a kind |
| `FrameCodec.WireLayout` | core/src/frame/frame_codec.rs:34-47 | an encoded frame byte by byte, with literal offsets and kind bytes: length, stream id and sequence id in four bytes each, least significant first, the kind, the payload |
| `FrameCodec.DecodeFailsIff` | core/src/frame/frame_codec.rs:67-118 | decoding fails if and only if the buffer ends before its frame does or the kind byte is 6 or more, with the error for it |
| `Bytes.LERoundTrip` | core/src/frame/frame_codec.rs:34-47 | a number that fits in k bytes survives being written and read little-endian |
| `Bytes.LECanonical` | core/src/frame/frame_codec.rs:67-118 | every byte string is the little-endian encoding of the number it is read as |
| `Bytes.LEDigit` | core/src/frame/frame_codec.rs:34-47 | byte number i of a number written little-endian is its digit number i in base 256 |
| `Lanes.NonInterference` | core/src/frame/frame_mux_stream_decoder.rs:94-147 | for any machine that keeps one state per key, over every input sequence, what is stored and output for a key is what the machine does with the inputs of that key alone (instantiated for frame streams, RPC streams and request ids) |
| `FrameMux.StreamsDoNotInterfere` | core/src/frame/frame_mux_stream_decoder.rs:94-147 | for every frame sequence - cancels, duplicates and malformed orders included - the output of a stream and its stored state are those of a decoder fed only that stream |
| `FrameMux.ReadKeepsValid` | core/src/frame/frame_mux_stream_decoder.rs:104-121 | from every state reachable by reading, no stored stream is cancelled (so the branch that tests the flag is dead) and every buffered frame is filed under its own stream and sequence id |
| `FrameMux.ParseAppend` | core/src/frame/frame_mux_stream_decoder.rs:70-92 | cutting the input anywhere finds the same frames and leaves the same unread bytes |
| `FrameMux.SplitInvariance` | core/src/frame/frame_mux_stream_decoder.rs:70-157 | from any state, reading a and then b gives the results and the final state of reading a + b, and never leaves a complete frame undecoded |
| `FrameMux.SlicesInvariance` | core/src/frame/frame_mux_stream_decoder.rs:70-157 | any slicing of a byte string is as good as reading it in one piece |
| `FrameMux.Resynchronisation` | core/src/frame/frame_mux_stream_decoder.rs:74-99 | from any frame boundary a complete frame with an unknown kind costs exactly one error; state and all other results are those of the input without it |
| `FrameMux.NoIncompleteHeader` | core/src/frame/frame_mux_stream_decoder.rs:148-152 | the only error the decoder ever reports is a corrupt frame; the incomplete-header branch is never taken |
| `FrameMux.FlushExact` | core/src/frame/frame_mux_stream_decoder.rs:139-142 | draining hands out exactly the run of buffered frames from the expected one on, numbered modulo 2^32, keeps exactly the others, and stops where the next one is missing |
| `FrameMux.FrameAccepted` | core/src/frame/frame_mux_stream_decoder.rs:123-146 | a frame other than a cancel, in any state of its stream: it replaces a frame with its number, the run from the expected one on comes out, and the stream is forgotten exactly when an end frame has come and nothing is left |
| `FrameMux.CancelAccepted` | core/src/frame/frame_mux_stream_decoder.rs:112-121 | a cancel frame, in any state of its stream, comes out at once with the error that marks it, and everything held for the stream is dropped |
| `FrameMux.FrameMuxStreamDecoder.constructor` | core/src/frame/frame_mux_stream_decoder.rs:62-67 | a new decoder is in the empty state |
| `FrameMux.FrameMuxStreamDecoder.ReadBytes` | core/src/frame/frame_mux_stream_decoder.rs:70-157 | the two nested loops compute exactly the results and the state of the specification `Read` |
| `FrameMux.FrameMuxStreamDecoder.TakeFrame` | core/src/frame/frame_mux_stream_decoder.rs:94-153 | one turn of the outer loop consumes one frame and does what the specification does with it |
| `FrameMux.FrameMuxStreamDecoder.Accept` | core/src/frame/frame_mux_stream_decoder.rs:96-146 | a decoded frame changes only the state of its own stream, as the lane machine does |
| `FrameMux.FrameMuxStreamDecoder.DrainInOrder` | core/src/frame/frame_mux_stream_decoder.rs:139-142 | the drain loop hands out exactly the run of buffered frames that starts at the expected one, and stops at a gap |
| `InOrder.ReceiveOne` | core/src/frame/frame_mux_stream_decoder.rs:123-146 | a frame of a well-formed stream that arrives in any state of its reassembly releases exactly the frames between the old and the new first gap |
| `InOrder.MaximalPrefix` | core/src/frame/frame_mux_stream_decoder.rs:123-146 | at every point of the arrival of a stream in any order, the frames emitted are exactly those before the least missing sequence id, and the reorder buffer holds exactly the other ones received |
| `InOrder.AllArrived` | core/src/frame/frame_mux_stream_decoder.rs:123-146 | once all frames of a stream have arrived it has been emitted whole and in order, and an ended stream is forgotten |
| `InOrder.PermutationReassembles` | core/src/frame/frame_mux_stream_decoder.rs:94-147 | every permutation of the frames of any number of ended streams emits each stream once and in order, and leaves no stream behind |
| `InOrder.SlicesReassemble` | core/src/frame/frame_mux_stream_decoder.rs:70-157 | the same from bytes: whatever the permutation and the slicing, each stream comes out once and in order and the decoder is left empty |
| `FrameEncoder.WriteCanonical` | core/src/frame/frame_stream_encoder.rs:62-89 | writing a and then b emits the same frames, leaves the same state and reports the same number of bytes as writing a + b |
| `FrameEncoder.RunLaw` | core/src/frame/frame_stream_encoder.rs:46-160 | over any run of writes, flushes, ends and cancels: frames are numbered in order, open comes before data, chunks are within the limit, at most one terminal frame comes last, payloads and buffer together are exactly the bytes accepted, and the returned counts add up to the bytes on the wire |
| `FrameEncoder.FlushEndCompletes` | core/src/frame/frame_stream_encoder.rs:62-138 | any series of writes and flushes closed by flush and end puts on the wire one complete sequenced stream that carries exactly the bytes written, with an empty end frame |
| `FrameEncoder.OpenLaw` | core/src/frame/frame_stream_encoder.rs:62-116 | any series of writes and flushes leaves the stream open, and frames and buffer together hold exactly what was written |
| `FrameEncoder.CloseFrames` | core/src/frame/frame_stream_encoder.rs:119-160 | an end puts what is left in the buffer into one end frame; a cancel drops it and puts one empty cancel frame on the wire |
| `FrameEncoder.RefusedIff` | core/src/frame/frame_stream_encoder.rs:46-160 | over any run, an operation is refused if and only if the last frame emitted is an end or a cancel, with the reason for that frame, and then it changes nothing |
| `FrameEncoder.FrameStreamEncoder.constructor` | core/src/frame/frame_stream_encoder.rs:33-44 | a new encoder is open, empty and has emitted nothing |
| `FrameEncoder.FrameStreamEncoder.EmitFrame` | core/src/frame/frame_stream_encoder.rs:46-58 | a closed encoder refuses with the reason and emits nothing; an open one emits the encoding and reports its size |
| `FrameEncoder.FrameStreamEncoder.WriteBytes` | core/src/frame/frame_stream_encoder.rs:62-89 | the chunking loop emits the frames, leaves the state and returns the count or refusal of the specification |
| `FrameEncoder.FrameStreamEncoder.FlushBuffer` | core/src/frame/frame_stream_encoder.rs:92-116 | emits the buffer, if there is any, as one frame, or refuses |
| `FrameEncoder.FrameStreamEncoder.End` | core/src/frame/frame_stream_encoder.rs:119-138 | emits one end frame with what is left in the buffer and closes the stream, or refuses |
| `FrameEncoder.FrameStreamEncoder.Cancel` | core/src/frame/frame_stream_encoder.rs:141-160 | emits one empty cancel frame and closes the stream, or refuses |
| `Transfer.FinishedStream` | core/src/frame/frame_stream_encoder.rs:62-138 | a stream that was ended, whatever was done before and after, is sequenced and ended and its payloads are exactly the bytes accepted |
| `Transfer.StreamsTransfer` | core/src/frame/frame_mux_stream_decoder.rs:70-157 | any number of encoders that ended, their frames permuted and the bytes cut anyhow: the decoder hands out each stream once and in order, with payloads equal to the bytes its encoder accepted, and is left empty |
| `RpcStream.RpcStreamEncoder.constructor` | core/src/rpc/rpc_internals/rpc_stream_encoder.rs:18-43 | a new RPC stream has written exactly the header and its metadata |
| `RpcStream.RpcStreamEncoder.WriteBytes` | core/src/rpc/rpc_internals/rpc_stream_encoder.rs:49-51 | has the effect and the outcome of writing to the frame encoder |
| `RpcStream.RpcStreamEncoder.FlushBuffer` | core/src/rpc/rpc_internals/rpc_stream_encoder.rs:53-55 | has the effect and the outcome of flushing the frame encoder |
| `RpcStream.RpcStreamEncoder.End` | core/src/rpc/rpc_internals/rpc_stream_encoder.rs:61-63 | has the effect and the outcome of ending the frame encoder |
| `RpcStream.HeaderLayout` | core/src/rpc/rpc_internals/rpc_stream_encoder.rs:24-42 | every field of the 15-byte header, the metadata and the bytes behind it are read back from their places |
| `RpcStream.HeaderWire` | core/src/rpc/rpc_internals/rpc_stream_encoder.rs:24-42 | the header byte by byte, with literal offsets and type bytes: type, request id, method id and metadata length, least significant byte first, and the metadata |
| `RpcStream.HeaderRoundTrip` | core/src/rpc/rpc_internals/rpc_stream_decoder.rs:60-146 | a header with any bytes behind it is decoded as it was sent if and only if its metadata is shorter than 2^16 bytes |
| `RpcStream.RpcStreamDecoder.DecodeRpcFrame` | core/src/rpc/rpc_internals/rpc_stream_decoder.rs:53-184 | the state machine that changes its fields frame by frame computes the specification: new state, events or error |
| `RpcStream.StepInv` | core/src/rpc/rpc_internals/rpc_stream_decoder.rs:53-184 | in every state it can be in, the decoder fails if and only if it gets a cancel frame in the middle of a message or a header with an unknown type, with the error for it: the branches for a missing header or id are unreachable |
| `RpcStream.SilentIff` | core/src/rpc/rpc_internals/rpc_stream_decoder.rs:60-146 | a decoder says nothing if and only if the header is incomplete with the new frame, and then it has only taken the bytes in |
| `RpcStream.EventGrammar` | core/src/rpc/rpc_internals/rpc_stream_decoder.rs:53-184 | whatever frames a decoder is fed, its events are a prefix of one header, chunks and one end, all with the same header and ids |
| `RpcStream.DecodeMore` | core/src/rpc/rpc_internals/rpc_stream_decoder.rs:60-178 | however header, metadata and payload are cut into frames, the decoder after any part of a message is in the state that the bytes received so far determine, and each frame tells exactly what it adds |
| `RpcStream.PayloadFrames` | core/src/rpc/rpc_internals/rpc_stream_decoder.rs:147-178 | in the middle of a message an end frame tells the end and nothing else, whatever it carries, and any other frame but a cancel tells its payload |
| `Session.RpcStreamRoundTrip` | core/src/rpc/rpc_internals/rpc_stream_decoder.rs:53-184 | for every header with metadata below 2^16 bytes, every positive chunk size and every series of writes and flushes closed by flush and end: one header equal to the one sent, chunks that concatenate to the data written, one end, and the decoder is dropped |
| `Session.ReadKeepsValid` | core/src/rpc/rpc_internals/rpc_session.rs:65-115 | after any reads whatsoever no stored decoder is done, and one that awaits payload has its header and ids and an empty buffer |
| `Session.ErrorsAreAnonymous` | core/src/rpc/rpc_internals/rpc_session.rs:82-112 | no error event of a session names a request |
| `Session.SplitAfterSuccess` | core/src/rpc/rpc_internals/rpc_session.rs:63-117 | from any state: if reading a succeeds, reading a and b apart gives the events, state and outcome of a + b; if it fails, a + b tells just what a tells and b is consumed and dropped |
| `Splits.ReadFailsIff` | core/src/rpc/rpc_internals/rpc_session.rs:65-117 | from every reachable state a read fails if and only if one of its frames is refused by the decoder that the frames before it leave to its stream |
| `Splits.ProcessFailsIff` | core/src/rpc/rpc_internals/rpc_session.rs:65-117 | a batch without a refused frame is processed to its end, and any other one up to and including the first refused frame, which decides what decoders are left |
| `Splits.UnnoticedIff` | core/src/rpc/rpc_internals/rpc_session.rs:65-117 | a batch tells nothing and changes no decoder if and only if the header of its stream is still incomplete with every frame of it, and every stream ends up holding back the bytes it held back before |
| `Splits.SplitInvisibleIff` | core/src/rpc/rpc_internals/rpc_session.rs:63-117 | from every reachable state, reading a and then b is the same as reading a + b if and only if no frame of a is refused, or behind the first refused one the frames of b would go unnoticed |
| `Splits.SplitCanShow` | core/src/rpc/rpc_internals/rpc_session.rs:82-112 | a concrete input for which the split shows: a frame with an unknown message type, then one with an unknown kind |
| `Session.SessionLane` | core/src/rpc/rpc_internals/rpc_session.rs:65-115 | over all frames of a batch that does not fail, what is told for a stream and the decoder kept for it depend on that stream alone |
| `Session.DroppedDecoders` | core/src/rpc/rpc_internals/rpc_session.rs:66-114 | in every reachable state: a frame that its decoder refuses is reported once, with the cause and without naming a request, and its decoder is dropped; every end or cancel frame drops the decoder of its stream |
| `Cancellation.EncoderCancels` | core/src/frame/frame_stream_encoder.rs:141-160 | a message that is cancelled at any point puts on the wire frames that carry a prefix of its bytes and then one cancel frame |
| `Cancellation.CancelledLane` | core/src/rpc/rpc_internals/rpc_session.rs:66-114 | across encoder, frame decoder and session, through the lane of the stream: however the frames of the cancelled message were permuted, it is told as far as it came and never to an end, the cancel is reported if and only if the header had arrived, and neither layer keeps anything |
| `Cancellation.CancelledStream` | core/src/rpc/rpc_internals/rpc_session.rs:55-118 | the same of a session that reads all its bytes at once: the read fails with the cancel if and only if the header was complete, no end is told, and the session is back in its initial state |
| `Link.SlicesAreOne` | core/src/rpc/rpc_internals/rpc_session.rs:55-118 | complete messages on distinct streams, permuted and partly delivered: however the bytes are cut into reads, every read succeeds, and state and events are those of one single read |
| `Link.SlicesTell` | core/src/rpc/rpc_internals/rpc_session.rs:55-118 | for any permutation and any series of reads: each stream has been told a prefix of its message and nothing else; a decoder is kept only for a stream that the frame decoder keeps; once all is delivered every message is told to its end and the session is back in its initial state |
| `Session.RpcSession.constructor` | core/src/rpc/rpc_internals/rpc_session.rs:28-35 | a new session is empty and has drawn one stream id ahead |
| `Session.RpcSession.InitRequest` | core/src/rpc/rpc_internals/rpc_session.rs:37-52 | the stream uses the id drawn ahead, placed in the half of the session, another one is drawn, and the header has been written |
| `Session.RpcSession.ReadBytes` | core/src/rpc/rpc_internals/rpc_session.rs:55-118 | the loop over frame results gives the events, the state and the error of the specification, and stops at the first decoder failure |
| `Session.RpcSession.ProcessResults` | core/src/rpc/rpc_internals/rpc_session.rs:65-117 | the loop over the results has processed exactly those up to and including the first failure |
| `Session.RpcSession.OneResult` | core/src/rpc/rpc_internals/rpc_session.rs:66-114 | one result changes only the decoder of its stream, which is dropped on an end event, an end or cancel frame, or a failure |
| `Ids.PlaceIsPlaceBits` | core/src/utils/id_space.rs:22-35 | masking and marking a 32-bit word is keeping its low 31 bits and adding 2^31 on the server side |
| `Ids.IdCounter.constructor` | core/src/utils/increment_u32_id.rs:5-5 | the counter starts with no draws |
| `Ids.IdCounter.Increment` | core/src/utils/increment_u32_id.rs:8-10 | draw number n gives n modulo 2^32, whatever the 64-bit counter does |
| `Ids.EarlyDraws` | core/src/utils/increment_u32_id.rs:5-10 | the first 2^32 draws are the numbers from 0 on |
| `Ids.IdsCollideOnlyAfterHalf` | core/src/utils/id_space.rs:33-35 | two drawn and placed ids are equal if and only if they are in the same half and a multiple of 2^31 draws apart |
| `Ids.FreshWithinHalf` | core/src/utils/increment_u32_id.rs:8-10 | ids drawn fewer than 2^31 draws apart are distinct |
| `Routing.RequestsDoNotInterfere` | core/src/rpc/rpc_internals/rpc_respondable_session.rs:114-212 | for every sequence of registrations and events, what is kept for a request and who is called for it depends on the inputs of that request alone |
| `Routing.PrebufferingRefinesStreaming` | core/src/rpc/rpc_internals/rpc_respondable_session.rs:147-202 | in the middle of any other traffic, a prebuffering handler sees the header, one chunk and the end, where the chunk is the concatenation of the chunks a streaming handler sees, behind the bytes that an unfinished earlier response has left under the same id, if any; in both cases nothing stays behind |
| `Routing.StreamedCalls` | core/src/rpc/rpc_internals/rpc_respondable_session.rs:189-206 | a streaming handler sees the response event by event and the catch-all sees none of it |
| `Routing.PrebufferedCalls` | core/src/rpc/rpc_internals/rpc_respondable_session.rs:147-206 | a prebuffering handler sees one chunk, while the catch-all also sees every event of the response |
| `Routing.ClaimedCalls` | core/src/rpc/rpc_internals/rpc_respondable_session.rs:120-192 | among any traffic, a request that the stream router claims at its header has every event of it told to the handler that the router gave, and to nobody else, and nothing stays behind |
| `Routing.ClaimedWhilePrebuffering` | core/src/rpc/rpc_internals/rpc_respondable_session.rs:120-202 | if a flag to prebuffer is left under the id of a claimed request, the handler of the router gets one chunk, behind what was left, and the catch-all every event |
| `Routing.UnhandledResponse` | core/src/rpc/rpc_internals/rpc_respondable_session.rs:61-75 | a request initiated without a handler, to be prebuffered or not, has its response told to the catch-all alone, and nothing stays behind |
| `Routing.EarlierHandlerCalled` | core/src/rpc/rpc_internals/rpc_respondable_session.rs:61-75 | a request initiated again without a handler leaves the earlier handler in place, which then gets the whole response |
| `Routing.ErrorsReach` | core/src/rpc/rpc_internals/rpc_respondable_session.rs:147-206 | an error that names a request removes it; it is told to the handler, or to the catch-all if there is none or the request is prebuffered |
| `Routing.UnclaimedMore` | core/src/rpc/rpc_internals/rpc_respondable_session.rs:131-206 | events of a request for which nothing is kept, and that no router claims, all go to the catch-all and to nobody else |
| `Dispatcher.RpcRespondableSession.constructor` | core/src/rpc/rpc_internals/rpc_respondable_session.rs:37-46 | a new session has no handlers, flags or buffers |
| `Dispatcher.RpcRespondableSession.InitRespondableRequest` | core/src/rpc/rpc_internals/rpc_respondable_session.rs:49-75 | registers flag and handler as the routing machine does, and starts the stream |
| `Dispatcher.RpcRespondableSession.RouteEvent` | core/src/rpc/rpc_internals/rpc_respondable_session.rs:114-208 | the routing closure does one step of the routing machine on the three tables |
| `Dispatcher.RpcRespondableSession.RouteTo` | core/src/rpc/rpc_internals/rpc_respondable_session.rs:131-206 | an event changes only the entries of its own request |
| `Dispatcher.RpcRespondableSession.PrebufferEvent` | core/src/rpc/rpc_internals/rpc_respondable_session.rs:151-188 | the accumulator does what the specification says with flag and buffer, and calls the handler with it |
| `Dispatcher.RpcRespondableSession.ReadBytes` | core/src/rpc/rpc_internals/rpc_respondable_session.rs:114-212 | the new session state, tables and callback calls are those of the session followed by the routing machine |
| `Dispatcher.RpcRespondableSession.RouteEvents` | core/src/rpc/rpc_internals/rpc_respondable_session.rs:114-212 | the events of a batch are routed in order |
| `Lifecycle.HandlersEndOnce` | core/src/rpc/rpc_internals/rpc_respondable_session.rs:61-75 | over any run of registrations, events and disconnects - ids reused, routers matching, malformed events - every handler is called with at most one terminal event and nothing after it |
| `Lifecycle.FailAllNotifies` | core/src/rpc/rpc_dispatcher.rs:504-539 | a disconnect calls every pending handler exactly once, with the given cause, and empties all tables, in whatever order the hash map is traversed |
| `Lifecycle.HandlersAccounted` | core/src/rpc/rpc_internals/rpc_respondable_session.rs:194-202 | over any run with fresh ids, the handlers registered are exactly those pending and those finished, none is both, and buffers exist only for requests flagged to prebuffer |
| `Inbox.QueueProjects` | core/src/rpc/rpc_dispatcher.rs:150-218 | over any events, the entries of a request depend on the events of that request alone |
| `Inbox.ScriptQueued` | core/src/rpc/rpc_dispatcher.rs:150-218 | the events of one message, cut into any chunks, leave exactly one entry: the request it was made from |
| `Inbox.StraysIgnored` | core/src/rpc/rpc_dispatcher.rs:174-240 | chunks and ends of requests that are not in the queue, and all errors, leave the queue as it is |
| `Inbox.RunQueueKeeps` | core/src/rpc/rpc_dispatcher.rs:150-218 | in every queue, whatever events have built it, only the first entry of a request can be finalized |
| `Inbox.HandOutProjects` | extensions/muxio-rpc-service-endpoint/src/endpoint_interface.rs:254-266 | splitting the queue into finalized and other entries can be done request by request |
| `Dispatcher.MessageCompletes` | core/src/rpc/rpc_dispatcher.rs:302-318 | a finalized call or response goes out as one complete stream that carries its header and payload |
| `Dispatcher.UnfinalizedStaysOpen` | core/src/rpc/rpc_dispatcher.rs:302-318 | a message that is not finalized leaves its stream open: no terminal frame, and frames and buffer hold exactly header and payload |
| `Dispatcher.StreamedCompletes` | core/src/rpc/rpc_dispatcher.rs:302-318 | a message that is not finalized, then written to through its encoder and ended, goes out as one complete stream that carries header, payload and all that was written |
| `Dispatcher.CallNames` | core/src/rpc/rpc_dispatcher.rs:282-290 | a call goes out with the type byte of a call, its own id, the method of its request and its parameters as metadata |
| `RoundTrip.CallsHandedOut` | core/src/rpc/rpc_dispatcher.rs:150-218 | any number of calls, finalized at once or streamed through their encoders, with any parameters, payloads and chunk sizes, on distinct streams and ids, permuted and read in any slices with a hand-out after each: exactly one entry per call is handed out, equal to the request made with all that was streamed, up to empty parameters or payload becoming absent; nothing else is handed out, and the queue is empty |
| `RoundTrip.ServeSlices` | extensions/muxio-rpc-service-endpoint/src/endpoint_interface.rs:231-266 | the same of the loop that feeds a dispatcher object slice by slice |
| `Link.HeardOfRequest` | core/src/rpc/rpc_internals/rpc_session.rs:63-117 | at every moment the events heard of a request are a prefix of its message told in order, and all of it once everything is delivered |
| `Link.NothingHeard` | core/src/rpc/rpc_internals/rpc_session.rs:63-117 | no event is ever heard of a request that no message is about |
| `Dispatcher.SendRest` | core/src/rpc/rpc_dispatcher.rs:302-316 | after the header: the payload if there is one, and flush and end exactly if the message is finalized |
| `Dispatcher.RpcDispatcher.constructor` | core/src/rpc/rpc_dispatcher.rs:73-86 | a new dispatcher is empty and has drawn a stream id and then a request id |
| `Dispatcher.RpcDispatcher.Call` | core/src/rpc/rpc_dispatcher.rs:260-319 | uses the ids drawn ahead, draws the next two, registers the handler and sends header, payload and end |
| `Dispatcher.RpcDispatcher.Respond` | core/src/rpc/rpc_dispatcher.rs:331-370 | sends the reply on a new stream, registers no handler and leaves the tables alone |
| `Dispatcher.RpcDispatcher.OnEvent` | core/src/rpc/rpc_dispatcher.rs:129-242 | the catch-all handler does one step of the queue |
| `Dispatcher.RpcDispatcher.ReadBytes` | core/src/rpc/rpc_dispatcher.rs:433-445 | session, tables and queue are those of session, routing machine and queue one after the other; it returns the ids in the queue, or the error that cut the batch short |
| `Dispatcher.RpcDispatcher.Enqueue` | core/src/rpc/rpc_dispatcher.rs:129-242 | the queue takes the catch-all calls of a batch in order |
| `Dispatcher.RpcDispatcher.ActiveIds` | core/src/rpc/rpc_dispatcher.rs:438-444 | one id per entry, in queue order |
| `Dispatcher.RpcDispatcher.Find` | core/src/rpc/rpc_dispatcher.rs:482-491 | the search stops at the first entry of the request, or at the end if there is none |
| `Dispatcher.RpcDispatcher.IsFinalized` | core/src/rpc/rpc_dispatcher.rs:470-476 | the flag of the first entry of the request, or nothing |
| `Dispatcher.RpcDispatcher.Delete` | core/src/rpc/rpc_dispatcher.rs:482-491 | removes and returns the first entry of the request, or changes nothing |
| `Dispatcher.RpcDispatcher.FailAllPendingRequests` | core/src/rpc/rpc_dispatcher.rs:504-539 | tables and queue are emptied, and each handler that was there is called once, in an order that enumerates them |
| `Dispatcher.CallWithError` | core/src/rpc/rpc_dispatcher.rs:523-537 | every handler taken is called exactly once with the cause under its own request id |
| `Service.ArgsArrive` | extensions/muxio-rpc-service-caller/src/prebuffered/traits.rs:58-72 | for arguments of every length the header has room for its metadata, and the arguments that the endpoint takes out of the rebuilt request are those that were put in |
| `Service.ArgsPlaced` | extensions/muxio-rpc-service-caller/src/prebuffered/traits.rs:58-72 | arguments travel as parameters if they are shorter than 2^16 bytes and as payload otherwise, in a finalized request of their method |
| `Service.ArgsSurvive` | extensions/muxio-rpc-service-endpoint/src/endpoint_utils.rs:26-86 | for every request, the trip through the wire does not change what the handler is given: the payload, or the parameters if there is none |
| `Service.AnswerNames` | extensions/muxio-rpc-service-endpoint/src/endpoint_utils.rs:26-86 | every answer is a finalized response that names the request and the method it answers |
| `Service.RunHandlers` | extensions/muxio-rpc-service-endpoint/src/endpoint_interface.rs:275-296 | one answer per request, in order, each the answer of `process_single_prebuffered_request` |
| `Service.DecodeBytes` | extensions/muxio-rpc-service-endpoint/src/endpoint_interface.rs:231-266 | reads the bytes, hands out exactly the finalized requests of the filled queue and keeps exactly the others; if the batch fails it hands out nothing and the queue keeps everything |
| `Service.HandOut` | extensions/muxio-rpc-service-endpoint/src/endpoint_interface.rs:254-266 | although it searches by id in a queue that shrinks under it, the loop hands out every finalized entry exactly once and in order, and leaves exactly the others |
| `Service.SendResponses` | extensions/muxio-rpc-service-endpoint/src/endpoint_interface.rs:300-313 | one complete stream per reply, in order, on consecutively drawn stream ids |
| `Service.CallReceiver.OnEvent` | extensions/muxio-rpc-service-caller/src/caller_interface.rs:123-290 | the receive closure does one step of the receiver specification |
| `Service.Deliver` | extensions/muxio-rpc-service-caller/src/caller_interface.rs:102-291 | every call of a handler feeds the channel of the call it was registered for, in order, and no other |
| `Service.OneErrorAtMost` | extensions/muxio-rpc-service-caller/src/caller_interface.rs:123-290 | for every event sequence at most one error is sent into the channel, as its last item and with the channel closed, and a closed channel never changes |
| `Service.ReceivesScript` | extensions/muxio-rpc-service-caller/src/caller_interface.rs:123-250 | chunks of a success are passed on as they come; chunks of a failure are held back and become one error at the end |
| `Service.SuccessIff` | extensions/muxio-rpc-service-caller/src/caller_interface.rs:123-150 | a response is a success unless its first metadata byte is 1, 2 or 3, which mean failure, system error and method not found |
| `Service.NothingWithoutHeader` | extensions/muxio-rpc-service-caller/src/caller_interface.rs:123-250 | chunks that come before a header are held back, and without a header nothing ever reaches the channel |
| `Service.LatestHeaderDecides` | extensions/muxio-rpc-service-caller/src/caller_interface.rs:123-180 | after any events, a further header decides whether the chunks behind it are passed on |
| `Service.CollectedAll` | extensions/muxio-rpc-service-caller/src/caller_interface.rs:374-399 | a channel without an error is collected to the concatenation of its items |
| `Service.CollectedError` | extensions/muxio-rpc-service-caller/src/caller_interface.rs:374-399 | the first error in a channel is what is collected, whatever is around it |
| `Service.Collect` | extensions/muxio-rpc-service-caller/src/caller_interface.rs:374-399 | the draining loop returns the concatenation of all items if none is an error, and otherwise the first error |
| `Service.ReplyCollected` | extensions/muxio-rpc-service-caller/src/caller_interface.rs:123-250 | a complete reply cut into any chunks is collected whole if it is a success, and is a single error otherwise |
| `Service.AnswerCollected` | extensions/muxio-rpc-service-endpoint/src/endpoint_utils.rs:26-86 | the answer to a request, however it is cut, makes the caller collect exactly the value the handler computed from the arguments, or the literal error code and text for a missing method, a refusal or a crash; the channel is closed, and a failure is its only item |
| `Responder.ResponseWriter.constructor` | core/src/rpc/rpc_dispatcher.rs:380-397 | a new writer uses the stream id drawn ahead, placed in the half of its session, draws the next one, and has written the success header and nothing else |
| `Responder.ResponseWriter.Put` | core/src/rpc/rpc_dispatcher.rs:398-406 | every piece is written and flushed, and the last one ends the stream |
| `Responder.ResponseWriter.PutAll` | extensions/muxio-rpc-service-endpoint/src/endpoint.rs:79-83 | the buffered pieces reach the writer in order |
| `Responder.StreamResponder.constructor` | extensions/muxio-rpc-service-endpoint/src/endpoint.rs:40-46 | a new responder has no writer and no pieces |
| `Responder.StreamResponder.Respond` | extensions/muxio-rpc-service-endpoint/src/endpoint.rs:52-65 | every call reaches the writer, or the buffer if there is no writer yet, in order |
| `Responder.StreamResponder.SetWriter` | extensions/muxio-rpc-service-endpoint/src/endpoint.rs:67-84 | a first writer has seen exactly the calls made so far, in order; one that replaces another has seen none, because none are left in the buffer; from then on it sees the calls that follow |
| `Responder.InstallWriters` | extensions/muxio-rpc-service-endpoint/src/endpoint_interface.rs:238-252 | after a read every waiting responder has a writer of its own, on consecutively drawn stream ids and for its own request, that has seen exactly the calls made so far |
| `Responder.EffectivePieces` | core/src/rpc/rpc_dispatcher.rs:398-406 | once a piece is finalized the stream is complete and later pieces have no effect |
| `Responder.PiecesFlushed` | core/src/rpc/rpc_dispatcher.rs:398-406 | after any pieces, finalized or not, nothing waits in the encoder: the frames emitted carry the header and every piece that has an effect, and the stream is closed exactly if one was finalized |
| `Responder.ResponseArrives` | core/src/rpc/rpc_dispatcher.rs:380-408 | whatever is responded in whatever pieces, among any other messages, permuted and read in any slices: the peer is told of that request alone, a prefix of a response header with status 0, chunks and the end; once everything is delivered, the receiver of the call is closed and collects to everything up to and including the first finalized piece |
| `Peer.NextIdsFresh` | core/src/rpc/rpc_dispatcher.rs:274-275 | as long as fewer than 2^31 ids were drawn, the ids drawn ahead are new and lie in the half of their peer |
| `Peer.ReadKeepsView` | core/src/rpc/rpc_internals/rpc_respondable_session.rs:114-212 | reading any bytes keeps every request in step: a call of the peer has had its handler called with exactly what was heard of it, and any other request is in the queue until its end and then handed out once |
| `Peer.CallsByToken` | core/src/rpc/rpc_internals/rpc_respondable_session.rs:189-192 | what a handler was called with is what was delivered for the request of its call, because no two calls share a handler |
| `Network.RunKeepsInv` | core/src/rpc/rpc_dispatcher.rs:260-445 | the invariant of both sides and both pipes holds after every run of calls, deliveries in any order, reads of any slices, and answers in any order |
| `Network.CallsAreFaithful` | extensions/muxio-rpc-service-caller/src/caller_interface.rs:353-399 | end-to-end safety: in every reachable state of two peers that call each other, the channel fed by the handler of a call holds a prefix of what the other side's handler makes of its arguments, or nothing if that fails; once closed it collects to exactly that, and a failure is exactly one item |
| `Network.HandlerHears` | core/src/rpc/rpc_internals/rpc_respondable_session.rs:131-206 | the handler registered for a call has been called with exactly the events heard of that call |
| `Network.RequestsServedOnce` | core/src/utils/id_space.rs:25-35 | in every reachable state requests are handed out at most once and exactly as they were called; no event of a request reaches a response handler and no response enters the queue; every handler that was called is the one registered for the call whose response it got, and no two calls share one |
| `Network.CallsComplete` | core/src/rpc/rpc_dispatcher.rs:260-445 | once everything sent was delivered and read and every request answered: the channel fed by the handler of every call is closed and collects to exactly what the other side makes of the arguments, the handler is gone, and both sessions are back in their initial state |
| `Disconnection.DisconnectEndsCalls` | core/src/rpc/rpc_dispatcher.rs:504-539 | a connection lost at any point of any run: tables and queue are empty, the channel of every call is closed, with exactly one error with the cause added if it was still open and unchanged otherwise; an open call collects to that error, whatever part of its response had come, and a closed one to what it did |
| `Disconnection.NothingAfterwards` | core/src/rpc/rpc_dispatcher.rs:504-539 | whatever bytes still come in, whatever is called and however often the connection is lost again, no handler registered before the disconnect is called again |
| `Disconnection.CallHandlersAccounted` | core/src/rpc/rpc_internals/rpc_respondable_session.rs:61-75 | in every reachable state of a network the handlers of the calls made are exactly those pending and those finished, and none is both, with no assumption on ids or errors |
| `Progress.CallsCanComplete` | extensions/muxio-rpc-service-caller/src/caller_interface.rs:353-399 | every run, however it has gone, can be continued without further calls - as long as there are ids left for the answers and they fit on a stream - to a state in which every call made has returned exactly what the handler makes of its arguments, no handler is left, and both sessions are empty |
| `Progress.DrainBoth` | core/src/rpc/rpc_internals/rpc_session.rs:63-117 | from every state of the invariant everything sent can be delivered and read, and that changes nothing a peer has sent, called or answered |
| `Progress.AnswerAll` | extensions/muxio-rpc-service-endpoint/src/endpoint_interface.rs:275-313 | every request handed out and not yet answered can be answered, and that changes neither the requests nor the other side |
| `Progress.NoMoreRequests` | extensions/muxio-rpc-service-endpoint/src/endpoint_interface.rs:254-266 | once every call of the other side has been heard, nothing is ever handed out again without a new call |
| `PeerObjects.NewPeer` | core/src/rpc/rpc_dispatcher.rs:73-86 | a new dispatcher object stands for a peer of the network |
| `PeerObjects.CallOn` | extensions/muxio-rpc-service-caller/src/caller_interface.rs:305-312 | a call on a dispatcher object that stands for a peer leaves it standing for the peer after the call, and emits the frames of that call |
| `PeerObjects.NewReceiver` | extensions/muxio-rpc-service-caller/src/caller_interface.rs:100-103 | a new call gets a receiver of its own, and all receivers stand for what their calls have received |
| `PeerObjects.ReadOn` | extensions/muxio-rpc-service-endpoint/src/endpoint_interface.rs:231-266 | so does reading bytes: the requests handed out are those added to the inbox of the peer, and the callbacks called are those added to its log |
| `PeerObjects.ListenOn` | extensions/muxio-rpc-service-caller/src/caller_interface.rs:123-290 | after reading any bytes every receiver object stands for what its call has received by then |
| `PeerObjects.DisconnectOn` | core/src/rpc/rpc_dispatcher.rs:504-539 | after a disconnect the object stands for the disconnected peer, and every receiver object for what its call has received by then |
| `PeerObjects.AnswerOn` | extensions/muxio-rpc-service-endpoint/src/endpoint_interface.rs:275-313 | so does answering a request, and the frames emitted are those of the answer |

## Left out

- Transports: the WebSocket, IPC, sync and WASM clients and servers, heartbeats, child processes and bridges; bytes simply arrive in arbitrary slices.
- The sync server, which uses the client half of the ids and so falls outside the network theorems.
- Async, mutexes, poisoning and shared ownership: every locked section is one atomic step.
- `bitcode`, xxHash method ids and UTF-8: arguments, results and encoded errors are byte strings, method ids are numbers, and an error text is the bytes it is read from.
- The mpsc adapter, the bounded channel (which may drop items) and the write loop.
- Tracing, error display text, `RpcResponse::from_rpc_header` and the `meta_len` field that is never read.
- The readiness channel of a call and the check that the caller is connected.
- Registration of handlers: whether two concurrent registrations of a method can both succeed.
- The failure of a callback: `on_rpc_stream_event` and `on_emit` always succeed, as the ones the dispatcher installs do.
- `cancel_stream` and `stream_id` of the RPC stream encoder, which only forward; cancelling is modelled in the frame encoder.
- Debug builds, in which a counter that overflows panics instead of wrapping.
- Calls that are not finalized and methods with a stream router, in the network theorems only; routing, lifecycle, round trip and responder cover them.
- Service.DecodeBytes: the stream router is the set of methods it claims; which responders it makes is left to the caller of Responder.InstallWriters, which models the installation of their writers after the read.
- Session.RpcSession.OneResult: a stored decoder is a value that is put into an object for one frame and taken out again, not an object kept in the map.
