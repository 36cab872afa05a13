# WANProxy: a verified model

WANProxy joins two sites by a pair of proxies that do not send the same data twice. This project is a
Dafny model of the parts that this depends on, with proofs about every input, every run and every
interleaving. `dafny verify dfyconfig.toml` checks all of it.

## What is modelled

**The codec** (`Hash`, `HashLaws`, `Window`, `WindowOrder`, `Stream`, `Encoder`, `EncoderImpl`, `EncoderThrift`, `Decoder`,
`DecoderImpl`, `RoundTrip`). `Stream.Play` says what a stream of operations means, given the cache of the side that
wrote it; it mentions neither codec. The encoder is proved to write streams that mean its input, the
decoder to read streams as they are meant, and the round trip follows: for any hash function, colliding
ones included, any calls, any cutting of the encoded bytes. The objects `XCodecEncoder` and
`XCodecDecoder` are loops over segments that maintain a rolling hash, a queue and a candidate; they are
proved to compute the simple forms. `EncoderThrift` says what is saved: a whole segment is escaped only if its hash
collides, none is declared twice, and a known one is found at any offset.

**The pipe protocol** (`Pipe`, `PipeParse`, `Protocol`, `ProtocolTake`, `ProtocolSettle`,
`ProtocolCall`, `ProtocolRun`, `ProtocolHistory`, `ProtocolAck`, `PipeMemory`,
`PipeImpl`). Two ends, two byte channels, and steps in which either end
encodes, receives any number of bytes, or finds that other streams have grown the shared caches. A state
is `failed` if any assertion has failed or any error was reported; no reachable state is.
`ProtocolHistory` speaks of all that was ever said, `ProtocolAck` of how a stream may end.

**Buffers** (`Segments`, `BufferImpl`, `BufferQueries`). Reference-counted segments that are copied
before they are written to, shared by any number of buffers, caches and local pointers. Every run of
operations acts as if nothing were shared, and counts are exact throughout.

**SSH** (`SshPacket`, `SshStream`, `SshTransport`, `SshImpl`, `SshNegotiation`). Packets as in section 6
of RFC 4253, negotiation as in section 7.1, key derivation as in section 7.2, with the cipher, the MAC
and the hash as parameters.

**Threads** (`Threads`, `ThreadsImpl`). The mutex, the sleep queue and the callback thread, interleaved
with any number of clients, with spurious wakeups and with barging.

**Splices** (`Splice`, `SpliceImpl`). The producer pipe and the splice, driven by completions in any order, with
an owner that produces into the pipe whenever it likes, and with cancellation.

`Bytes` holds byte strings and integers on the wire, and `Endian` how they get there. Clocks, randomness, the network, the parsing of
UUIDs, ciphers, MACs and hashes are parameters or steps of the environment.

A module that ends in `Impl` holds objects whose methods change fields step by step; each is proved
against a function of the module of the same name, and what is promised is proved of that function.

## Where the code differs from what one might expect

- `ssh/ssh_transport_pipe.cc:104-109` speaks of minimal padding, but a full extra block is added when the
  length already fits (line 133), so padding is five bytes to four more than a block. It is minimal exactly if
  four bytes would not do (`SshPacket.MinimalExactly`, and `SshPacket.PaddingWastesABlock` for an input).
- An encrypted packet may arrive and not be delivered until something follows it, because the receiver wants
  more than one block of input before it looks. `SshStream.WaitsExactly` says exactly when, and the last packet
  of a stream is the only one it can happen to for good (`SshTransport.AllButTheLast`): one block without a MAC,
  or one block and a short MAC that arrive in two parts (`SshTransport.ShortMacStalls`).
- An empty payload can be sent, and the receiver reports an error (`SshPacket.FinishHonest`).
- A write that completes with the end of the stream ends a splice as if all were well (`Splice.CutLosesData`, and
  `Splice.CutExactly` for when that loses data); the channels of the repository report success or an error.
- HELLO is not always the first message of an end, although `xcodec/xcodec_pipe_pair.cc:83` asks for it. An end
  that first speaks because of what it hears starts with ASK or EOS_ACK, and only then (`ProtocolHistory.FirstWord`;
  `ProtocolAck.AckBeforeHello` is such a run). A FRAME, LEARN or EOS always comes after HELLO.
- Whether to send EOS_ACK is tested only before decoding (line 346), so a stream whose last data is decoded because
  of a LEARN is not acknowledged in that call, although lines 70-72 promise it: the acknowledgement is missing
  exactly while the LEARN is the last message taken (`ProtocolHistory.AcknowledgedExactly`). In
  `ProtocolAck.NeverAcknowledged` nothing follows the LEARN, and by `ProtocolAck.StaysQuiet` nothing will until A has
  data, or an end of stream, of its own to send.
- Hash value 0 marks an empty slot, so a segment with that hash is always referenced by hash
  (`Encoder.IndexedExactly`).

## Model

| member | source | states |
|---|---|---|
| `Hash.RollingHash.Add` | xcodec/xcodec_hash.h:43-49 | adding a value, in wrapping 32-bit arithmetic, leaves the exact plain and weighted sums of the history with that value |
| `Hash.RollingHash.Reset` | xcodec/xcodec_hash.h:51-55 | after a reset the sums are those of the empty history |
| `Hash.RollingHash.Roll` | xcodec/xcodec_hash.h:57-70 | one constant-time roll leaves the exact sums of the history without its oldest value and with the new one |
| `Hash.XCodecHash.Add` | xcodec/xcodec_hash.h:93-109 | both rolling hashes cover the last bytes, the new one included |
| `Hash.XCodecHash.Reset` | xcodec/xcodec_hash.h:111-120 | after a reset the hash covers nothing |
| `Hash.XCodecHash.Roll` | xcodec/xcodec_hash.h:122-135 | the covered window moves on by exactly one byte |
| `Hash.XCodecHash.MixIn` | xcodec/xcodec_hash.h:155-164 | however the window was reached, mixing gives the hash of the 2048 bytes that it covers |
| `Hash.HashFromScratch` | xcodec/xcodec_hash.h:166-174 | hashing a segment from scratch is the same function of its bytes |
| `Hash.WeightedAppend` | xcodec/xcodec_hash.h:47-48 | adding the running sum to the second sum weighs the i-th of n values by n - i |
| `Hash.RollSums` | xcodec/xcodec_hash.h:61-69 | subtracting the dead value and 2048 times it, modulo 2^32, yields the sums of the shifted window |
| `Hash.SumsFit` | xcodec/xcodec_hash.h:43-70 | for 2048 values of at most 256 neither sum comes near 32 bits |
| `HashLaws.HashLayout` | xcodec/xcodec_hash.h:155-164 | the byte sums fill the low 32 bits of the hash, wrapped, the bit sums its high 28, and the four bits between are clear |
| `HashLaws.FfsIsLowestBit` | xcodec/xcodec_hash.h:93-109 | the bit value of a byte is the place of its lowest set bit |
| `HashLaws.UniformSegment` | xcodec/xcodec_hash.h:93-164 | both sums of a segment of equal bytes, in closed form |
| `HashLaws.OneByteDiffers` | xcodec/xcodec_hash.h:93-164 | segments that differ in one byte have different hashes |
| `HashLaws.ExchangeDiffers` | xcodec/xcodec_hash.h:43-164 | so have segments that differ by an exchange of two different bytes, however far apart |
| `Window.XCodecMemoryCache.Enter` | xcodec/xcodec_cache.h:132-138 | a new segment is filed and no earlier entry changes; the two assertions are its preconditions |
| `Window.XCodecMemoryCache.Lookup` | xcodec/xcodec_cache.h:149-161 | a segment is found exactly when it was entered under the hash |
| `Window.XCodecWindow.Declare` | xcodec/xcodec_window.h:68-94 | slots, cursor and both maps change together; 0 and known hashes change nothing; the slot under the cursor is evicted |
| `Window.XCodecWindow.Dereference` | xcodec/xcodec_window.h:96-106 | an index yields the segment declared in that slot, or nothing for an empty slot |
| `Window.XCodecWindow.Present` | xcodec/xcodec_window.h:108-116 | reports the slot of a hash exactly when it is in the window |
| `Window.PresentDereferences` | xcodec/xcodec_window.h:96-116 | the index reported for a hash dereferences to the segment declared for that hash |
| `WindowOrder.FirstInFirstOut` | xcodec/xcodec_window.h:68-94 | after any declarations the window holds exactly the last 256 that counted (not 0, and not among those 256 already), each with its segment and in the slot of its turn modulo 256 |
| `WindowOrder.StaysInReach` | xcodec/xcodec_window.h:68-94 | a hash that has just been declared stays in the window for the next 255 declarations, whatever they are |
| `Stream.PlayConcat` | xcodec/xcodec.h:29-85 | the meaning of two runs of operations is composed through the window |
| `Stream.PlayMonotone` | xcodec/xcodec.h:29-85 | a stream keeps its meaning when the cache behind it grows |
| `Stream.PlayPrefix` | xcodec/xcodec.h:29-85 | a meaningful stream is meaningful up to and from any point, and the parts make up the whole |
| `Encoder.EscapeMeans` | xcodec/xcodec_encoder.cc:352-376 | escaped bytes stand for themselves |
| `Encoder.ReferenceMeans` | xcodec/xcodec_encoder.cc:379-414 | a reference, by window index or by hash, stands for the cached segment |
| `Encoder.IndexedExactly` | xcodec/xcodec_encoder.cc:379-414 | the second of two references in a row is a window index if and only if the hash is not 0 |
| `Encoder.DeclarationMeans` | xcodec/xcodec_encoder.cc:307-349 | a declaration, in band or out of band, stands for its segment and makes it known |
| `Encoder.DeclareCandidateMeans` | xcodec/xcodec_encoder.cc:165-172 | declaring a pending candidate keeps the loop invariant: what was written and what is queued are the input |
| `Encoder.ReferenceLastMeans` | xcodec/xcodec_encoder.cc:217-230 | referencing the current segment writes exactly the queue and empties it |
| `Encoder.ConsiderMeans` | xcodec/xcodec_encoder.cc:206-272 | looking the hash up, with its collision and candidate branches, keeps the loop invariant |
| `Encoder.AdvanceMeans` | xcodec/xcodec_encoder.cc:157-272 | the whole loop body, with the adjacent-declaration branch, keeps the loop invariant |
| `Encoder.ScanAllMeans` | xcodec/xcodec_encoder.cc:76-276 | the loop invariant holds after any input: written tokens stand for what was sent, the queue for the rest, and a candidate is named by the hash of its own bytes and not in the cache |
| `Encoder.EncodeMeans` | xcodec/xcodec_encoder.cc:55-304 | for any hash function the tokens written stand for the input, the cache only grows, and in-band streams declare everything before they use it |
| `Encoder.EncodeCallsMean` | xcodec/xcodec_encoder.cc:55-414 | the same for any sequence of calls on one encoder |
| `EncoderThrift.EncodeIsThrifty` | xcodec/xcodec_encoder.cc:55-304 | for any input, cache and hash function: a whole segment is escaped, anywhere in the output, only if another segment is known under its hash; what is declared was not known, and is declared once |
| `EncoderThrift.ConsiderThrifty` | xcodec/xcodec_encoder.cc:206-272 | with no candidate pending every segment-long stretch of the queue collides, and with one pending every stretch before it |
| `EncoderThrift.CallsDeclareOnce` | xcodec/xcodec_encoder.cc:55-350 | over any number of calls no segment is declared twice, and none that was known at the start |
| `EncoderThrift.SecondCopyIsIndexed` | xcodec/xcodec_encoder.cc:206-304 | a new segment is written in full and entered; the same bytes again are one window index (a reference if the hash is 0) |
| `EncoderThrift.FoundAtAnyOffset` | xcodec/xcodec_encoder.cc:98-276 | a known segment behind less than a segment of new data is found at its offset: the data is escaped, the segment referenced, nothing declared |
| `EncoderImpl.XCodecEncoder.EncodeEscape` | xcodec/xcodec_encoder.cc:352-376 | moves the bytes over, escaping each magic byte |
| `EncoderImpl.XCodecEncoder.EncodeReference` | xcodec/xcodec_encoder.cc:379-414 | refuses a segment with other bytes and then changes nothing; otherwise writes the bytes before it and a reference |
| `EncoderImpl.XCodecEncoder.EncodeDeclaration` | xcodec/xcodec_encoder.cc:307-349 | enters the segment, writes it in band or as a reference, and consumes it |
| `EncoderImpl.XCodecEncoder.TryReference` | xcodec/xcodec_encoder.cc:179-202 | queue, scan point and candidate after a reference that may turn out to be a collision |
| `EncoderImpl.XCodecEncoder.EncodeLookup` | xcodec/xcodec_encoder.cc:206-272 | the lookup half of the loop body computes `Consider` |
| `EncoderImpl.XCodecEncoder.EncodeHash` | xcodec/xcodec_encoder.cc:157-272 | the loop body computes `Advance` |
| `EncoderImpl.XCodecEncoder.EncodeByte` | xcodec/xcodec_encoder.cc:118-272 | one byte keeps the rolling hash on the last segment before the scan point and advances the scan |
| `EncoderImpl.XCodecEncoder.EncodeSegment` | xcodec/xcodec_encoder.cc:98-273 | the inner loop, with its two ways of filling the hash, is the byte-by-byte scan |
| `EncoderImpl.XCodecEncoder.EncodeLong` | xcodec/xcodec_encoder.cc:66-304 | the loop over segments, with its early exit, is the scan of the concatenated bytes |
| `EncoderImpl.XCodecEncoder.EncodeRest` | xcodec/xcodec_encoder.cc:278-303 | what is left is declared if it can be and escaped otherwise |
| `EncoderImpl.XCodecEncoder.Encode` | xcodec/xcodec_encoder.cc:55-304 | output, cache and window are a function of the concatenated bytes, so they do not depend on the segmentation of the input |
| `EncoderImpl.HashByte` | xcodec/xcodec_encoder.cc:121-146 | adding or rolling keeps the hash on the last segment of the queue |
| `Decoder.DecodeToken` | xcodec/xcodec_decoder.cc:91-173 | a whole operation is taken exactly as it was meant, or its hash is unknown |
| `Decoder.DecodePartial` | xcodec/xcodec_decoder.cc:85-98 | an operation that has only partly arrived is waited for |
| `Decoder.DecodeReads` | xcodec/xcodec_decoder.cc:66-176 | fed any prefix of a meaningful stream, a decoder that knows less reads whole operations as meant, never fails, and stops only for bytes or at an unknown reference |
| `DecoderImpl.XCodecDecoder.DecodeOperation` | xcodec/xcodec_decoder.cc:88-173 | each case of the switch is one turn of `DecodeOne`, with what it waits for and refuses |
| `DecoderImpl.XCodecDecoder.Decode` | xcodec/xcodec_decoder.cc:66-176 | the loop with its jumps over plain bytes computes `Decode`: verdict, output, residue, cache, window and unknown set |
| `RoundTrip.DecodeKnown` | xcodec/xcodec_decoder.cc:66-176 | a decoder that knows what the stream does not carry reads all of it in one call |
| `RoundTrip.RoundTrip` | xcodec/xcodec_encoder.cc:55-414 | for any hash function and any calls, decoding gives back the input, consumes everything, asks for nothing, and ends with the cache and the window of the encoder (the windows stay in lockstep) |
| `RoundTrip.DecodeSplit` | xcodec/xcodec_decoder.cc:69-175 | decoding a part and then the residue with the rest is decoding the whole |
| `RoundTrip.ChunksIrrelevant` | xcodec/xcodec_decoder.cc:69-175 | chunk by chunk gives the output, residue, cache, window and pending hash of one call |
| `RoundTrip.ResumeAfterLearn` | xcodec/xcodec_decoder.cc:126-144 | stopping at an unknown hash and learning it is the same as having known it |
| `RoundTrip.RoundTripChunked` | xcodec/xcodec_decoder.cc:66-176 | the round trip, in band and out of band, holds however the encoded bytes are cut |
| `RoundTrip.PrefixesOk` | xcodec/xcodec_decoder.cc:69-175 | if the whole decodes, every chunk on the way does |
| `PipeParse.FramesCarry` | xcodec/xcodec_pipe_pair.cc:484-504 | framing loses and reorders nothing |
| `PipeParse.FramesFull` | xcodec/xcodec_pipe_pair.cc:484-504 | every frame but the last is full |
| `PipeParse.TakeWhole` | xcodec/xcodec_pipe_pair.cc:178-344 | a whole acceptable message has exactly its effect and leaves the bytes behind it |
| `PipeParse.TakePartial` | xcodec/xcodec_pipe_pair.cc:178-344 | a message that has only partly arrived has no effect |
| `PipeImpl.EncodeFrame` | xcodec/xcodec_pipe_pair.cc:484-504 | the loop writes the frames of at most 32768 bytes |
| `PipeImpl.XCodecPipePair.OnHello` | xcodec/xcodec_pipe_pair.cc:180-221 | the HELLO case, with its waits and errors |
| `PipeImpl.XCodecPipePair.OnAsk` | xcodec/xcodec_pipe_pair.cc:222-253 | the ASK case: answered at once from the cache, or an error |
| `PipeImpl.XCodecPipePair.OnLearn` | xcodec/xcodec_pipe_pair.cc:254-293 | the LEARN case: new, redundant or colliding |
| `PipeImpl.XCodecPipePair.OnFrame` | xcodec/xcodec_pipe_pair.cc:317-339 | the FRAME case |
| `PipeImpl.XCodecPipePair.OnMessage` | xcodec/xcodec_pipe_pair.cc:178-344 | the switch, EOS, EOS_ACK and unknown operations included |
| `PipeImpl.XCodecPipePair.OnFrameData` | xcodec/xcodec_pipe_pair.cc:364-400 | decodes, delivers, and asks for what is unknown |
| `PipeImpl.XCodecPipePair.AfterMessage` | xcodec/xcodec_pipe_pair.cc:346-400 | acknowledge, wait or decode |
| `PipeImpl.XCodecPipePair.AtEnd` | xcodec/xcodec_pipe_pair.cc:408-439 | end of stream to the consumer and to the peer, with the assertions |
| `PipeImpl.XCodecPipePair.ConsumeBuffer` | xcodec/xcodec_pipe_pair.cc:177-401 | the loop is `Consuming` |
| `PipeImpl.XCodecPipePair.DecoderConsume` | xcodec/xcodec_pipe_pair.cc:157-440 | one call is `Pipe.DecoderConsume`: the new state, what is sent and delivered, and whether an assertion failed or an error was reported |
| `PipeImpl.XCodecPipePair.EncoderConsume` | xcodec/xcodec_pipe_pair.cc:442-482 | one call is `Pipe.EncoderConsume`: HELLO once, then frames or EOS, and whether an assertion failed |
| `ProtocolTake.AskIsAnswerable` | xcodec/xcodec_pipe_pair.cc:222-253 | whoever is asked has an encoder and knows the hash |
| `ProtocolTake.AcceptableHead` | xcodec/xcodec_pipe_pair.cc:178-344 | in a correct system the next message is never an error |
| `ProtocolTake.TakeKeeps` | xcodec/xcodec_pipe_pair.cc:178-344 | taking any message keeps both directions consistent |
| `ProtocolSettle.DecodeKeeps` | xcodec/xcodec_pipe_pair.cc:359-400 | decoding keeps both directions consistent, and at most one question leaves |
| `ProtocolSettle.AckKeeps` | xcodec/xcodec_pipe_pair.cc:346-357 | acknowledging keeps both directions consistent |
| `ProtocolCall.LoopKeeps` | xcodec/xcodec_pipe_pair.cc:177-401 | the loop keeps the invariant and leaves less than a message behind |
| `ProtocolCall.EndingKeeps` | xcodec/xcodec_pipe_pair.cc:408-439 | the assertions after the loop hold; the channel is then closed if and only if both acknowledgements have passed, and the end is passed on if and only if the stream has been read to it |
| `ProtocolCall.ConsumeKeeps` | xcodec/xcodec_pipe_pair.cc:157-440 | one call with any part of the channel keeps the invariant and does not fail |
| `ProtocolRun.PeerClosedKeeps` | xcodec/xcodec_pipe_pair.cc:160-173 | the peer closes only when everything was delivered, so its closing loses nothing |
| `ProtocolRun.EncodeWrites` | xcodec/xcodec_pipe_pair.cc:469-474 | the new tokens stand for the new data, and are not empty |
| `ProtocolRun.StepKeeps` | xcodec/xcodec_pipe_pair.cc:157-482 | every step at either end, and every growth of the shared caches, keeps the invariant |
| `ProtocolRun.EveryRunIsSafe` | xcodec/xcodec_pipe_pair.cc:157-482 | in every state of every run no end fails or reports an error; output is a prefix of the peer's input; an end of stream is announced only after everything was delivered; between calls a channel is closed if and only if its end has sent and received EOS_ACK, and then both directions are decoded and nothing but a last EOS_ACK is under way |
| `ProtocolRun.EveryQuestionIsAnswered` | xcodec/xcodec_pipe_pair.cc:222-293 | in every state of every run at most one hash is unknown at each end, the other end has it, and exactly one question or one answer for it is under way |
| `ProtocolRun.EverythingIsDelivered` | xcodec/xcodec_pipe_pair.cc:157-482 | in every state of every run in which nothing is under way, each end has delivered all that the other has consumed, and holds nothing back |
| `ProtocolCall.AnswerDelivers` | xcodec/xcodec_pipe_pair.cc:254-400 | an answer is used at once: the segment that a LEARN teaches is the next to be delivered |
| `PipeMemory.ConsumeKeepsAll` | xcodec/xcodec_pipe_pair.cc:157-440 | a call of the decoder, failing or not, forgets nothing that is known of any peer |
| `PipeMemory.EveryRunRemembers` | xcodec/xcodec_pipe_pair.cc:157-482 | over every run, apart from what other streams do to what is known of peers, an end forgets nothing that it has learned or declared |
| `ProtocolHistory.EveryHistoryIsOrderly` | xcodec/xcodec_pipe_pair.cc:157-482 | all that an end has ever sent are whole messages: HELLO before any FRAME, LEARN or EOS, no FRAME after EOS, and HELLO, EOS and EOS_ACK once; the answers it has taken are its questions, hash by hash in order, but for the unknown hash if there is one; the questions it has heard are the answers it has sent, hash by hash in order; and it has acknowledged a stream that it has read to the end unless the last message it took is a LEARN |
| `ProtocolCall.LoopTakes` | xcodec/xcodec_pipe_pair.cc:177-401 | one turn of the loop keeps the invariant; after a message that leaves a stream read to its end, the end has been acknowledged if and only if the message is not a LEARN |
| `ProtocolHistory.AcknowledgedExactly` | xcodec/xcodec_pipe_pair.cc:346-400 | in every state of every run, an end that has been told of the end of the stream and has nothing left to decode has sent EOS_ACK if and only if the last message it took is not a LEARN |
| `ProtocolAck.NeverAcknowledged` | xcodec/xcodec_pipe_pair.cc:346-400 | a run, for any hash function and any segment that B knows and A does not: the segment as a reference, EOS, the question, the answer; A has delivered everything and the end, has not acknowledged it, and nothing is under way |
| `ProtocolAck.StaysQuiet` | xcodec/xcodec_pipe_pair.cc:157-482 | from such a state on, neither end sends anything, and nothing is acknowledged, until data or the end of its own stream reaches A |
| `ProtocolHistory.FirstWord` | xcodec/xcodec_pipe_pair.cc:346-482 | in every run, the first message of an end is HELLO if and only if it first speaks because its own stream brings data or ends; otherwise it is ASK or EOS_ACK |
| `ProtocolAck.AckBeforeHello` | xcodec/xcodec_pipe_pair.cc:346-357 | a run from any initial state: B ends its stream at once, and all that A sends is EOS_ACK, without having an encoder |
| `ProtocolHistory.MirrorRun` | xcodec/xcodec_pipe_pair.cc:157-482 | a run seen from the other end is a run, so what is said of A holds of B |
| `ProtocolHistory.RunsAreLabelled` | xcodec/xcodec_pipe_pair.cc:157-482 | runs are exactly the runs that say who did what, so the histories are those of every run |
| `ProtocolHistory.SeenIsSaid` | xcodec/xcodec_pipe_pair.cc:442-482 | the flags of an end are exactly what it has said |
| `ProtocolRun.InvUnknown` | xcodec/xcodec_pipe_pair.cc:359-400 | an unknown hash is the reference at the front of the frame buffer |
| `ProtocolRun.LastWords` | xcodec/xcodec_pipe_pair.cc:430-439 | once acknowledged both ways, nothing but a last EOS_ACK is under way |
| `Protocol.AllDelivered` | xcodec/xcodec_pipe_pair.cc:408-419 | after EOS with an empty frame buffer, everything the peer encoded was delivered |
| `Protocol.NothingComes` | xcodec/xcodec_pipe_pair.cc:430-439 | after both acknowledgements nothing is on its way in |
| `Segments.Pin` | common/buffer.h:171-174 | one more holder: counts stay exact and no bytes change |
| `Segments.Unpin` | common/buffer.h:180-192 | the segment is freed exactly when its last holder lets go |
| `Segments.Rewrite` | common/buffer.h:229-241 | writing in place, allowed to the only holder, changes no buffer |
| `BufferImpl.BufferHeap.Ref` | common/buffer.h:171-174 | counts stay exact; nothing else changes |
| `BufferImpl.BufferHeap.Unref` | common/buffer.h:180-192 | freed if and only if this was the last reference |
| `BufferImpl.BufferHeap.New` | common/buffer.h:154-165 | a new segment with one holder and these bytes |
| `BufferImpl.BufferHeap.SegmentSkip` | common/buffer.h:353-369 | the holder gets the bytes behind the first n, every other holder keeps its own |
| `BufferImpl.BufferHeap.SegmentTrim` | common/buffer.h:376-391 | the holder gets the bytes without the last n, every other holder keeps its own |
| `BufferImpl.BufferHeap.SegmentAppend` | common/buffer.h:224-242 | the holder gets the bytes with more behind them, moved up if need be; every other holder keeps its own |
| `BufferImpl.Pulled` | common/buffer.h:327-335 | pulling up moves the bytes and changes none |
| `BufferImpl.BufferHeap.PopFront` | common/buffer.h:1187-1194 | the first segment changes hands |
| `BufferImpl.BufferHeap.AppendSegment` | common/buffer.h:673-679 | shares a segment |
| `BufferImpl.BufferHeap.AppendBuffer` | common/buffer.h:634-640 | appends the bytes of another buffer by sharing its segments |
| `BufferImpl.BufferHeap.AppendPrefix` | common/buffer.h:645-652 | appends the first n bytes of another buffer and leaves that buffer alone |
| `BufferImpl.BufferHeap.AppendBytes` | common/buffer.h:701-736 | appends the bytes, in place or in new segments |
| `BufferImpl.BufferHeap.Clear` | common/buffer.h:780-793 | empties one buffer only |
| `BufferImpl.BufferHeap.Copyout` | common/buffer.h:799-824 | the bytes from the offset on, whatever the segmentation |
| `BufferImpl.BufferHeap.CopyoutSegment` | common/buffer.h:851-871 | a segment with the first n bytes, shared or copied |
| `BufferImpl.BufferHeap.Moveout` | common/buffer.h:1164-1181 | all bytes change buffers, no count changes |
| `BufferImpl.BufferHeap.Skip` | common/buffer.h:1354-1403 | drops the first n bytes of one buffer only, or all of them if there are fewer |
| `BufferImpl.BufferHeap.SkipInto` | common/buffer.h:1354-1403 | moves the first n bytes, or all of them if there are fewer, to the end of the clip |
| `BufferImpl.BufferHeap.Trim` | common/buffer.h:1410-1459 | drops the last n bytes of one buffer only |
| `BufferImpl.BufferHeap.CopyoutFirst` | common/buffer.h:838-844 | shares the first segment, whose bytes are where the buffer starts |
| `BufferImpl.BufferHeap.PopByte` | common/buffer.h:1210-1226 | reports and removes the first byte of one buffer only |
| `BufferImpl.BufferHeap.Permits` | common/buffer.h:645-1459 | whether the assertions of an operation hold, from the cached lengths alone |
| `BufferImpl.BufferHeap.Execute` | common/buffer.h:634-1459 | one operation acts on the buffers and held segments as if nothing were shared, and reports what it may |
| `BufferImpl.BufferHeap.ExecuteAll` | common/buffer.h:171-1459 | any run of operations, segments moved, shared or copied out included, on any number of buffers, up to the first whose assertion fails: each buffer and each held segment reads as if it had always had its own bytes, and every count equals the number of holders |
| `BufferImpl.RunIsolates` | common/buffer.h:634-1459 | over any run a buffer that is no target keeps its bytes, and so does every held segment until one is released |
| `BufferQueries.Find` | common/buffer.h:1036-1065 | the first occurrence among the first `limit` bytes of the flat string, or none |
| `BufferQueries.PrefixSegment` | common/buffer.h:1310-1344 | the inner loop decides the prefix relation across segment boundaries and leaves the position after it |
| `BufferQueries.PrefixBytes` | common/buffer.h:1243-1288 | true exactly for prefixes of the flat string |
| `BufferQueries.Prefix` | common/buffer.h:1294-1347 | true exactly for prefixes of the flat string, for every pair of segmentations |
| `BufferQueries.Equal` | common/buffer.h:997-1004 | true exactly for equal flat strings |
| `Endian.MasksAreArithmetic` | common/endian.h:51-76 | in 16, 32 and 64 bits, the masks, shifts and ors of a swap are remainders, quotients, products and sums |
| `Endian.SwapReverses` | common/endian.h:51-76 | so composed, a swap reverses the bytes |
| `Endian.AppendIsBigEndian` | common/endian.h:91-96 | what a little-endian host stores after a swap is the integer, most significant byte first |
| `Endian.ExtractIsBigEndian` | common/endian.h:98-104 | swapping what such a host loads reads the bytes, most significant first |
| `Endian.SwapTwice` | common/endian.h:51-76 | swapping twice gives the integer back |
| `Bytes.FromToBE` | common/endian.h:78-105 | reading back a big-endian integer that fits |
| `Bytes.ToFromBE` | common/endian.h:78-105 | writing back what was read |
| `Bytes.WordRoundTrip` | common/endian.h:78-105 | a 64-bit hash survives the wire |
| `Bytes.WordRoundTripBack` | common/endian.h:78-105 | any eight bytes are the wire form of exactly the hash that they are read as |
| `SshPacket.PaddingFits` | ssh/ssh_transport_pipe.cc:132-134 | for blocks of 8 to 251 bytes: five bytes of padding to four more than a block, to a multiple of the block |
| `SshPacket.MinimalExactly` | ssh/ssh_transport_pipe.cc:104-134 | the padding is the least that the format allows if and only if four bytes would not do; otherwise it is four bytes and a whole block |
| `SshPacket.PaddingWastesABlock` | ssh/ssh_transport_pipe.cc:132-134 | an input: blocks of 8 and a payload of 7 bytes get 12 bytes of padding, where 4 would do |
| `SshPacket.PlainHeader` | ssh/ssh_transport_pipe.cc:132-139 | the header gives the length, and the packet is a positive number of blocks |
| `SshPacket.CryptInverse` | ssh/ssh_transport_pipe.cc:154-162 | decrypting all blocks undoes encrypting them, from the same cipher state |
| `SshPacket.CryptSplit` | ssh/ssh_transport_pipe.cc:314-356 | the first block on its own and then the rest is the same as all at once |
| `SshPacket.FinishHonest` | ssh/ssh_transport_pipe.cc:366-402 | a packet with the right MAC yields its payload, and an empty payload is refused |
| `SshPacket.MacBinds` | ssh/ssh_transport_pipe.cc:141-146 | with a MAC without collisions, the MAC of a packet fits no other packet and no other sequence number |
| `SshPacket.ForgeryRefused` | ssh/ssh_transport_pipe.cc:366-384 | a packet whose MAC was made for another packet or another sequence number is refused |
| `SshPacket.ReplayRefused` | ssh/ssh_transport_pipe.cc:366-390 | what was accepted is refused if it comes again as the next |
| `SshStream.OpenSync` | ssh/ssh_transport_pipe.cc:284-402 | with the ends together, a turn takes nothing but the next payload, and fails only if that is empty |
| `SshTransport.LoopSync` | ssh/ssh_transport_pipe.cc:275-480 | one call of the loop takes the next payloads in order, the last for the caller, and fails only at a payload that is empty or that a handler refuses |
| `SshTransport.PacketsArriveInOrder` | ssh/ssh_transport_pipe.cc:110-480 | in every run, for any chunking and any timing of requests and of their cancellation, what was received is the beginning of what was sent; an error comes only at a payload that is empty or that a handler refuses, and no such payload is received |
| `SshStream.WaitsExactly` | ssh/ssh_transport_pipe.cc:309-361 | whatever is behind it and in the channel, the receiver waits if and only if the next packet has not wholly arrived, or it is encrypted and the input holds no more than one block |
| `SshTransport.StallsExactly` | ssh/ssh_transport_pipe.cc:309-341 | the last packet, wholly arrived with nothing behind it, is left waiting if and only if it is encrypted and no longer, MAC included, than one block (two once its first block is decrypted) |
| `SshTransport.OneBlockPacketStalls` | ssh/ssh_transport_pipe.cc:309-312 | such a packet: one block, no MAC |
| `SshTransport.ShortMacStalls` | ssh/ssh_transport_pipe.cc:309-341 | another: one block and a 12-byte MAC, arriving as 17 and 11 bytes |
| `SshTransport.WaitingMeans` | ssh/ssh_transport_pipe.cc:275-480 | in every run and with any algorithms, a waiting receiver has taken everything, lacks part of the next packet, or holds no more than one block of encrypted input |
| `SshTransport.AllButTheLast` | ssh/ssh_transport_pipe.cc:275-480 | in every run and with any algorithms, a waiting receiver with nothing in the channel lacks at most the last packet |
| `SshTransport.EverythingDelivered` | ssh/ssh_transport_pipe.cc:275-480 | unencrypted, or with a MAC longer than a block, every packet that has wholly arrived is delivered: a waiting receiver has taken everything or lacks part of the next packet, and with nothing in the channel it has taken everything |
| `SshImpl.TransportPipe.Send` | ssh/ssh_transport_pipe.cc:110-169 | the packet, the cipher state and the wrapping sequence number; a MAC or a cipher that fails sends nothing |
| `SshImpl.TransportPipe.TakeCiphered` | ssh/ssh_transport_pipe.cc:314-356 | the two-phase decryption: the first block as soon as more than a block is there, the rest when all of it is |
| `SshImpl.TransportPipe.TakePlain` | ssh/ssh_transport_pipe.cc:325-364 | without a cipher: wait for length, packet and MAC, then as above |
| `SshImpl.TransportPipe.TakePacket` | ssh/ssh_transport_pipe.cc:295-402 | one turn: wait, error or payload |
| `SshImpl.TransportPipe.Unpack` | ssh/ssh_transport_pipe.cc:366-402 | MAC, sequence number, padding, empty packet |
| `SshImpl.TransportPipe.ReceiveDo` | ssh/ssh_transport_pipe.cc:275-480 | the loop is `SshTransport.ReceiveDo`: payloads for a handler are passed over, the first for the caller ends the wait, and one that is refused is an error |
| `SshNegotiation.SplitJoin` | common/buffer.h:1583-1665 | non-empty comma-free names survive joining and splitting |
| `SshNegotiation.SplitBuffer` | common/buffer.h:1583-1631 | the loop splits at the separators and drops empty pieces |
| `SshNegotiation.StringRoundTrip` | ssh/ssh_protocol.cc:33-67 | a string is read back, and what follows it is left |
| `SshNegotiation.NamesRoundTrip` | ssh/ssh_protocol.cc:135-154 | a name-list is read back, and what follows it is left |
| `SshNegotiation.ChooseAlgorithm` | ssh/ssh_algorithm_negotiation.cc:56-114 | no preference, the client's first name that the server lists, or failure; the choice is one of our own |
| `SshNegotiation.SettlesOnce` | ssh/ssh_algorithm_negotiation.cc:56-114 | there is one outcome |
| `SshNegotiation.ChooseAlgorithms` | ssh/ssh_algorithm_negotiation.cc:196-223 | slot by slot from a KEXINIT, failing if any slot does |
| `SshNegotiation.Negotiate` | ssh/ssh_algorithm_negotiation.cc:166-223 | each end reading the other's KEXINIT: both fail or both settle on the same name in every slot |
| `SshNegotiation.GenerateKey` | ssh/ssh_session.cc:92-112 | terminates with exactly the requested length, a prefix of K1, K2, ... |
| `SshNegotiation.KeysAreNested` | ssh/ssh_session.cc:92-112 | a shorter key is the beginning of a longer one |
| `SshNegotiation.BlocksBind` | ssh/ssh_session.cc:92-112 | with a hash without collisions, first blocks are the same only for the same shared secret, exchange hash, letter and session identifier, later ones only for the same secrets and the same blocks before |
| `Threads.AcquireKeepsLock` | common/thread/mutex_posix.h:91-103 | acquiring, up to the first wait, keeps the waiters counted and the owner unique |
| `Threads.RetryKeepsLock` | common/thread/mutex_posix.h:98-102 | a waiter that looks again, also after a spurious wakeup, keeps them too |
| `Threads.ReleaseKeepsLock` | common/thread/mutex_posix.h:133-147 | a release leaves no thread blocked on a free mutex unless some thread was woken |
| `Threads.ScheduleKeeps` | event/callback_thread.cc:47-58 | a callback queued for a sleeping thread rouses it |
| `Threads.CancelKeeps` | event/callback_thread.cc:92-113 | a cancelled callback leaves the queue and is deleted once; the order of the others stays |
| `Threads.MainKeeps` | event/callback_thread.cc:115-164 | the main loop takes callbacks in order and sleeps only with nothing to do |
| `Threads.StepKeeps` | event/callback_thread.cc:47-164 | every step of every thread keeps the invariant |
| `Threads.EveryRunIsSafe` | event/callback_thread.cc:47-164 | over all interleavings, with clients that may act before the callback thread starts: one owner at most; a free mutex that a thread is blocked on has woken a thread; the callback thread sleeps unsignalled only with an empty queue and no order to stop, and the idle flag is set while it rests and not while it executes; callbacks start in order, only if not cancelled in the queue; none is deleted twice, or while queued or executing; main returns only when stopped and with an empty queue |
| `Threads.NeverStuck` | event/callback_thread.cc:115-164 | while a thread waits for the mutex or there is something to do, some thread can take a step |
| `Threads.ServedSoon` | event/callback_thread.cc:115-164 | if clients pause and no wait returns unasked, then, started or not, within five steps for each thread a callback starts, the queue is empty or the program has halted |
| `Threads.HaltsExactly` | event/callback_thread.cc:92-164 | a step halts the program if and only if it is a cancel that finds its callback neither in flight nor queued, or the end of a callback that is still in flight |
| `Threads.HaltedExactly` | event/callback_thread.cc:92-164 | a run has halted if and only if its last step was such a step |
| `Threads.DisciplinedNeverHalts` | event/callback_thread.cc:92-164 | if whatever is executed is cancelled in flight before it returns, and no cancel misses, no state of the run is halted |
| `Threads.ServedForSure` | event/callback_thread.cc:115-164 | in such runs the queue is served within five steps for each thread: a callback starts or the queue is empty |
| `ThreadsImpl.MutexState.LockAcquire` | common/thread/mutex_posix.h:91-103 | owner and waiters up to the first wait |
| `ThreadsImpl.MutexState.LockRetry` | common/thread/mutex_posix.h:98-102 | owner and waiters each time a wait returns |
| `ThreadsImpl.MutexState.LockAcquireTry` | common/thread/mutex_posix.h:108-117 | takes a free mutex, leaves a taken one alone |
| `ThreadsImpl.MutexState.LockRelease` | common/thread/mutex_posix.h:133-147 | frees the mutex and signals if there are waiters |
| `ThreadsImpl.CallbackThread.Schedule` | event/callback_thread.cc:47-58 | the critical section of `schedule`, with the decision to signal |
| `ThreadsImpl.CallbackThread.Cancel` | event/callback_thread.cc:92-113 | the critical section of `cancel`: in flight, found by the search of the queue, or not found |
| `ThreadsImpl.CallbackThread.StopThread` | event/callback_thread.h:58-65 | the critical section of `stop` |
| `ThreadsImpl.CallbackThread.MainTurn` | event/callback_thread.cc:119-139 | from the test of the queue to the next wait, callback or return |
| `Splice.AnswerKeeps` | io/pipe/pipe_producer.cc:130-199 | what the owner of the pipe produces is what the pipe then holds more, unless it fails |
| `Splice.StepKeeps` | io/pipe/splice.cc:85-308 | every completion handler, every production of the owner of the pipe and a cancel keep the invariant |
| `Splice.EveryRunIsSafe` | io/pipe/splice.cc:68-308 | whatever the channels and the owner of the pipe do, in every state of every run: the sink has a prefix of what was produced, and all of it once the end is reported (unless a write reported it); at most one of read and input and one of output, write and shutdown is pending; no assertion fails; completion is reported at most once, and never after a cancel |
| `Splice.ReportsExactly` | io/pipe/splice.cc:125-308 | in every run, an error has been reported if and only if a read, an input, an output or a write has completed with one, and the end if and only if the last thing left to do has completed, or a write reported it |
| `Splice.CutExactly` | io/pipe/splice.cc:253-266 | a write that reports the end of the stream loses nothing if and only if it was the whole of the write and the pipe holds nothing more |
| `Splice.CutLosesData` | io/pipe/splice.cc:253-266 | a write that reports the end of the stream makes the splice report it too, with data unwritten |
| `Splice.EchoRun` | io/pipe/pipe_null.h:41-44 | the pass-through pipe has produced what it was fed, never fails, and has ended exactly if it was told of the end |
| `Splice.SpliceConserves` | io/pipe/splice.cc:68-308 | with no pipe or the pass-through pipe, what was written is a prefix of what was read, and equal once the end is reported |
| `Splice.StuckExactly` | io/pipe/splice.cc:202-308 | an active splice has nothing left to complete if and only if it awaits the end from a pipe that was told of the end, gave out all it had and has not ended |
| `Splice.NeverStuck` | io/pipe/splice.cc:202-308 | with no pipe or the pass-through pipe that never happens |
| `SpliceImpl.PipeProducer.OutputDo` | io/pipe/pipe_producer.cc:106-128 | an error, the buffered data or the end, in this order, or nothing yet |
| `SpliceImpl.PipeProducer.Output` | io/pipe/pipe_producer.cc:75-88 | an event at once, or the request is kept |
| `SpliceImpl.PipeProducer.OutputCancel` | io/pipe/pipe_producer.cc:90-104 | no request and no event is left |
| `SpliceImpl.PipeProducer.Produce` | io/pipe/pipe_producer.cc:130-152 | data, or the end for an empty buffer, reaches a request that is kept |
| `SpliceImpl.PipeProducer.ProduceEOS` | io/pipe/pipe_producer.cc:154-174 | the data and then the end |
| `SpliceImpl.PipeProducer.ProduceError` | io/pipe/pipe_producer.cc:176-199 | drops what is buffered and fails; ignored after the end |
| `SpliceImpl.PipeProducer.Input` | io/pipe/pipe_producer.cc:51-73 | everything is consumed, and the verdict tells whether the pipe has failed |
| `SpliceImpl.Splicer.Start` | io/pipe/splice.cc:68-83 | one read is pending, and one request for output if there is a pipe |
| `SpliceImpl.Splicer.Cancel` | io/pipe/splice.cc:85-123 | whatever is pending is called off, or else the report of the completion |
| `SpliceImpl.Splicer.Complete` | io/pipe/splice.cc:125-159 | every pending action is cancelled and the result reported |
| `SpliceImpl.Splicer.ReadComplete` | io/pipe/splice.cc:161-200 | data to the pipe or the sink, the end, or an error |
| `SpliceImpl.Splicer.InputComplete` | io/pipe/splice.cc:202-224 | read on, or complete if the output has ended too |
| `SpliceImpl.Splicer.OutputComplete` | io/pipe/splice.cc:226-251 | data to the sink, its shutdown, or an error |
| `SpliceImpl.Splicer.WriteComplete` | io/pipe/splice.cc:253-284 | more output, more input, or an error |
| `SpliceImpl.Splicer.ShutdownComplete` | io/pipe/splice.cc:286-308 | completes if the input has ended, and remembers otherwise |

## Left out

- RoundTrip.RoundTrip: out of band, how the decoder comes by the encoder's cache is not modelled; it is given.
- EncoderImpl.XCodecEncoder.Encode: the segment length is fixed at 2048 and the queue is a byte string, not a segment list; `BufferImpl` and `BufferQueries` are where segment lists are shown to behave as byte strings.
- DecoderImpl.XCodecDecoder.Decode: the same.
- PipeImpl.XCodecPipePair.DecoderConsume: caches and windows are values, not shared objects; that other streams use the same cache is a step of the environment.
- ProtocolRun.EveryRunIsSafe: safety only; that the two ends eventually close is not claimed (`ProtocolAck.NeverAcknowledged` shows a run in which they do not, as long as one of them neither sends nor ends).
- BufferImpl.BufferHeap.Trim: `trim` with a clip, which no caller in the repository passes, is not modelled; nor is trimming more than the buffer holds, which steps back from the end of an empty list and has no defined effect.
- BufferImpl.BufferHeap.ExecuteAll: `cut`, `trim` with a clip, and appending or moving a buffer to itself are not among the operations; nor are those that read without changing anything, which are in `BufferQueries` (`find_any` is not), nor those that copy to or from plain memory, which are an append, or a copy and a skip.
- BufferImpl.BufferHeap.Unref: the free list of segments is not modelled; a freed segment is gone, and a new one has a new name. The counter is not an atomic one.
- SshTransport.PacketsArriveInOrder: algorithms are fixed for the run, payloads fit a 32-bit length, and what a handler does with a payload is a function of the payload. Rekeying, NEWKEYS and the identification strings are not modelled.
- SshNegotiation.ChooseAlgorithm: algorithms are their names; cloning the chosen object is not modelled. Multiple-precision integers are not modelled.
- Threads.EveryRunIsSafe: what a callee does with its own pointers when it cancels a callback in flight from another thread is not modelled; a cancel that finds nothing, or a callback that returns without having been cancelled, halts the program. A timed wait is a wait that may return unasked.
- ThreadsImpl.MutexState.LockAcquire: a method covers what happens between two waits; waiting itself is a step of `Threads`.
- Endian.SwapReverses: on unbounded integers; that quotients, remainders, products and sums of machine words that do not overflow are those of integers is taken as read.
- `TimeoutQueue`, the poll back ends, sockets, the tack program and its caches, compression, configuration, HTTP, SOCKS and logging: plumbing around the parts above.
