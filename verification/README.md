# moqsub in Dafny

moqsub subscribes to a media broadcast over MoQT (draft-ietf-moq-transport-18). This project models its two
hard layers and the recorder beside them, and proves what they promise.

**The wire codec.** Varints (section 1.4.1), control messages and their key-value pairs (sections 10 and 10.3),
SUBSCRIBE (section 10.7), subgroup streams (section 11.4.2). The code is methods over byte buffers and over
`Input.Reader`, a byte string that ends, read by `ReadFull` as `io.ReadFull` does it: end of file when nothing is
there, unexpected end of file when only a part is, success for a read of no bytes. Each method is proved equal to a
parsing or encoding function, and the laws are proved about those functions. moqsub has no encoder for subgroup
streams and no decoder for SUBSCRIBE; `Subgroup.EncodeObjects` and `Subscribe.Decode` are specification functions
for them. An unsigned 64-bit number is `uint64`; every addition that the source does not check is `Bytes.Add64`,
which wraps.

**The subscriber.** `Session` is a step system: the bootstrap goroutine (catalog, then init, then media), one reader
per request stream, any number of subgroup stream readers, and a relay that sends whatever it likes whenever it
likes. One step is one critical section, one channel operation, one atomic addition, one test or one assignment of
`gotFirst`, or one write to the sink. `Exec(run)` is the state after any list of steps, and a step that is not
possible changes nothing, so that a statement about all runs is a statement about all interleavings. Timeouts,
cancellation, and errors of sending, parsing and writing are steps that may happen wherever the source can return
them. Some fields are history and no step depends on them: what was read, offered, received, bound and written.
`Runner` is the same code as methods that change the runner in place, one goroutine at a time; its sink is an
`Output.Writer`, whose writes succeed or fail as its `fate` says, so that the contracts cover every pattern of failing
writes. `Delivery.SoloRun`, `Delivery.BrokenIsFailure` and `Runner.Runner.ObjectLoop` tie the object loops of both to one function,
`Responses.SoloReader` and `Runner.Runner.ReadRequestStream` the request readers.

**The recorder.** `Richlog.Recorder` keeps one group object per (stream, group) in a map and in its event list.

Files, in the order in which they build on each other:

- `Bytes`, `Input`, `Output`: numbers, digits, readers, writers.
- `Varint`, `Frames`, `KeyValue`, `Canonical`, `Subscribe`, `Subgroup`: the codec.
- `UniStream`, `Cuts`, `Rejection`: the handlers of unidirectional streams, as parsers and as a machine that issues one
  read at a time; where a stream can be cut without anybody noticing; which rejected messages nobody hears of.
- `Registry`, `Session`, `Invariants`, `History`, `SinkOrder`, `Handoff`, `Exchange`, `Bootstrap`, `Counters`, `Relay`:
  the registry, the step system, and what holds in every reachable state.
- `Objects`, `ObjectIDs`, `Delivery`, `EarlyData`, `Responses`, `Runner`, `WireToSink`: the arithmetic of IDs, one stream
  run alone, runs in which data overtakes SUBSCRIBE_OK, request streams, the handlers as code, and the way from a
  publisher's objects to the sink.
- `Richlog`, `GroupBy`: the recorder.

## What is false

Some things one would expect of this code do not hold. Each has a lemma at concrete inputs and a lemma that says exactly
when it does hold.

| expected | fails at | holds exactly when |
|---|---|---|
| Object IDs increase within a subgroup, as `internal/richlog/richlog.go:140` says | `ObjectIDs.IDsCanWrap`: any two deltas that overflow, as bytes | `ObjectIDs.IncreasingIff`: the sum of the deltas plus the number of objects minus 1 stays below 2^64 |
| Decoded option types strictly increase | `Canonical.RepeatedTypeAccepted`: the same type twice, with any value | `Canonical.IncreasingIffDeltas`: no delta on the wire but the first is 0 |
| A stream that ends inside a message is reported | `Cuts.EarlyEndHappens`: a SETUP cut behind its type | `Cuts.ErrorKindIsExact`: the cut is strictly inside one read; `Cuts.RegionsOfFrame`, `Cuts.RegionsOfHeader` and `Cuts.RegionsOfObject` list the reads |
| A rejected SETUP is reported | `Rejection.SilentRejectionHappens`: behind any acceptable messages, one odd type with nothing after it | `Rejection.SilentRejection`: unless its payload is whole pairs and then a part of one that ends at the start of a read |
| A request stream has one response, as `internal/app/subscriptions.go:278-282` says | `Responses.TwoResponses`: two SUBSCRIBE_OKs as bytes, both are bound, the first is signalled | `Responses.LaterResponse`: a further message changes nothing exactly if it is not the first response and binds no alias anew |
| Routing is stable | `EarlyData.RoutingCanChange`: a run in which a second SUBSCRIBE_OK for the catalog names the init request ID | `History.RoutingStableIff`: in a run, no request reader of another subscription ever binds that number |

## Model

| member | source | states |
|---|---|---|
| Varint.SizeIsLeast | internal/moqt/draft18/varint.go:22-43 | the size is at most n exactly when the value fits into n bytes, so it is the least that works |
| Varint.AppendVarint | internal/moqt/draft18/varint.go:46-66 | the shifts, masks and the tag byte append exactly the encoding, which is given by the digits of the value in base 256 |
| Varint.DecodeVarintBytes | internal/moqt/draft18/varint.go:108-126 | masking the first byte and filling the 8-byte buffer gives the value of the encoding, for all nine lengths |
| Varint.ParseVarint | internal/moqt/draft18/varint.go:69-85 | on every byte string the same value and number of bytes as reading from a stream, and (0, 0) with an unexpected end of file where that fails |
| Varint.ReadVarint | internal/moqt/draft18/varint.go:88-106 | one read of one byte, then one read of the others if there are any; value, bytes consumed and kind of error |
| Varint.RoundTrip | internal/moqt/draft18/varint.go:46-106 | for every 64-bit value and any bytes after it, reading an encoding gives the value and leaves those bytes |
| Varint.ReadSplits | internal/moqt/draft18/varint.go:69-106 | any complete encoding, minimal or not, is read as its value whatever follows |
| Varint.ReadConsumes | internal/moqt/draft18/varint.go:69-106 | what a successful read takes off the front is one complete encoding of the value returned |
| Varint.ReadExtends | internal/moqt/draft18/varint.go:88-106 | a successful read does not depend on what comes later |
| Varint.ShortestIsUnique | internal/moqt/draft18/varint.go:22-66 | no string that decodes to v is shorter than its encoding, and no other one is as short |
| Varint.OrderPreserved | internal/moqt/draft18/varint.go:46-66 | v is below w if and only if the encoding of v is lexicographically below that of w |
| Varint.PrefixFree | internal/moqt/draft18/varint.go:69-85 | no accepted encoding is a proper prefix of another |
| Varint.SplitsOneWay | internal/moqt/draft18/varint.go:69-85 | a concatenation of encodings, minimal or not, splits in one way only |
| Input.Reader.ReadFull | internal/moqt/draft18/varint.go:88-106 | the read every decoder is made of: all the bytes, or the right one of two errors and nothing left |
| Output.Writer.Write | internal/app/run.go:491-496 | a write appends all of its bytes, or fails and appends none |
| Frames.WriteFrame | internal/moqt/draft18/codec.go:15-26 | a payload over 65535 bytes is refused without a write; any other is one write of type, 16-bit length, bytes, and the error of that write is returned |
| Frames.ReadFrameBody | internal/moqt/draft18/codec.go:44-55 | length and body, with the error of the read that failed |
| Frames.ReadFrame | internal/moqt/draft18/codec.go:28-38 | type, length and body, with the error of the read that failed |
| Frames.LengthIsBigEndian | internal/moqt/draft18/codec.go:15-26 | the length of a message stands in two bytes, the more significant one first |
| Frames.RoundTrip | internal/moqt/draft18/codec.go:15-38 | a message is read back and the bytes behind it are left |
| Frames.SequenceRoundTrip | internal/moqt/draft18/codec.go:15-55 | any list of messages written back to back is returned by reading in a loop, which then ends with end of file |
| Frames.ReadAllCut | internal/moqt/draft18/codec.go:28-55 | any stream cut anywhere: exactly the messages wholly before the cut are read |
| KeyValue.EncodeKeyValuePairs | internal/moqt/draft18/codec.go:195-225 | the loop computes the recursive encoding, error for error |
| KeyValue.AppendValue | internal/moqt/draft18/codec.go:206-222 | the value of an odd type with its length; of an even type as one minimal varint, or an error |
| KeyValue.DecodeKeyValuePairs | internal/moqt/draft18/codec.go:227-264 | the loop computes the recursive decoding, error for error |
| KeyValue.ReadPair | internal/moqt/draft18/codec.go:231-262 | one round of that loop |
| KeyValue.CountKeyValuePairs | internal/moqt/draft18/codec.go:266-272 | the number of pairs, or the decoder's error |
| KeyValue.EncodesIff | internal/moqt/draft18/codec.go:195-225 | encoding succeeds exactly when the types strictly increase and every even-typed value is empty or one varint |
| KeyValue.EncodeFails | internal/moqt/draft18/codec.go:195-225 | the first option that cannot be encoded decides the error: its type if that does not increase, otherwise its value |
| KeyValue.DecodeFails | internal/moqt/draft18/codec.go:231-253 | a delta that takes the type to 2^64 or beyond, and a length that exceeds the payload, with the error of each |
| KeyValue.RoundTrip | internal/moqt/draft18/codec.go:195-264 | decoding an encoding gives the options with each even-typed value replaced by its minimal varint, empty by 0 |
| KeyValue.PairRoundTrip | internal/moqt/draft18/codec.go:195-264 | the same for one pair in front of anything |
| Canonical.TypesAreSums | internal/moqt/draft18/codec.go:231-240 | every decoded type is the unbounded sum of the deltas up to it: the overflow check leaves no room to wrap |
| Canonical.TypesNeverDecrease | internal/moqt/draft18/codec.go:227-264 | decoded types never decrease, and there are at most half as many pairs as bytes |
| Canonical.IncreasingIffDeltas | internal/moqt/draft18/codec.go:231-240 | decoded types strictly increase exactly when no delta but the first is 0 |
| Canonical.Canonicalise | internal/moqt/draft18/codec.go:195-264 | an accepted payload can be encoded again exactly when its types strictly increase; the result is no longer, decodes to the same pairs, and is a fixed point |
| Canonical.RepeatedTypeAccepted | internal/moqt/draft18/codec.go:231-240 | for every value, a payload that holds the same type twice is accepted and cannot be encoded again |
| Subscribe.EncodeTrackNamespace | internal/moqt/draft18/codec.go:169-188 | at most 32 fields, none empty, at most 4096 bytes, each with its length |
| Subscribe.EncodeSubscribe | internal/moqt/draft18/codec.go:73-94 | the body of the message, or the first error |
| Subscribe.EncodesIff | internal/moqt/draft18/codec.go:73-94 | exactly which messages are accepted: at most 32 fields, none empty, at most 4096 bytes together, parameters that decode; and the error of the others |
| Subscribe.CountIsExact | internal/moqt/draft18/codec.go:73-94 | reading n pairs uses up the parameters for exactly one n, the announced one, and gives the decoder's pairs |
| Subscribe.RoundTrip | internal/moqt/draft18/codec.go:73-94 | a decoder that believes the announced counts recovers request ID, namespace fields, name and parameters |
| Subscribe.Injective | internal/moqt/draft18/codec.go:73-94 | different messages have different encodings |
| Subgroup.ParseSubgroupHeader | internal/moqt/draft18/stream.go:58-92 | the fields in order for every accepted stream type, the error of the read that failed, and no read at all for another type |
| Subgroup.FlagsAreBits | internal/moqt/draft18/stream.go:11-92 | the accepted types and all flags of a header that is read, as bits of the type number |
| Subgroup.SubgroupObjectReader.Next | internal/moqt/draft18/stream.go:107-158 | one object: ID, extensions, status or payload; a failed call leaves the previous ID unchanged |
| Subgroup.HeaderRoundTrip | internal/moqt/draft18/stream.go:58-92 | every valid header is read back from its encoding |
| Subgroup.StreamRoundTrip | internal/moqt/draft18/stream.go:58-158 | header and objects with strictly increasing 64-bit IDs are returned exactly, with extension bytes, status or payload, then end of file |
| Cuts.WireObjectIsRead | internal/moqt/draft18/stream.go:107-158 | any object on the wire, its varints in any encoding, after any previous ID: the reader returns all of its fields |
| Subgroup.ObjectExtends | internal/moqt/draft18/stream.go:107-158 | an object that can be read does not depend on later bytes |
| Subgroup.PartialObject | internal/moqt/draft18/stream.go:107-158 | no proper prefix of an encoded object is readable, so a partial payload is never returned |
| Subgroup.ReadObjectsCut | internal/moqt/draft18/stream.go:107-158 | any bytes cut anywhere: exactly the objects wholly before the cut are returned, as they would be without the cut |
| Subgroup.Truncated | internal/moqt/draft18/stream.go:107-158 | the same for a publisher's objects, by the lengths of their encodings |
| Subgroup.TruncatedStream | internal/moqt/draft18/stream.go:58-158 | the same for a publisher's stream with its header: nothing without all of the header |
| ObjectIDs.ReadObjectsChain | internal/moqt/draft18/stream.go:113-120 | on every byte string, each ID follows from the delta and the ID before it |
| ObjectIDs.IDIsSum | internal/moqt/draft18/stream.go:113-120 | the k-th ID is the sum of the first k + 1 deltas, plus k, modulo 2^64 |
| ObjectIDs.IncreasingIff | internal/moqt/draft18/stream.go:113-120 | the IDs strictly increase if and only if the unbounded sum stays below 2^64 |
| ObjectIDs.LastID | internal/moqt/draft18/stream.go:113-120 | without wrapping, the last ID plus 1 is the number of objects plus the sum of the deltas |
| ObjectIDs.IDsCanWrap | internal/moqt/draft18/stream.go:107-120 | for any two deltas that overflow, the bytes of two objects of which the second is read with an ID not larger than the first |
| ObjectIDs.GapHintsCountGaps | internal/app/run.go:414-417 | a hint is counted for exactly the objects whose ID is not the one after its predecessor, the first compared with 0 |
| UniStream.MachineAgrees | internal/app/run.go:227-311 | the nested handlers and the machine that issues one read at a time have the same effects and post the same error, on every byte string |
| Cuts.ErrorKindIsExact | internal/app/run.go:227-240 | a stream, if it is a control stream with acceptable messages only, cut after k bytes, posts an error exactly when k is strictly inside one read; the messages handled are a prefix of those of the whole stream |
| Cuts.CleanIff | internal/app/run.go:287-355 | the machine never stops with an error exactly on these streams; nothing on a subgroup stream is ever rejected |
| Cuts.RegionsOfVarint | internal/moqt/draft18/varint.go:88-106 | the reads of a varint: one byte, then the others |
| Cuts.RegionsOfFrame | internal/moqt/draft18/codec.go:28-55 | the reads of a control message: its type, two bytes, the body |
| Cuts.RegionsOfHeader | internal/moqt/draft18/stream.go:58-92 | the reads of a subgroup header: alias, group, subgroup ID if the type has one, priority |
| Cuts.RegionsOfObject | internal/moqt/draft18/stream.go:107-158 | the reads of an object: delta, extensions if the type has them, length, status or payload |
| Cuts.CutControl | internal/app/run.go:287-311 | a control stream of acceptable messages, cut anywhere: exactly the messages wholly before the cut are dispatched |
| Cuts.EarlyEndHappens | internal/app/run.go:227-240 | a SETUP cut behind its type ends silently, one byte later it is reported |
| Cuts.FirstVarintIsShared | internal/app/run.go:264-311 | on a stream that starts with 0x2F00 the stream type taken as a message type dispatches and posts what reading messages from byte 0 does |
| Cuts.StreamTypes | internal/app/run.go:264-285 | the type of a stream decides: 0x2F00 for control, 0x10 to 0x15 and 0x18 to 0x1d for objects, and any other stream is left alone |
| Cuts.MessageIsDispatched | internal/app/run.go:299-355 | a message is rejected exactly if its type is 0x2F00 and its payload does not decode, with the decoder's error |
| Cuts.LoopDispatchesAll | internal/app/run.go:299-311 | if no message is rejected, the messages dispatched are those that a loop of ReadFrame returns |
| Rejection.DecodeEnds | internal/moqt/draft18/codec.go:227-264 | the decoder fails with end of file exactly on whole pairs followed by one byte that announces a longer varint, or by a delta that does not overflow with or without such a byte |
| Rejection.SilentRejection | internal/app/run.go:227-355 | on every control stream with a rejected message, exactly those before the first one are dispatched; it is a SETUP, and nothing is posted exactly when its payload is of that form |
| Rejection.SilentRejectionHappens | internal/app/run.go:227-355 | behind any acceptable messages and in front of anything, a SETUP with one odd type and no more is rejected silently |
| Registry.SubscriptionRegistry.AllocRequestID | internal/app/subscriptions.go:56-62 | returns the counter and adds 2 to it, wrapping |
| Registry.SubscriptionRegistry.RegisterSub | internal/app/subscriptions.go:64-68 | the request map gains the subscription under its request ID; nothing else changes |
| Registry.SubscriptionRegistry.BindAlias | internal/app/subscriptions.go:70-74 | the alias map gains the subscription under the alias; nothing else changes |
| Registry.SubscriptionRegistry.LookupDelivery | internal/app/subscriptions.go:113-123 | the alias map first, then the request map, and which of them answered |
| Registry.AllocatedIDs | internal/app/subscriptions.go:56-62 | over every history the k-th request ID is 2k modulo 2^64 |
| Registry.RequestIDsDistinct | internal/app/subscriptions.go:56-62 | request IDs are even, and two are equal exactly when a multiple of 2^63 allocations lies between them |
| Registry.RoutedFromRegistration | internal/app/subscriptions.go:64-123 | if no number is claimed for two subscriptions, a lookup finds the owner from registration onward, before and after binding |
| Registry.AliasIsRequestID | internal/app/subscriptions.go:56-74 | if registrations use the counter's request IDs, at most 2^63 of them, and only their own ID is bound to them, every number has one owner |
| Registry.UnclaimedIsUnmapped | internal/app/subscriptions.go:113-123 | a number nobody has claimed is answered with nothing |
| Registry.BoundIsFinal | internal/app/subscriptions.go:70-123 | under merely distinct aliases the answer for an alias never changes once it is bound |
| Registry.AnsweredIff | internal/app/subscriptions.go:56-123 | over any history, the answer for a number stays with its first claimant exactly if every later operation keeps it there: no other binding of that number, and no other registration while it is unbound |
| Registry.StableIff | internal/app/subscriptions.go:56-123 | if registrations use the counter's request IDs, under arbitrary aliases: exactly if nobody else is ever given that number as alias |
| History.RegistryIsHistory | internal/app/subscriptions.go:125-347 | in every run of the session, for any relay, the registry is the result of its operations, every registration uses the counter's next request ID, and there are at most three |
| History.RoutingStableIff | internal/app/subscriptions.go:56-347 | for every run and any relay: from its first claim on a number is answered with its claimant, exactly if no request reader of another subscription ever binds it |
| EarlyData.RoutingCanChange | internal/app/subscriptions.go:125-347 | a run in which the init request ID is first answered with the init subscription and later, after a second SUBSCRIBE_OK for the catalog, with the catalog subscription |
| SinkOrder.InitBeforeMedia | internal/app/subscriptions.go:170-199 | in every interleaving and for any relay, the sink is empty, or the payload received for the init track followed by whole payloads of media streams |
| SinkOrder.MediaUnreachableBeforeInit | internal/app/subscriptions.go:181-222 | until the init write, no lookup finds the media subscription, and no stream is mapped to it |
| SinkOrder.MediaExactlyOnce | internal/app/run.go:405-437 | each media stream has written, once and in wire order, the payloads it has read, except possibly the one in flight; no other stream has written anything |
| SinkOrder.AlwaysOrdered | internal/app/subscriptions.go:125-207 | the invariant behind these three, kept by every step of everybody |
| Handoff.VerdictIsFirst | internal/app/subscriptions.go:283-363 | a verdict received is the first SUBSCRIBE_OK or REQUEST_ERROR on that request stream, and an accepted alias was bound to that subscription before |
| Handoff.FirstObjectIsFirst | internal/app/subscriptions.go:365-388 | an object received is the first payload any reader offered, also if several readers pass the test of gotFirst, and a stream of that subscription has read it |
| Handoff.FirstIsNeverLost | internal/app/subscriptions.go:283-388 | in every reachable state the first response read has been received, or is in the channel, or is about to be sent; the first payload offered has been received or is in the channel |
| Exchange.NothingTwice | internal/app/subscriptions.go:349-376 | in every run the responses received, in the channel and about to be sent are no more than have arrived, and the objects received and in the channel no more than have been offered |
| Bootstrap.RejectionEnds | internal/app/subscriptions.go:125-207 | in every run and for every role, a rejection that is received ends the bootstrap |
| Bootstrap.FailsByRejection | internal/app/subscriptions.go:125-207 | without a timeout or error from outside, the bootstrap fails exactly by receiving a rejection |
| Bootstrap.ReadyMeansServed | internal/app/subscriptions.go:125-207 | the bootstrap succeeds only if all three subscriptions were sent and accepted, catalog and init delivered their first object, and the init segment is in the sink |
| Bootstrap.OneAfterTheOther | internal/app/subscriptions.go:125-207 | no request ID is handed out before the earlier subscriptions are served, none for media before the init segment is in the sink |
| Bootstrap.BootstrapEnds | internal/app/subscriptions.go:125-207 | from every reachable state the bootstrap's own steps and failures bring it to an end in at most four |
| Bootstrap.FailsExactlyThere | internal/app/subscriptions.go:125-207 | it can fail on its own exactly while sending, waiting, parsing the catalog and writing the init segment, and leaves everything else as it is |
| Handoff.NoSenderBlocks | internal/app/run.go:405-437 | whatever all others do in between, a stream reader is at its next read or its end after at most five steps of its own |
| Handoff.NoVerdictBlocks | internal/app/subscriptions.go:283-347 | the same for a request reader after at most two, whether or not anybody receives |
| Handoff.AlwaysHanded | internal/app/subscriptions.go:283-388 | the invariant behind these, kept by every step of everybody |
| Counters.BytesConserved | internal/app/subscriptions.go:181-184 | bytes counted plus bytes written and not yet added are the length of the sink, in every reachable state |
| Counters.ObjectsConserved | internal/app/run.go:405-437 | when no reader is in the middle of an object, objects seen are status objects, plus unmapped, plus handed to catalog or init, plus the media writes in the sink; gap hints do not exceed them |
| Counters.AlwaysCounted | internal/app/run.go:405-437 | the invariant behind these, kept by every step of everybody |
| Relay.RoutedByRequestID | internal/app/run.go:374 | for a relay that opens streams only after SUBSCRIBE and uses alias = request ID, every stream is mapped to the subscription with that ID, whatever the order of SUBSCRIBE_OK and data |
| Relay.MediaDelivered | internal/app/run.go:405-437 | then every stream that carries the media request ID has put into the sink, once and in order, all payloads it has read but the one in flight |
| Relay.MappingIsFixed | internal/app/run.go:374 | for any relay and any continuation of a run, a stream keeps the answer of its one lookup |
| EarlyData.EarlyDataIsDelivered | internal/app/subscriptions.go:109-207 | for all payloads there is a run in which all media data is in the sink while the media request stream is still silent, and the bootstrap then completes with the same sink |
| Delivery.SinkGains | internal/app/subscriptions.go:378-399 | the loop over one stream adds to the sink the payloads of a media stream, in order, up to the first write that fails, and nothing for another stream; it fails exactly if one of its writes does |
| Delivery.CountersGain | internal/app/run.go:405-437 | it adds the number of objects it takes, and of positive deltas and statuses among them, to the counters |
| Delivery.OffersFirst | internal/app/subscriptions.go:378-388 | a catalog or init stream offers its first payload, and only if no reader has had a first object before |
| Delivery.HandleIsDeliver | internal/app/run.go:405-437 | the steps of one reader left alone amount to one round of the loop |
| Delivery.SoloRun | internal/app/run.go:405-437 | the whole loop run without interference is the fold of its rounds |
| Delivery.SoloStream | internal/app/run.go:357-438 | a whole stream without interference: counted, mapped once, delivered to its end |
| Delivery.BrokenIsFailure | internal/app/run.go:432-434 | a media write that fails stops the reader where the loop stops |
| Runner.Runner.NewTrackSubscription | internal/app/subscriptions.go:209-222 | a new request ID, empty channels, registered before it is returned |
| Responses.DecodeSubscribeOK | internal/moqt/draft18/codec.go:100-119 | alias, number of parameters and the remaining bytes, or the error of the read that failed |
| Responses.DecodeRequestError | internal/moqt/draft18/codec.go:125-156 | code, retry interval, a reason of at most 1024 bytes and the redirect bytes, or the error |
| Responses.SubscribeOKRoundTrip | internal/moqt/draft18/codec.go:100-119 | two varints in any encoding and any bytes behind them are decoded to alias, number of parameters and those bytes |
| Responses.SubscribeOKShape | internal/moqt/draft18/codec.go:100-119 | nothing else is accepted |
| Responses.RequestErrorRoundTrip | internal/moqt/draft18/codec.go:125-156 | code, retry interval, reason and redirect come back if the reason has at most 1024 bytes; a longer one is refused |
| Responses.RequestErrorShape | internal/moqt/draft18/codec.go:125-156 | nothing else is accepted |
| Responses.AcceptanceIsReceived | internal/app/subscriptions.go:283-327 | on bytes: a message of type 4 with any alias, number of parameters and properties is acted on as SUBSCRIBE_OK |
| Responses.RejectionIsReceived | internal/app/subscriptions.go:328-339 | on bytes: a message of type 5 whose reason is not too long rejects, on an empty channel, and ends the stream |
| Responses.OthersAreReceived | internal/app/subscriptions.go:283-347 | other types are skipped; a response that does not decode ends the stream |
| Responses.SoloReader | internal/app/subscriptions.go:283-347 | the steps of a request reader left alone with a whole stream leave in channel and registry what `ReadRequestStream` is specified to |
| Responses.StreamEnds | internal/app/subscriptions.go:283-293 | when the stream ends the reader is done and nothing else changes |
| Responses.ReceivedEnds | internal/app/subscriptions.go:283-347 | nothing behind a REQUEST_ERROR is acted on |
| Responses.LaterResponse | internal/app/subscriptions.go:283-347 | when one more message on a request stream changes the channel or the registry |
| Responses.TwoResponses | internal/app/subscriptions.go:283-347 | a byte stream with two SUBSCRIBE_OKs: both aliases are bound, the first is signalled |
| Runner.Runner.ReadRequestStream | internal/app/subscriptions.go:283-347 | over a whole request stream, the channel gets the first verdict and keeps it, and every accepted alias is bound |
| Runner.Runner.DeliverSubgroupObject | internal/app/subscriptions.go:378-399 | one payload: offered once for catalog and init, written and then counted for media; the error of the write |
| Runner.Runner.ObjectLoop | internal/app/run.go:405-437 | the loop around Next has the effect of delivering every object that can be read, up to the first write that fails; it returns that error, or the one that is not end of file |
| Runner.Runner.HandleSubgroupStream | internal/app/run.go:357-438 | from the bytes of a stream to sink, counters, error and the channel of the one subscription looked up; every other subscription is untouched |
| Runner.Runner.DispatchControlMessage | internal/app/run.go:313-355 | a SETUP is decoded, and reported if that succeeds |
| Runner.Runner.HandleControlStream | internal/app/run.go:287-311 | the error returned, and that the peer's SETUP is reported exactly if one was dispatched |
| Runner.Runner.SetupIsReported | internal/app/run.go:313-355 | on bytes: a first SETUP that decodes is reported |
| Runner.Runner.HandleUniStream | internal/app/run.go:264-285 | a stream of any type: the error, the report of a SETUP, and the whole effect of a subgroup stream |
| Runner.Runner.ServeUniStream | internal/app/run.go:227-240 | what is posted to the error channel |
| WireToSink.CutStreamIsDelivered | internal/app/run.go:357-438 | a publisher's stream cut at any byte: the sink gains exactly the payloads of the objects wholly before the cut, up to the first write that fails |
| WireToSink.GapHintsAreGaps | internal/app/run.go:405-417 | on any bytes, objectsSeen grows by the number of objects taken and gapHints by the number of IDs skipped among them |
| Richlog.KeyInjective | internal/richlog/richlog.go:125 | different (stream, group) pairs have different map keys |
| Richlog.DigitsDenote | internal/richlog/richlog.go:125 | the digits in a key denote the number in base 10 |
| Richlog.WrapLaws | internal/richlog/richlog.go:146 | the signed 64-bit total is exact in range, and off by a multiple of 2^64 otherwise |
| Richlog.Recorder.Add | internal/richlog/richlog.go:104-114 | one event is appended, with the present time if it has none; no group changes; the list still shows the whole history |
| Richlog.Recorder.AddObject | internal/richlog/richlog.go:118-147 | the row goes to the one entry with its key, or to a new last one; the list still shows the whole history; map and event list keep sharing the same objects |
| Richlog.Recorder.AppendRow | internal/richlog/richlog.go:145-146 | a change of a group object shows at its one place in the list |
| Richlog.Recorder.NewGroup | internal/richlog/richlog.go:127-144 | the same new object is put into the map and behind the list |
| Richlog.Recorder.FindIsMap | internal/richlog/richlog.go:125-127 | the map finds the entry that searching the list would find |
| GroupBy.ReplayIsGroupBy | internal/richlog/richlog.go:104-147 | for every history the list has one entry per key in order of first arrival, with exactly the rows of that key in order and their wrapped sum |
| GroupBy.TotalsAreSums | internal/richlog/richlog.go:145-146 | the total of a group is the sum of its sizes while that is below 2^63, and congruent to it modulo 2^64 always |
| GroupBy.PlainKeepsTime | internal/richlog/richlog.go:104-114 | an event that has a time keeps it, another one gets the time of the call |
| GroupBy.GroupKeepsTime | internal/richlog/richlog.go:127-144 | the event of a group has the time of its first delivery and names its stream |
| GroupBy.RecorderIsGroupBy | internal/richlog/richlog.go:104-147 | a recorder shows that group-by of all calls ever made to it |
| GroupBy.StartersDiffer | internal/richlog/richlog.go:118-144 | no two entries have the same key |
| GroupBy.StarterExists | internal/richlog/richlog.go:118-144 | every key that was delivered has an entry, and no other |

## Left out

- Stream resets and other QUIC errors: a stream here delivers some bytes and ends. Resets, dialing, TLS, process
  spawning, standard output and the order of shutdown in `Run` are not part of this model.
- Memory: allocating a buffer of an announced length always succeeds; the source allocates before it reads.
- Writing: one write appends all or nothing, and its error is not end of file.
- Time: timeouts and cancellation are steps that may happen at any moment; first-object latency is not modelled.
- The data race on `gotFirst`: a test and an assignment are separate steps that interleave with those of other
  readers; what the Go memory model allows beyond that is not covered.
- The catalog: JSON parsing and the choice of tracks either fail or succeed, and the names chosen do not matter.
- `DecodeSetup` and `EncodeSetup`: wrappers around the key-value pairs.
- `splitNamespace`, `EncodeTrackNamespaceFromStrings`, `RequestErrorCodeName`, flags, log lines, the HTML page and
  its metadata: presentation, or easy members.
- The recorder: the explanation of a group's event is a shorter text; a nil recorder, which ignores all calls, and the
  names of directions are not modelled.
- The calls that the runner makes to the recorder: the two are modelled side by side.
- Incoming bidirectional streams: their one message is logged and nothing else happens.
- The error channel: what a handler posts is stated, not whether its send can block.
- Fairness: nothing is said about when a step happens, only how many of its own a reader needs.
