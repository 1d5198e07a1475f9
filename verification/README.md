# synkafka, modelled and proved in Dafny

synkafka is a producer client for Kafka 0.8. This project models its four cores and proves what
they promise over every input, every run and every interleaving.

* **The wire codec** (`Bytes`, `Crc32`, `Rfc1952`, `CheckValue`, `Wire`, `Encoder`, `Decoder`,
  `PacketDecoder`). `Wire` gives the format as a value: a tree of fields, some of which hold the
  length or the CRC-32 of what they enclose; `Rfc1952` is the sample code of section 8 of RFC 1952,
  proved to give the same checksum. `PacketEncoder` is the growing buffer with its back-patched
  fields, proved to produce exactly those bytes. `PacketDecoder` is the bounds-checked reader,
  proved equal to a function on values that includes its unsigned wrap-around and the exceptions of
  `vector::at` (`Fault`).
* **Messages and requests** (`MessageFormat`, `MessageCodec`, `MessageSet`, `Admission`,
  `SizeAccounting`, `Truncation`, `Corruption`, `SetRoundTrip`, `Protocol`, `Layout`, `Calls`).
  Message sets with and without compression, what a cut or a changed byte does to them, what a
  receiving set keeps of them, the request and response structures around them, and one call from
  end to end.
* **The RPC pipeline** (`RpcModel`, `RpcSafety`, `RpcProperties`, `RpcMatching`, `RpcQueues`,
  `Streams`). Two queues driven by restartable coroutines over one connection, as a transition
  system whose steps are strand handlers and outside events. Anything the code must never do
  (setting a promise twice, dereferencing an empty queue, resuming a stale coroutine, two reads at
  once) is a `Mishap` that stops the model; the proofs show none is reached. `RpcQueues` is the
  pipeline as objects, a promise in each call and a queue for each direction, where those mishaps
  are preconditions the handlers have to meet. `Streams` joins the pipeline to the bytes: any
  stream is a run, and with answers in order every caller decodes its own.
* **The connection** (`ConnectionModel`, `ConnectionProperties`, `Connection`) and **the metadata
  cache** (`MetadataModel`, `MetadataCache`, `MetadataRuns`, `MetadataProperties`,
  `MetadataFreshness`, `ProduceOutcomes`, `MetadataScenarios`). Steps of any number of threads under
  their locks, with invariants and termination over all interleavings, what each call returns and
  leaves behind, and the objects that take those steps in place.

Each transition system is over-approximated where it meets the outside: a timeout, an error or a
lost connection is possible whenever the code allows for it, and time is a counter that never goes
back. Where a stated property fails in the code, the model keeps the code's behaviour, and the
lemma gives the exact condition under which the property holds; `Counterexamples` and
`MetadataScenarios` have an input or a run for each.

The compression libraries are a pair of functions with stated laws (`Wire.Lawful`): decompressing
gives back what was compressed, the output is not empty and within a monotone worst-case bound.

## Where the code and its documentation disagree

* `message_set.h` says that after `message_set_full` no further push succeeds. A smaller message
  still can; `SizeAccounting.FullForEverything` says exactly when none can.
* The size check is meant to keep a set within the maximum message size. A compressed set can be up
  to 26 bytes over it, and every message has a set where it is (`Counterexamples.OverTheLimit`);
  it is within the limit exactly if its compressed bytes leave those 26 free
  (`SizeAccounting.WireSize`).
* Decoding ignores a refused push, so a receiving set that is too small loses messages without an
  error (`Counterexamples.SilentLoss`). Nothing is lost exactly if it has room for all of them
  (`Admission.KeptIffRoom`).
* A comment calls an unknown leader something that "can't happen". It happens exactly when a
  metadata response names a leader it does not list, and then on the very first call
  (`MetadataScenarios.ThrownIffUnlisted`).
* A known broker listed with another address is meant to be replaced. Its connection is closed, but
  the old address stays on record and is dialled again (`MetadataModel.OldAddressDialled`,
  `MetadataScenarios.MovedConnected`); without a connection to close, a null pointer is
  dereferenced (`MetadataModel.FaultIff`, `MetadataScenarios.MovedUnconnected`).
* A fetch is skipped when another thread has just done one. It is stamped when it is done, so the
  response may have been asked for before the request that relies on it
  (`MetadataFreshness.FreshExact`, `MetadataScenarios.StaleSkip`).
* A partial message at the end of a buffer is meant to end decoding normally. A fragment of 8 to 15
  bytes throws instead (`Truncation.CutSet`), and so does a gzip set whose inflate buffer ends in 8
  to 15, 22 or 26 unused bytes (`SetRoundTrip.SetInBuffer`). One such set makes the read of a whole
  produce request throw (`Protocol.ProduceRequestRoundTrips`, `Counterexamples.GzipRequestFaults`).
* A client id too long for its length prefix fails a call twice (`RpcProperties.OnceIffShortId`).

## Model

| member | source | states |
|---|---|---|
| `Bytes.IntRoundTrip` | src/packet_decoder.cpp:30-63 | reading back a written integer gives its value in the signed type of that width, for every width and value |
| `Bytes.NetworkOrder` | src/packet_encoder.cpp:23-56 | byte i of any integer written in k bytes is its digit k - 1 - i in base 256, so the most significant byte comes first, negative values in two's complement |
| `Bytes.FirstByteHighest` | src/packet_decoder.cpp:30-63 | the first byte read counts for the highest power of 256 |
| `Rfc1952.CrcIsRfc1952` | src/packet_encoder.cpp:250-259 | the checksum of any bytes is the one that the table-driven sample code of section 8 of RFC 1952 computes over integers |
| `Rfc1952.ChecksumField` | src/packet_encoder.cpp:243-266 | the four bytes of a checksum field are that value in network byte order |
| `CheckValues.CheckValue` | src/packet_decoder.cpp:246-253 | the checksum of the ASCII digits 1 to 9 is 0xCBF43926 |
| `Crc32.CrcBurst` | src/packet_encoder.cpp:250-259 | any change confined to four consecutive bytes, anywhere in a buffer, changes its checksum |
| `Crc32.OnlyZeroReturns` | src/packet_decoder.cpp:246-253 | only the zero register is unchanged by 5 * 2^j zero bits, for every j |
| `Crc32.ZeroRecordCrc` | src/packet_decoder.cpp:246-253 | the ten zero bytes of an empty record have a non-zero checksum, so zero padding is never taken for a message |
| `Wire.EncodeAppend` | src/packet.h:34-53 | fields written one run after the other are concatenated, and the first failure decides |
| `Encoder.PacketEncoder.constructor` | src/packet_encoder.cpp:15-21 | a fresh encoder has room for its size plus the reserved length prefix |
| `Encoder.PacketEncoder.EnsureSpaceFor` | src/packet_encoder.cpp:327-342 | terminates with room for the write, grows to less than twice what is needed, keeps the contents; by the class invariant all resizes together move at most the final capacity |
| `Encoder.PacketEncoder.Store` | src/packet.h:79-85 | a write at the end extends the packet, one inside it replaces bytes |
| `Encoder.PacketEncoder.WriteNum` | src/packet_encoder.cpp:23-56 | an integer is stored in network byte order at the cursor, or nothing happens after an error |
| `Encoder.PacketEncoder.WriteSized` | src/packet_encoder.cpp:70-101 | a length-prefixed value, null when empty, an error when too long for its prefix |
| `Encoder.PacketEncoder.StartField` | src/packet_encoder.cpp:230-279 | reserves four bytes and leaves everything before them |
| `Encoder.PacketEncoder.EndCrc` | src/packet_encoder.cpp:243-266 | the reserved field becomes the checksum of the bytes after it, nothing else changes |
| `Encoder.PacketEncoder.EndLength` | src/packet_encoder.cpp:281-295 | the reserved field becomes the number of bytes after it, nothing else changes |
| `Encoder.PacketEncoder.WriteCompressed` | src/packet_encoder.cpp:148-227 | the library's output behind its length, written inside the worst case reserved for it |
| `Encoder.PacketEncoder.Head` | src/packet_encoder.cpp:309-325 | the packet behind a prefix that counts it and the bytes sent after it |
| `Encoder.PacketEncoder.WriteItem` | src/packet_encoder.cpp:23-101 | each kind of field extends the packet by its bytes in the format |
| `Encoder.PacketEncoder.WriteItems` | src/packet_encoder.cpp:230-295 | for any initial size and any well-nested run of fields the packet grows by exactly the bytes of the pure format, so every length and CRC is right in the final bytes |
| `Decoder.ReadNumAt` | src/packet_decoder.cpp:30-63 | a written integer is read back wherever it stands, with the decoder on the next byte |
| `Decoder.ReadSizedAt` | src/packet_decoder.cpp:83-99 | a written string or byte field is read back wherever it stands |
| `Decoder.SizedCases` | src/packet_decoder.cpp:83-108 | a field with any length prefix: null for -1, truncation for any other negative length or one past the readable end, an exception for an empty value at the end of the buffer, and otherwise the bytes |
| `PacketDecoders.PacketDecoder.Check` | src/packet_decoder.cpp:290-303 | the bounds check, with the wrapped remainder of a cursor past the end |
| `PacketDecoders.PacketDecoder.SetReadableLength` | src/packet_decoder.cpp:285-288 | only the readable length changes |
| `PacketDecoders.PacketDecoder.GetNum` | src/packet_decoder.cpp:30-63 | the in-place read is the function on values |
| `PacketDecoders.PacketDecoder.GetSized` | src/packet_decoder.cpp:83-99 | the in-place read is the function on values |
| `PacketDecoders.PacketDecoder.Inflate` | src/packet_decoder.cpp:131-190 | whatever the stream holds, the chunk loop leaves its bytes followed by zeros up to a whole chunk |
| `PacketDecoders.PacketDecoder.GetValue` | src/packet_decoder.cpp:110-227 | the in-place read of a value, compressed or not, is the function on values |
| `PacketDecoders.PacketDecoder.FinishCrc` | src/packet_decoder.cpp:237-270 | the in-place check of a CRC field is the function on values |
| `MessageCodec.EncodePlain` | src/message_set.cpp:150-161 | the bytes of an uncompressed set, record after record |
| `MessageCodec.DecodePlain` | src/message_set.cpp:207-235 | from any position and limit, the messages written there are pushed in order and decoding goes on after them |
| `MessageCodec.ReadRecordShort` | src/message_set.cpp:115-140 | a record of any compression cut after its checksum ends in truncation, never in a fault or a message |
| `MessageSets.MessageSet.Add` | src/message_set.cpp:48-61 | a push that would exceed the limit leaves the set alone, any other appends the message and counts it |
| `MessageSets.MessageSet.EncodePlainInto` | src/message_set.cpp:150-161 | the loop writes the bytes of the pure format |
| `MessageSets.MessageSet.EncodeInto` | src/message_set.cpp:150-198 | writes the bytes of the set and leaves the set as it was, except that a failing inner encode leaves its compression off |
| `MessageSets.MessageSet.DecodeMessage` | src/message_set.cpp:115-140 | reading a message in place is the function on values |
| `MessageSets.MessageSet.DecodeEntry` | src/message_set.cpp:210-234 | one turn of the loop, nested sets included, is the function on values |
| `MessageSets.MessageSet.DecodeFrom` | src/message_set.cpp:199-243 | the whole loop is the function on values |
| `SizeAccounting.PlainBytesSize` | src/message_set.cpp:63-77 | the size formula is the byte count of the uncompressed encoding |
| `SizeAccounting.RunAccounted` | src/message_set.cpp:48-61 | after any run of pushes encoded_size_ is that byte count and a non-empty set is within its limit |
| `Admission.PushAllRoom` | src/message_set.cpp:48-61 | a set with room for all takes all, in order, and counts them |
| `Admission.KeptIffRoom` | src/message_set.cpp:217-221 | pushing messages one by one loses none exactly if the worst case of all of them is within the limit |
| `SizeAccounting.WireSize` | src/message_set.cpp:150-198 | a set built by pushes is within the limit on the wire, or at most 26 bytes over it when compressed; compressed, it is within the limit exactly if its bytes and those 26 are, and surely if the worst case and those 26 are |
| `SizeAccounting.RejectedStaysRejected` | src/message_set.cpp:48-61 | after a rejection every message at least as large is rejected, whatever is pushed between |
| `SizeAccounting.FullForEverything` | src/message_set.h:36-41 | every message is rejected exactly when not even an empty one fits |
| `SizeAccounting.RejectedThenAccepted` | src/message_set.h:36-41 | a rejected push followed by an accepted one |
| `Truncation.CutSet` | src/message_set.cpp:207-242 | a set cut anywhere decodes to exactly its complete messages, without error unless 8 to 15 bytes are left over, and with an exception then |
| `Truncation.WholeSet` | src/message_set.cpp:207-242 | an uncut set decodes to all its messages |
| `Corruption.AlteredSet` | src/packet_decoder.cpp:237-270 | changing up to four consecutive bytes of a message's checksum, magic and attributes bytes, key or value ends decoding in an error, a checksum failure unless the attributes changed, with only the messages before it added |
| `Corruption.UncheckedHead` | src/message_set.cpp:207-221 | no other bytes in place of an entry's offset and length are noticed: the set decodes without error to the same messages, with the offset those bytes give |
| `Corruption.AlteredWrapper` | src/packet_decoder.cpp:131-225 | the same change to a compressed set ends in an error with nothing added |
| `Corruption.CutWrapper` | src/message_set.cpp:207-242 | a compressed set cut anywhere adds nothing, without error unless 8 to 15 bytes are left |
| `SetRoundTrip.PaddedSet` | src/packet_decoder.cpp:182-185 | messages followed by zero padding are all read, and the padding ends the nested decode as its length decides |
| `SetRoundTrip.DecodeCompressed` | src/message_set.cpp:217-234 | a compressed set anywhere in a packet is stepped over exactly and its messages pushed in order, or throws if it is not recoverable |
| `SetRoundTrip.SetInBuffer` | src/message_set.cpp:115-244 | every message comes back in order and without error exactly if the set is uncompressed, non-empty with snappy, or gzip with padding other than 8 to 15, 22 or 26, and the receiving set has room for all; without room the rest is lost without error, and any other set throws |
| `SetRoundTrip.SetInPacket` | src/message_set.cpp:207-215 | a set behind a length prefix stops exactly there, with all its messages exactly under the same condition |
| `Protocol.GetDeque` | src/packet.h:217-230 | the element loop reads the count and stops at the first failing element |
| `Protocol.PutDeque` | src/packet.h:210-216 | the element loop writes the count and the fields of each element |
| `Protocol.DequeExact` | src/packet.h:217-230 | in any packet a sequence is read up to the announced number of elements, none for a negative one, or up to the first that fails, whose error is that of the whole |
| `Protocol.DequeRoundTrips` | src/packet.h:207-231 | a sequence of elements that each round trip round trips, wherever it stands |
| `Protocol.BrokerRoundTrips` | src/protocol.h:60-65 | every broker reads back as itself |
| `Protocol.TopicNamesRoundTrip` | src/protocol.h:40-50 | every list of topic names reads back as itself |
| `Protocol.MetadataRoundTrips` | src/protocol.h:78-113 | every metadata response reads back as itself |
| `Protocol.ProduceResponseRoundTrips` | src/protocol.h:170-206 | every produce response reads back as itself |
| `Protocol.BatchRoundTrips` | src/protocol.h:122-138 | a recoverable message set embedded behind its length is read as what the receiving set keeps of it, and the next field stays aligned |
| `Protocol.BatchFaults` | src/protocol.h:122-138 | any other set embedded there is encoded all the same and read to an exception, wherever it stands |
| `Protocol.ProduceRequestReads` | src/packet.h:207-231 | wherever a request stands, each embedded set stops at its length prefix and the fields after it stay aligned, or the first unrecoverable set ends the read of the whole request in an exception |
| `Protocol.ProduceRequestRoundTrips` | src/protocol.h:116-167 | every produce request with any number of topics, partitions and compressions is read without error and with the same messages in the same batches exactly if each set is recoverable and within the default limit of 1000000 bytes; with an unrecoverable set it is read to an exception, otherwise each batch as its receiving set keeps it |
| `Protocol.Transmit` | src/broker.h:36-37 | what the encoder makes of a request is decoded to that request |
| `Layout.BrokerLayout` | src/protocol.h:60-65 | the fields of a broker in wire order |
| `Layout.PartitionLayoutIs` | src/protocol.h:78-85 | the fields of a partition's metadata in wire order |
| `Layout.TopicLayout` | src/protocol.h:95-100 | the fields of a topic's metadata in wire order |
| `Layout.MetadataLayout` | src/protocol.h:109-113 | the fields of a metadata response in wire order |
| `Layout.ResultLayout` | src/protocol.h:177-182 | the fields of a partition's produce result in wire order |
| `Layout.ProduceResponseLayout` | src/protocol.h:185-206 | the fields of a produce response in wire order |
| `Layout.BatchTopicLayout` | src/protocol.h:122-150 | the fields of a topic's batches in wire order |
| `Layout.ProduceRequestLayout` | src/protocol.h:162-167 | the fields of a produce request in wire order |
| `Layout.SizedLayout` | src/packet_encoder.cpp:70-101 | a length-prefixed field byte by byte: its length in network byte order, or 255 in every byte for the null value |
| `Layout.LengthLimit` | src/packet_encoder.cpp:70-101 | a string or byte field is refused exactly if its length does not fit the signed prefix |
| `Layout.EntryLayout` | src/message_set.cpp:112-161 | a message byte by byte: offset, length of the rest, checksum of the rest, magic byte 0, attributes 0, 1 for gzip or 2 for snappy, key, value |
| `Layout.CompressedLayout` | src/message_set.cpp:162-198 | a compressed set byte by byte: one message with offset 0, attributes 1 for gzip and 2 for snappy, a null key and the library's output for the plain set |
| `Calls.HeaderRoundTrips` | src/protocol.h:20-26 | every request header reads back as itself |
| `Calls.HeaderBytes` | src/protocol.h:20-26 | the header's bytes, and that only a client id over 32767 bytes fails |
| `Calls.EncodeRequest` | src/rpc.cpp:49-71 | fails exactly for such a client id, and otherwise gives a frame whose length counts header and body |
| `Calls.RequestArrives` | src/rpc.cpp:49-71 | a broker reads from the frame its length, this header and this request |
| `Calls.ReceiveCases` | src/rpc.cpp:253-313 | for every byte stream: length zero or less resolves unchecked, otherwise the call is resolved exactly if the length is at least 4 and the correlation id its own |
| `Calls.ResponseArrives` | src/rpc.cpp:268-309 | a response frame resolves the call it names and no other, with the decoder on its body |
| `Calls.SyncCall` | src/broker.h:33-85 | which error each failure becomes, a thrown read included, and that the request put on the wire is the encoding of its fields |
| `Calls.AnswerDelivered` | src/broker.h:52-60 | what the broker answered is what the caller decodes, whatever follows it on the stream |
| `Calls.EmptyRefused` | src/broker.h:54-60 | a response that skipped the correlation check fails to decode as either response type |
| `RpcSafety.FailCallsOnce` | src/rpc.cpp:151-170 | fail_all sets each promise of its queue once and nothing else |
| `RpcSafety.StepInv` | src/rpc.cpp:104-328 | every handler and outside event keeps the invariant of the pipeline |
| `RpcProperties.SafeRuns` | src/rpc.cpp:104-328 | in every run each call is in exactly one place, no mishap occurs, each queue is non-empty exactly while its one operation is in flight, and a coroutine suspended without one means the connection is closed |
| `RpcProperties.LongIdBreaks` | src/rpc.cpp:60-63 | with a client id that does not fit, a run of five events sets a promise twice |
| `RpcProperties.OnceIffShortId` | src/rpc.cpp:49-91 | no run has a mishap exactly if the client id fits its prefix |
| `RpcProperties.DeliveryWorks` | src/rpc.cpp:193-328 | every delivery to a handler uses up work |
| `RpcProperties.NoHungFutures` | src/rpc.cpp:142-170 | with no more calls only so many deliveries remain, and when none is left both queues are empty and every promise is set |
| `RpcMatching.AnyBroker` | src/rpc.cpp:290-317 | whatever the broker sends, a resolved call got its own correlation id, which no other call has, and no older call is still waiting |
| `RpcMatching.UncheckedIffEmpty` | src/rpc.cpp:268-313 | a call is resolved without that check exactly when some response had length zero or less |
| `RpcMatching.InOrderBroker` | src/rpc.cpp:290-317 | a broker that answers in order never fails the check, and each call gets the answer to its own request or is lost with the connection |
| `RpcMatching.PipelineOrder` | src/rpc.cpp:122-131 | every call in the queues has an id given out before and larger than all those ahead of it, and while the connection is open they are the last ones given out |
| `RpcMatching.NumberedFromZero` | src/rpc.cpp:122-131 | in every run the n calls that have reached the strand have the correlation ids 0 to n - 1 |
| `RpcQueues.Rpc.Settle` | src/rpc.cpp:83-91 | a promise is set only if it is unset |
| `RpcQueues.RpcQueue.FailAll` | src/rpc.cpp:142-170 | every call of the queue ends failed, given that they are different and unsettled, with the queue empty and the connection closed |
| `RpcQueues.FailCallsFresh` | src/rpc.cpp:163-169 | a fail_all that sets no promise twice has calls that are all different and unsettled |
| `RpcQueues.Broker.RecvOperator` | src/rpc.cpp:234-328 | entered wherever its coroutine is suspended, the receive handler does what the step prescribes, never reading twice or resolving twice |
| `RpcQueues.Broker.SendOperator` | src/rpc.cpp:193-232 | entered wherever its coroutine is suspended, the send handler does what the step prescribes, never writing twice |
| `RpcQueues.Broker.Push` | src/rpc.cpp:122-140 | a push numbers the call, appends it and, on an empty queue, enters a coroutine that is never a stale one |
| `RpcQueues.Broker.OwnedOnce` | src/rpc.cpp:104-188 | in every valid broker each call is held exactly once: by the strand, by one queue, or by its set promise |
| `RpcQueues.Broker.Handle` | src/rpc.cpp:104-328 | any enabled event is handled as prescribed, with all the preconditions above met, and the broker stays valid |
| `RpcQueues.Drive` | src/broker.cpp:13-20 | a new broker driven through any run ends valid, in the prescribed state |
| `Streams.OneResponse` | src/rpc.cpp:253-326 | any response, whatever its bytes, is a run of the pipeline that resolves the oldest call exactly if the receive coroutine does and otherwise fails every waiting call |
| `Streams.AnyStream` | src/rpc.cpp:248-327 | any stream of bytes is a run of the pipeline |
| `Streams.InOrderStream` | src/rpc.cpp:248-327 | in any run, with calls, writes, errors and closes between its reads, that parses a stream whose frames answer the requests on the wire in order, every call so far is lost with the connection or resolved by the response to its own request, its decoder at exactly that answer |
| `Streams.OwnAnswer` | src/broker.h:52-60 | in any such run each caller that is resolved decodes the value its own request was answered |
| `ConnectionModel.StepInv` | src/connection.cpp:23-202 | every step of every thread and of the coroutine keeps the invariant |
| `ConnectionProperties.ForwardOnly` | src/connection.cpp:71-131 | states only move forward, a closed connection stays closed for its reason, and no connect() returning after that succeeds |
| `ConnectionProperties.OneReason` | src/connection.cpp:23-64 | every error any thread ever got is the one recorded reason, never success; the coroutine starts at most once and connect() recurses at most once |
| `ConnectionProperties.FirstCloseDecides` | src/connection.cpp:23-64 | every run that ends closed has one step that closed it, whose reason is the one recorded, whatever came after |
| `ConnectionProperties.OkWasConnected` | src/connection.cpp:107-115 | in every run, a connect() that succeeded did so at a moment the connection was up |
| `ConnectionProperties.ConnectOutcome` | src/connection.cpp:161-200 | in every run a successful async_connect brings the connection up unless it was closed meanwhile; a refused one closes it exactly if by then as many were refused as the resolver offered, and otherwise the next endpoint is tried |
| `ConnectionProperties.NoLostWakeup` | src/connection.cpp:60-61 | a waiter not yet notified has a running connect attempt or a pending notify ahead of it |
| `ConnectionProperties.NoHungConnects` | src/connection.cpp:87-131 | every connect() returns after a bounded number of deliveries, without relying on its timeout |
| `ConnectionProperties.RunSeenByQueues` | src/connection.h:45-46 | to the queues any run of the connection is a run of comings up and closes that ends in the same state |
| `Connections.Connection.CloseLocked` | src/connection.cpp:23-64 | the first close records its reason, later ones return it |
| `Connections.Connection.Close` | src/connection.cpp:207-210 | close() returns the recorded reason, which is never success |
| `Connections.Connection.ConnectBody` | src/connection.cpp:71-127 | connect() returns success exactly if it found the connection up, the recorded reason if it is closed, and otherwise waits or starts |
| `Connections.Connection.StartCoroutine` | src/connection.cpp:118-126 | the coroutine was never started before, and nobody is left who could start it again |
| `Connections.Connection.EndWait` | src/connection.cpp:90-115 | a waiter closes the connection only if its time ran out while still connecting, and every error it returns is the recorded reason |
| `Connections.Connection.Resume` | src/connection.cpp:136-202 | entered wherever it is suspended, the coroutine never reopens a closed connection, brings it up exactly on a success while still connecting, and goes on to the next endpoint on a failure that leaves one |
| `MetadataModel.LeadersFirstWins` | src/producer_client.cpp:419-429 | the partition map holds each listed partition with the leader of its first entry, and nothing else |
| `MetadataModel.FaultIff` | src/producer_client.cpp:396-402 | a refresh dereferences a null connection exactly when a listing disagrees with the address on record of a node without one |
| `MetadataModel.RefreshExact` | src/producer_client.cpp:374-432 | after a refresh the brokers are exactly those listed, the partitions the first-wins map, and which configuration and connection each broker keeps |
| `MetadataModel.RefreshCloses` | src/producer_client.cpp:396-417 | a refresh closes exactly the connections it drops |
| `MetadataModel.AddressKept` | src/producer_client.cpp:395-402 | after any refresh the address on record is a listed one exactly if it was so before, or, for a new broker, if its first listing has it |
| `MetadataModel.OldAddressDialled` | src/producer_client.cpp:395-402 | a broker known before a refresh is connected to at its old address after it |
| `MetadataModel.ShortcutSound` | src/producer_client.cpp:405-417 | the size comparison tells exactly whether some known broker is gone |
| `MetadataModel.CoveredIffListed` | src/producer_client.cpp:374-429 | after a refresh every leader is known exactly if the response lists its leaders |
| `MetadataModel.DialExact` | src/producer_client.cpp:321-339 | each configured address tried gets a connection of its own, closed exactly if it failed, and no other connection is touched |
| `MetadataCaches.MetadataCache.AddBrokers` | src/producer_client.cpp:381-403 | the first loop of a refresh is the function on values and collects the listed ids |
| `MetadataCaches.MetadataCache.EraseDead` | src/producer_client.cpp:407-416 | the removal loop keeps exactly the live brokers and closes the connections of the others |
| `MetadataCaches.MetadataCache.BuildPartitions` | src/producer_client.cpp:420-426 | the nested loops build the first-wins map |
| `MetadataCaches.MetadataCache.ApplyResponse` | src/producer_client.cpp:374-432 | the whole section, with its shortcut, is the function on values |
| `MetadataCaches.MetadataCache.PickBroker` | src/producer_client.cpp:308-344 | the live connection of the smallest node id if there is one, otherwise the first configured address that connects, with the error of the last one tried |
| `MetadataCaches.MetadataCache.DialConfigs` | src/producer_client.cpp:321-339 | the dialling loop makes one connection for each address tried and stops at the first that connects |
| `MetadataCaches.MetadataCache.FindBroker` | src/producer_client.cpp:216-260 | in place: a connection is found exactly for a known leader, the one on record unchanged if it is up and otherwise exactly one new one; nothing is found exactly without a leader; the cache stays covered |
| `MetadataCaches.MetadataCache.CloseFailed` | src/producer_client.cpp:262-288 | closing in place is the function on values and leaves the connection in no container |
| `MetadataCaches.MetadataCache.ForgetPartition` | src/producer_client.cpp:197-204 | forgetting one partition in place |
| `MetadataRuns.StepInv` | src/producer_client.cpp:120-434 | every step of every thread keeps locks, attempts, clock and cache sound |
| `MetadataProperties.FetchesCoalesce` | src/producer_client.cpp:290-305 | at most one thread refreshes, one call makes at most max(retries, 0) + 1 fetches, a fetch is skipped exactly if one was completed at or after the request, and meta_fetch_mu_ is never waited for holding mu_ |
| `MetadataFreshness.FreshExact` | src/producer_client.cpp:290-305 | in every run a thread that fetches gets a response asked for after its own request; one that skips has such a response exactly unless the last fetch was in flight when it asked |
| `MetadataProperties.NoDeadlock` | src/producer_client.cpp:225-230 | while a call is unfinished some thread can take a lock or a step |
| `MetadataProperties.EveryCallEnds` | src/producer_client.cpp:356-370 | all threads together take at most 20 * max(retries, 0) + 32 steps for each call of produce() |
| `MetadataProperties.CannotHappen` | src/producer_client.cpp:236-245 | if every response lists its leaders, no interleaving has a cached leader that is not a known broker, and none throws |
| `MetadataProperties.ThrowsIffUnlisted` | src/producer_client.cpp:236-245 | after a refresh some lookup throws exactly if the response left a leader out |
| `MetadataScenarios.UnlistedThrows` | src/producer_client.cpp:216-245 | for every response that leaves a leader out, a run from the start whose first call throws |
| `MetadataScenarios.ThrownIffUnlisted` | src/producer_client.cpp:216-245 | with a cluster that always gives one response, no run throws exactly if it lists its leaders |
| `MetadataProperties.ErrorsTold` | src/producer_client.cpp:356-379 | in every run last_meta_error_ is clear when a refresh has succeeded and set when one is tried again |
| `ProduceOutcomes.FailureCleansUp` | src/producer_client.cpp:137-169 | whatever other calls do, a connect or request that fails makes its call return that error, after a moment at which the connection was closed, in no container, and no partition known |
| `ProduceOutcomes.AnswerReturned` | src/producer_client.cpp:171-213 | a request that is answered makes its call return the code of the answer, after forgetting exactly its own partition for 3, 5, 6 and 9 and nothing for any other |
| `ProduceOutcomes.NotFoundReturned` | src/producer_client.cpp:128-135 | a call that finds no broker after its refresh returns last_meta_error_, or 3 if that is clear |
| `ProduceOutcomes.UnknownRefreshes` | src/producer_client.cpp:216-233 | a call that does not know its partition asks for a refresh before it returns |
| `ProduceOutcomes.FetchRetried` | src/producer_client.cpp:356-370 | a fetch that fails closes its connection, records its error, and is followed by attempt n + 1 exactly if n < retry_attempts_ |
| `ProduceOutcomes.NobodyToAsk` | src/producer_client.cpp:319-344 | when every configured address fails nothing is fetched or tried again, and the error of the last one is recorded |
| `ProduceOutcomes.FetchApplied` | src/producer_client.cpp:372-433 | a response is applied to the cache as it is by then, and clears the error |
| `ProduceOutcomes.AskedOf` | src/producer_client.cpp:308-339 | in every run metadata is asked of the connection on record of the smallest node id that has one up, and only without one of a new connection to a configured address |
| `ProduceOutcomes.SentToLeader` | src/producer_client.cpp:128-160 | in every run a batch goes to the broker that led its partition when it was looked up, at the address on record then |
| `ProduceOutcomes.ResultExplained` | src/producer_client.cpp:120-214 | in every run a result of produce() is the code of an answer, of a failed connect or request, or of a lookup that found no broker |
| `ProduceOutcomes.SuccessWasAcked` | src/producer_client.cpp:160-214 | in every run, a produce() that returned success had its batch acknowledged without error |
| `MetadataFreshness.ClosedNeverReused` | src/producer_client.cpp:262-288 | in every run a closed connection stays closed and is handed to no further call |
| `MetadataFreshness.ConnectionShared` | src/producer_client.cpp:247-259 | in every run the connection a lookup hands out is handed out again, with none made, to every later lookup with the same leader until it is closed |
| `MetadataFreshness.UnknownUntilRefresh` | src/producer_client.cpp:137-204 | in every run, after a call lost its connection or got a stale answer, its partition stays unknown until a refresh, whatever other calls do |
| `Counterexamples.FragmentFaults` | src/packet_decoder.cpp:290-303 | any message cut to 8 to 15 bytes makes the decoder throw |
| `Counterexamples.GzipPaddingFaults` | src/packet_decoder.cpp:173-185 | a gzip set that the sender's push accepts and that makes every receiver throw |
| `Counterexamples.GzipRequestFaults` | src/protocol.h:122-167 | a produce request with one such set, which encodes and is read to an exception |
| `Counterexamples.SilentLoss` | src/message_set.cpp:217-221 | any message, decoded into a set that refuses it: no error and no message |
| `Counterexamples.OverTheLimit` | src/message_set.cpp:48-61 | any message, in a compressed set that takes it and is then 26 bytes over its limit on the wire |
| `MetadataScenarios.MovedUnconnected` | src/producer_client.cpp:396-401 | two refreshes from the start that end in a null connection being dereferenced |
| `MetadataScenarios.MovedConnected` | src/producer_client.cpp:395-402 | a run from the start in which a connected broker moves and is then dialled at its old address |
| `MetadataScenarios.StaleSkip` | src/producer_client.cpp:292-305 | a run from the start in which a call skips its fetch on a response asked for before its own request |
| `Counterexamples.ZeroLengthResponse` | src/rpc.cpp:268-313 | a run that resolves a call with a response that names none |

## Left out

- zlib and snappy: foreign code; a lawful pair of functions stands for them, and failures to initialise their streams are not modelled.
- Asio, sockets, DNS and the strand: only their completions, one at a time for a connection, in any order the code can meet.
- Pointers and lifetimes: slices, owned buffers and the copies of a buffer are values, so aliasing and dangling slices are not captured.
- `MessageSets.MessageSet.DecodeFrom`: nesting of compressed sets is bounded by a depth parameter (error `TooDeep`), because an arbitrary decompressor gives no measure; encoder output needs depth 1.
- `Corruption.AlteredSet`: changes to the length prefix of a key or value move the fields the checksum is taken over, and are not covered; nor are they in `Corruption.AlteredWrapper`.
- `Decoder.EndCrc`: a stored checksum that cannot be read is compared as an uninitialised variable in the source; the model takes it to differ.
- `RpcModel`: next_seq_ is an unbounded integer, so its wrap after 2^31 calls is not captured; neither is the wrap of size_t sums in the encoder and in encoded_size_.
- `RpcModel`: which of several network errors a failed call carries is one `Network`.
- `Protocol.ProduceRequestRoundTrips`: structures are codec values read by both sides rather than methods on a codec object; the element loops and the embedded message set are also given in place.
- `Connections.Connection`: the threads waiting in connect() are part of the object's state; a call entering connect() and the notify after a success are steps of the transition system only.
- `MetadataRuns`: connect() and a call each complete in one step; their own interleavings are those of the connection and the pipeline.
- `ProducerClient::check_topic_partition_leader_available` and `ProducerClient::close`: the first is a prefix of produce(), the second joins threads.
- Setters, `string_to_brokers`, slice comparison, logging, error message strings: would only add easy members.
