# SC-code in Dafny

A model of the RPC stack and message codec of this repository, and proofs about it. The stack is a
fork of eRPC: sessions with credits and slots over a datagram transport, a heartbeat manager that
finds failed peers, and benchmarks whose messages are Protocol Buffers.

- **Codec** (`Wire`, `WireLaws`, `Schema`, `SchemaLaws`, `SchemaMeaning`, `FlatProto`, `ParseSteps`,
  `MessageReaders`, `LeafMessages`, `ChunkOptionsMessage`, `AccelerateMessage`, `FlushRequestBits`,
  `FlushRequestRuns`). Parsing, serializing, sizing and merging as functions over any schema, the laws
  that tie them together, and the generated classes as objects that compute those functions. The primitives of the protobuf
  library follow the sections "Base 128 Varints", "Message Structure", "Length-Delimited Records",
  "Submessages" and "Last One Wins" of the Protocol Buffers Encoding document.
- **Heartbeats** (`Heartbeat`, `HeartbeatLaws`, `HeartbeatMgr`). The manager as a machine whose steps
  carry their clock readings, laws over all runs, and the class whose methods are runs of it.
- **Session as written** (`SessionState`, `SessionLaws`, `KickLaws`, `ClientSession`, `ClientRuns`, `Protocol`,
  `LinkLaws`, `ProtocolLaws`, `ProtocolRuns`, `SessionTheorems`, `SessionFaults`, `SendingLaws`,
  `OwnResponses`, `RingEntries`). The client with its loops, total on every state and packet; the client
  over a network that may deliver any answer again; and client, server and network together, where the network neither
  loses nor duplicates packets and keeps the order of each slot's packets. A null pointer or a full free vector
  ends a run in a status of its own. A failed assertion does not stop a step, as in a release build;
  `SessionFaults`, `ClientRuns` and `ProtocolLaws` say when assertions hold.
- **Losses as written** (`LossAsWritten`, `LossReached`). One slot, its server end and a network that
  loses, copies and reorders, with the rollback as its body is.
- **Session window as declared** (`Window`, `WindowLaws`, `WindowRuns`, `WindowTheorems`,
  `PacedSlotState`). The in-order filter, the rollback and the timing wheel, which the code contains
  but does not call, as their declarations describe them, over a network that drops, duplicates and
  reorders. The bodies depart from the declarations in four places, listed below.
- **Packets and buffers** (`Packets`, `DataIov`, `Delivery`, `ActiveList`, `TxBatch`, `Pacer`,
  `MemPool`).

## Where code and comments differ

The model follows the code.

- `unordered_map::emplace` does not overwrite, so received heartbeats never renew a recorded time
  (`src/heartbeat_mgr.h:99`, against lines 253-254). `HeartbeatsIgnored` and `DetectionTime` state
  what follows: where `do_one` is called on time and nothing blocks it, every tracked URI is reported
  within the deadline, heartbeats or not.
- An event of an untracked URI ends the loop instead of being ignored (`src/heartbeat_mgr.h:122-130`,
  against lines 255-257). A report leaves such an event (`ReportLeavesEvent`), and it blocks all later
  ones (`UntrackedEventBlocks`).
- A credit return bumps credits but not `num_rx` (`src/rpc_impl/rpc_cr.cc:62-63`). Credits plus the
  sum of `num_tx - num_rx` is therefore not constant; `WindowLawIff` gives the exact condition and
  `CreditConservation` the law that does hold.
- The in-order filter is commented out where packets are received
  (`src/rpc_impl/rpc_cr.cc:42-51`, `src/rpc_impl/rpc_resp.cc:112-123`). `TakeKeepsIff` says which
  packets keep the client's bookkeeping, `BumpHoldsIff` when the assertion of `bump_credits` holds,
  and `NewSessionGoesWrong` gives runs in which each fails. `OwnIff` says when a finished request got its
  own response, and `OldResponseTakenAtStart` gives a run in which it got another's and nothing notices.
- A request popped from the backlog is passed on with seven arguments
  (`src/rpc_impl/rpc_resp.cc:217-219`), so by the declaration at `src/rpc.h:199-201` its packet header
  is null, and `src/rpc_impl/rpc_req.cc:66-67` writes through it. `NullHeaderIff` says exactly when,
  `ThirtyThreeRequests` gives a run, and the safety and progress theorems are stated for runs that
  submit only while a slot is free, that is, with fewer than 32 requests unfinished.
- `enqueue_response` asserts that the server has no response in place and then puts one there
  (`src/rpc_impl/rpc_resp.cc:85-86`); the call that would remove it is commented out
  (`src/rpc_impl/rpc_req.cc:130`). `AnswerAssertIff` and `SecondResponseFails` state what follows.
- The request number field has 32 bits (`src/pkthdr.h:21`, `src/pkthdr.h:73`), and the server compares
  it with an unbounded sum (`src/rpc_impl/rpc_req.cc:123`); see `NumberAssertIff`.
- The window as declared and the bodies differ in this: the rollback does not resend
  requests-for-response (`src/rpc_impl/rpc_pkt_loss.cc:133-136`); a credit return does not bump
  `num_rx` (`src/rpc_impl/rpc_cr.cc:63-64`); responses are numbered from 0
  (`src/rpc_impl/rpc_resp.cc:29`, `src/rpc_impl/rpc_resp.cc:57`); and a packet reaped from the wheel
  is sent only if its number is 0 (`src/rpc_impl/rpc_queues.cc:42-49`). `RecoversIff` and
  `LossRecoversIff` state what the first of these, as written, leaves of recovery.
- The tail header announces the remainder of the division (`src/rpc_impl/rpc_resp.cc:70`,
  `src/rpc_impl/rpc_req.cc:88`), which is zero for an exact multiple, and the size it is taken from has
  24 bits (`src/pkthdr.h:64`); see `DeliveredIff` and `RequestDeliveredIff`.
- The comment at `src/rpc.h:958-960` says that packets in the wheel have not bumped `num_tx`. The
  filter refuses packets in the wheel only after testing that they are below `num_tx`
  (`src/rpc.h:472-481`), so the window model lets `num_tx` cover them.

## Model

| member | source | states |
|---|---|---|
| `Wire.VarintRoundTrip` | RPC-test/brpc-protobuf/flat.pb.cc:1125-1140 | reading a base-128 varint back gives the value and stops after it, whatever follows |
| `WireLaws.VarintBytes` | RPC-test/brpc-protobuf/flat.pb.cc:1125-1140 | the bytes of a varint are base-128 digits from the lowest on: 128 is added to all but the last, the digits sum to the value, and there are no more of them than needed |
| `WireLaws.ReadVarintIs` | RPC-test/brpc-protobuf/flat.pb.cc:1125-1140 | on any bytes whose first one below 128 is number k: the sum of the low seven bits of bytes 0 to k, each times its power of 128, and k + 1 bytes consumed, if k is within the budget; otherwise nothing |
| `WireLaws.ReadVarintNone` | RPC-test/brpc-protobuf/flat.pb.cc:1125-1140 | without a byte below 128 nothing is read |
| `WireLaws.ReadFixedIs` | RPC-test/brpc-protobuf/flat.pb.cc:885-896 | a fixed-width number is the sum of its bytes, each times its power of 256, for any bytes |
| `WireLaws.FixedBytes` | RPC-test/brpc-protobuf/flat.pb.cc:934-943 | it is written in exactly its width, with that sum |
| `WireLaws.ReadTagIs` | RPC-test/brpc-protobuf/flat.pb.cc:1121-1125 | a tag is read from at most five bytes and taken modulo 2^32, for any bytes |
| `WireLaws.ReadLenIs` | RPC-test/brpc-protobuf/flat.pb.cc:1968-2030 | a length prefix is read from at most five bytes and refused above 2147483631 |
| `WireLaws.VarintBodyIs` | RPC-test/brpc-protobuf/flat.pb.cc:1121-1158 | the value of a varint record, for any bytes |
| `WireLaws.Fixed64BodyIs` | RPC-test/brpc-protobuf/flat.pb.cc:1121-1158 | a 64-bit record is the eight bytes after its tag, and refused if they are not there |
| `WireLaws.OtherBodiesAre` | RPC-test/brpc-protobuf/flat.pb.cc:1150-1157 | of an unknown 32-bit record four bytes are skipped; a stray end of group and wire types 6 and 7 are refused |
| `WireLaws.ItemRead` | RPC-test/brpc-protobuf/flat.pb.cc:1150-1157 | any unknown record, groups with whatever they hold included, is read as one record with its length |
| `WireLaws.GroupSkipped` | RPC-test/brpc-protobuf/flat.pb.cc:1150-1157 | a group is skipped up to the end tag of its own number, and refused if it ends with another's, at any depth |
| `Wire.FieldRoundTrip` | RPC-test/brpc-protobuf/flat.pb.cc:1125-1160 | a written field of any wire type is read back as itself and nothing of what follows is consumed |
| `Wire.ReadFieldPrefix` | RPC-test/brpc-protobuf/flat.pb.cc:1121-1158 | a field that can be read from a prefix is read the same from any longer input |
| `Wire.SkipGroupPrefix` | RPC-test/brpc-protobuf/flat.pb.cc:1150-1157 | the same for an unknown group, at any depth of nesting |
| `SchemaLaws.ParseConcat` | RPC-test/brpc-protobuf/flat.pb.cc:1968-2030 | parsing a concatenation is parsing the first part and then the second into the result |
| `SchemaLaws.ParseEncodeIsMerge` | RPC-test/brpc-protobuf/flat.pb.cc:1964-2145 | for every schema: parsing the serialization of b into an existing message m yields exactly the merge of m and b, at every nesting depth |
| `SchemaLaws.RoundTrip` | RPC-test/brpc-protobuf/flat.pb.cc:2034-2074 | parsing a serialized message into an empty one gives the message back |
| `SchemaMeaning.ToWireMeans` | RPC-test/brpc-protobuf/flat.pb.cc:2034-2074 | a scalar is written as itself or, if negative, plus 2^64 |
| `SchemaMeaning.FromWireMeans` | RPC-test/brpc-protobuf/flat.pb.cc:1964-2032 | what a scalar field reads: the value in its range that is congruent to the varint modulo its width; for a bool, whether it is not zero |
| `SchemaMeaning.ScalarSet` | RPC-test/brpc-protobuf/flat.pb.cc:1964-2032 | parsing one scalar record sets exactly that field to exactly that value |
| `SchemaMeaning.BytesSet` | RPC-test/brpc-protobuf/flat.pb.cc:1964-2032 | the same for a bytes record |
| `SchemaMeaning.MergedAt` | RPC-test/brpc-protobuf/flat.pb.cc:2121-2145 | for every path into nested messages: a scalar of the merge is the second message's if it has one, else the first's; a repeated field is the first's elements followed by the second's |
| `SchemaMeaning.FieldsInOrder` | RPC-test/brpc-protobuf/flat.pb.cc:2034-2074 | the serialization is that of the first fields followed by that of the others, for every place to cut |
| `SchemaMeaning.ElementsInOrder` | RPC-test/brpc-protobuf/flat.pb.cc:2034-2074 | elements of a repeated field are written in order |
| `SchemaMeaning.MirrorArgsBytes` | RPC-test/brpc-protobuf/flat.pb.cc:1125-1160 | two literal serializations: 300 in field 1 is 8, 172, 2, and -1 in field 2 takes eleven bytes |
| `SchemaLaws.ParseOfConcatenationIsMerge` | RPC-test/brpc-protobuf/flat.pb.cc:2121-2145 | parsing two serializations one after the other is merging: the last scalar wins, submessages merge, repeated fields append |
| `SchemaLaws.EncodeInjective` | RPC-test/brpc-protobuf/flat.pb.cc:2034-2074 | two messages with the same serialization are equal |
| `SchemaLaws.ParseTyped` | RPC-test/brpc-protobuf/flat.pb.cc:1964-2032 | whatever bytes are parsed, field values stay in range for their declared types |
| `SchemaLaws.MergeAssociative` | RPC-test/brpc-protobuf/flat.pb.cc:2121-2145 | merging is associative, for nested messages too |
| `SchemaLaws.MergeDefaultLeft` | RPC-test/brpc-protobuf/flat.pb.cc:2147-2152 | merging into an empty message is copying |
| `SchemaLaws.MergeDefaultRight` | RPC-test/brpc-protobuf/flat.pb.cc:2121-2145 | merging an empty message changes nothing |
| `SchemaLaws.SizeIsLength` | RPC-test/brpc-protobuf/flat.pb.cc:2076-2112 | the computed size is the number of bytes written, for every message value and schema |
| `SchemaLaws.NegativeVarintSize` | RPC-test/brpc-protobuf/flat.pb.cc:1197-1206 | a negative int32 or int64 always takes ten bytes |
| `FlatProto.FlatSchemasValid` | RPC-test/brpc-protobuf/flat.proto:7-175 | the schemas of flat.proto meet the conditions of the laws |
| `FlatProto.FlushRequestDispatchExact` | RPC-test/brpc-protobuf/flat.pb.cc:5231-5545 | for all 33 fields, testing the field number and only the low tag byte accepts exactly the field's one- or two-byte tag |
| `FlatProto.TagSizeConstants` | RPC-test/brpc-protobuf/flat.pb.cc:5772-6002 | the constant tag sizes, one byte up to field 15 and two beyond, are the sizes of the tags written |
| `ParseSteps.SkipStep` | RPC-test/brpc-protobuf/flat.pb.cc:1150-1157 | a record no case accepts leaves the message as it is, whether undeclared or of the wrong wire type |
| `LeafMessages.MirrorArgsPB.SetCopy` | RPC-test/brpc-protobuf/flat.pb.h:4288-4295 | setting a field changes that field alone and keeps: a has-bit that is off means a default value |
| `LeafMessages.MirrorArgsPB.ClearCopy` | RPC-test/brpc-protobuf/flat.pb.h:4277-4280 | removes the field and keeps the has-bit discipline |
| `LeafMessages.MirrorArgsPB.SetFtt` | RPC-test/brpc-protobuf/flat.pb.h:4316-4323 | the same for the second field |
| `LeafMessages.MirrorArgsPB.ClearFtt` | RPC-test/brpc-protobuf/flat.pb.h:4305-4308 | the same for the second field |
| `LeafMessages.MirrorArgsPB.Clear` | RPC-test/brpc-protobuf/flat.pb.cc:1099-1113 | clearing, which skips the group when no has-bit is set, always reaches the default message |
| `LeafMessages.MirrorArgsPB.InternalParse` | RPC-test/brpc-protobuf/flat.pb.cc:1115-1162 | the loop with has-bits collected aside computes the one-tag-at-a-time parse of any bytes, and fails exactly when it does |
| `LeafMessages.MirrorArgsPB.ByteSizeLong` | RPC-test/brpc-protobuf/flat.pb.cc:1191-1214 | returns and caches the serialized size |
| `LeafMessages.MirrorArgsPB.InternalSerialize` | RPC-test/brpc-protobuf/flat.pb.cc:1164-1189 | writes the encoding the parser reads back |
| `LeafMessages.MirrorArgsPB.MergeFrom` | RPC-test/brpc-protobuf/flat.pb.cc:1222-1241 | computes the merge of the two messages |
| `LeafMessages.MirrorArgsPB.CopyFrom` | RPC-test/brpc-protobuf/flat.pb.cc:1243-1248 | makes the target equal the source, aliased or not |
| `LeafMessages.ReplicaLocationPB.SetCslocation` | RPC-test/brpc-protobuf/flat.pb.h:4535-4541 | setting a field changes that field alone and keeps the has-bit discipline |
| `LeafMessages.ReplicaLocationPB.ClearCslocation` | RPC-test/brpc-protobuf/flat.pb.h:4527-4530 | removes the field and keeps the has-bit discipline |
| `LeafMessages.ReplicaLocationPB.SetDisklocation` | RPC-test/brpc-protobuf/flat.pb.h:4606-4613 | setting a field changes that field alone and keeps the has-bit discipline |
| `LeafMessages.ReplicaLocationPB.ClearDisklocation` | RPC-test/brpc-protobuf/flat.pb.h:4595-4598 | removes the field and keeps the has-bit discipline |
| `LeafMessages.ReplicaLocationPB.SetDisktype` | RPC-test/brpc-protobuf/flat.pb.h:4634-4641 | setting a field changes that field alone and keeps the has-bit discipline |
| `LeafMessages.ReplicaLocationPB.ClearDisktype` | RPC-test/brpc-protobuf/flat.pb.h:4623-4626 | removes the field and keeps the has-bit discipline |
| `LeafMessages.ReplicaLocationPB.Clear` | RPC-test/brpc-protobuf/flat.pb.cc:1655-1672 | reaches the default message |
| `LeafMessages.ReplicaLocationPB.InternalParse` | RPC-test/brpc-protobuf/flat.pb.cc:1674-1730 | computes the reference parse, with the same failures |
| `LeafMessages.ReplicaLocationPB.ByteSizeLong` | RPC-test/brpc-protobuf/flat.pb.cc:1765-1796 | returns and caches the serialized size |
| `LeafMessages.ReplicaLocationPB.InternalSerialize` | RPC-test/brpc-protobuf/flat.pb.cc:1732-1763 | writes the encoding |
| `LeafMessages.ReplicaLocationPB.MergeFrom` | RPC-test/brpc-protobuf/flat.pb.cc:1803-1825 | computes the merge |
| `ChunkOptionsMessage.ChunkOptionsPB.MutableMirror` | RPC-test/brpc-protobuf/flat.pb.h:4414-4421 | makes the submessage present with the value it had, or default if absent, though a cleared object may be reused |
| `ChunkOptionsMessage.ChunkOptionsPB.ClearMirror` | RPC-test/brpc-protobuf/flat.pb.h:4366-4369 | removes the submessage; the object kept behind it is cleared |
| `ChunkOptionsMessage.ChunkOptionsPB.SetFtttype` | RPC-test/brpc-protobuf/flat.pb.h:4348-4355 | setting a field changes that field alone and keeps the has-bit discipline |
| `ChunkOptionsMessage.ChunkOptionsPB.ClearFtttype` | RPC-test/brpc-protobuf/flat.pb.h:4337-4340 | removes the field and keeps the has-bit discipline |
| `ChunkOptionsMessage.ChunkOptionsPB.SetPlacement` | RPC-test/brpc-protobuf/flat.pb.h:4463-4469 | setting a field changes that field alone and keeps the has-bit discipline |
| `ChunkOptionsMessage.ChunkOptionsPB.ClearPlacement` | RPC-test/brpc-protobuf/flat.pb.h:4455-4458 | removes the field and keeps the has-bit discipline |
| `ChunkOptionsMessage.ChunkOptionsPB.Clear` | RPC-test/brpc-protobuf/flat.pb.cc:1361-1380 | reaches the default message through the owned object |
| `ChunkOptionsMessage.ChunkOptionsPB.InternalParse` | RPC-test/brpc-protobuf/flat.pb.cc:1382-1437 | computes the reference parse; a second occurrence of the submessage is parsed into the first |
| `ChunkOptionsMessage.ChunkOptionsPB.ByteSizeLong` | RPC-test/brpc-protobuf/flat.pb.cc:1473-1506 | returns the size and leaves the submessage's cached size current |
| `ChunkOptionsMessage.ChunkOptionsPB.InternalSerialize` | RPC-test/brpc-protobuf/flat.pb.cc:1439-1471 | with current cached sizes, writes the encoding, length prefix included |
| `ChunkOptionsMessage.ChunkOptionsPB.MergeFrom` | RPC-test/brpc-protobuf/flat.pb.cc:1513-1536 | computes the merge; the other message is not shared |
| `ChunkOptionsMessage.ChunkOptionsPB.CopyFrom` | RPC-test/brpc-protobuf/flat.pb.cc:1538-1543 | makes the target equal the source |
| `AccelerateMessage.AccelerateOpenOptionsPB.MutableChunkOptions` | RPC-test/brpc-protobuf/flat.pb.h:4704-4711 | makes the submessage present with the value it had, or default |
| `AccelerateMessage.AccelerateOpenOptionsPB.AddChunkLocation` | RPC-test/brpc-protobuf/flat.pb.h:4763-4765 | appends one fresh default element |
| `AccelerateMessage.AccelerateOpenOptionsPB.ClearChunkOptions` | RPC-test/brpc-protobuf/flat.pb.h:4656-4659 | removes the submessage; the objects kept behind it are cleared |
| `AccelerateMessage.AccelerateOpenOptionsPB.ClearChunkLocations` | RPC-test/brpc-protobuf/flat.pb.h:4744-4746 | removes all elements and nothing else |
| `AccelerateMessage.AccelerateOpenOptionsPB.SetExponent` | RPC-test/brpc-protobuf/flat.pb.h:4796-4803 | setting a field changes that field alone and keeps the has-bit discipline |
| `AccelerateMessage.AccelerateOpenOptionsPB.ClearExponent` | RPC-test/brpc-protobuf/flat.pb.h:4785-4788 | removes the field and keeps the has-bit discipline |
| `AccelerateMessage.AccelerateOpenOptionsPB.SetCategory` | RPC-test/brpc-protobuf/flat.pb.h:4824-4831 | setting a field changes that field alone and keeps the has-bit discipline |
| `AccelerateMessage.AccelerateOpenOptionsPB.ClearCategory` | RPC-test/brpc-protobuf/flat.pb.h:4813-4816 | removes the field and keeps the has-bit discipline |
| `AccelerateMessage.AccelerateOpenOptionsPB.Clear` | RPC-test/brpc-protobuf/flat.pb.cc:1943-1962 | reaches the default message, three levels deep |
| `AccelerateMessage.AccelerateOpenOptionsPB.InternalParse` | RPC-test/brpc-protobuf/flat.pb.cc:1964-2032 | computes the reference parse of any bytes into any message, with the same failures |
| `AccelerateMessage.AccelerateOpenOptionsPB.ParseChunkLocations` | RPC-test/brpc-protobuf/flat.pb.cc:1980-1991 | the batched loop over a run of elements has the outcome of going back to the dispatch after each: same elements, order, stop position and failure |
| `AccelerateMessage.AccelerateOpenOptionsPB.ByteSizeLong` | RPC-test/brpc-protobuf/flat.pb.cc:2076-2112 | returns the size and leaves every cached size in the tree current |
| `AccelerateMessage.AccelerateOpenOptionsPB.InternalSerialize` | RPC-test/brpc-protobuf/flat.pb.cc:2034-2074 | with current cached sizes, writes the encoding; every length prefix is the submessage's length |
| `AccelerateMessage.AccelerateOpenOptionsPB.SerializeToArray` | RPC-test/brpc-protobuf/flat.pb.cc:2034-2112 | sizing and then writing returns the encoding and its exact length |
| `AccelerateMessage.AccelerateOpenOptionsPB.MergeFrom` | RPC-test/brpc-protobuf/flat.pb.cc:2121-2145 | computes the merge, appending deep copies of the elements |
| `AccelerateMessage.AccelerateOpenOptionsPB.CopyFrom` | RPC-test/brpc-protobuf/flat.pb.cc:2147-2152 | makes the target equal the source |
| `FlushRequestBits.FieldOfBit` | RPC-test/brpc-protobuf/flat.pb.cc:4805-4918 | has-bits and the 33 fields correspond one to one |
| `FlushRequestBits.ClearReachesDefault` | RPC-test/brpc-protobuf/flat.pb.cc:5151-5229 | clearing by group masks reaches the all-default message and content (what each field then reads: `ClearedReadsDefault`) |
| `FlushRequestRuns.UnsetReadsDefault` | RPC-test/brpc-protobuf/flat.pb.h:6371-6377 | after any sequence of operations on a new message, a field that is not set reads as flat.proto declares: DataSync as true, any other as zero, empty or the default message |
| `FlushRequestRuns.ClearedReadsDefault` | RPC-test/brpc-protobuf/flat.pb.cc:5151-5229 | after any such sequence and Clear, every field does |
| `FlushRequestRuns.SetReadsBack` | RPC-test/brpc-protobuf/flat.pb.h:6371-6385 | a field that is set reads as it was set, and no other field changes |
| `FlushRequestBits.MergedWordIsOr` | RPC-test/brpc-protobuf/flat.pb.cc:6011-6141 | or-ing the whole word in at the end of each non-empty group gives exactly the union of the has-bits |
| `FlushRequestBits.MergeIsMerge` | RPC-test/brpc-protobuf/flat.pb.cc:6011-6141 | merging by group masks is the merge of the messages and keeps: has-bit off means default content |
| `FlushRequestBits.CopyIsEqual` | RPC-test/brpc-protobuf/flat.pb.cc:6143-6148 | clearing and then merging shows exactly the source |
| `FlushRequestRuns.NewSound` | RPC-test/brpc-protobuf/flat.pb.cc:5066-5105 | a new message has no has-bit set, default contents everywhere and shows the default message |
| `FlushRequestRuns.SetSound` | RPC-test/brpc-protobuf/flat.pb.h:5906-5913 | setting any of the 33 fields keeps: has-bit off means default content, and contents fit their types |
| `FlushRequestRuns.ClearSound` | RPC-test/brpc-protobuf/flat.pb.h:5895-5898 | clearing any of them keeps the same |
| `FlushRequestRuns.OneShown` | RPC-test/brpc-protobuf/flat.pb.h:5895-5913 | setting or clearing one field changes exactly that field of what the accessors show, through the permuted has-bits |
| `FlushRequestRuns.ParseRecordIsApply` | RPC-test/brpc-protobuf/flat.pb.cc:5231-5545 | one turn of the parser on has-bits and raw contents is one turn of the reference parser, with the same failures |
| `FlushRequestRuns.ParseFieldsIsParse` | RPC-test/brpc-protobuf/flat.pb.cc:5231-5545 | the parser of the 33-field message computes the reference parse of any bytes into any message |
| `FlushRequestRuns.OpSound` | RPC-test/brpc-protobuf/flat.pb.cc:5066-6148 | construction, setters, clearers, mutable accessors, parsed and failed records, merging, copying and clearing all keep it |
| `FlushRequestRuns.ClearAfterAnything` | RPC-test/brpc-protobuf/flat.pb.cc:5151-5229 | after any sequence of these operations on a new message, Clear makes it a new message again, bit for bit and content for content |
| `HeartbeatMgr.Mgr.constructor` | src/heartbeat_mgr.h:57-66 | a new manager tracks nothing and has no events |
| `HeartbeatMgr.Mgr.AddRemote` | src/heartbeat_mgr.h:69-81 | is one tracking step of the machine; every tracked URI keeps a queued check |
| `HeartbeatMgr.Mgr.ReceiveHb` | src/heartbeat_mgr.h:84-100 | is one receive step; a tracked URI keeps its recorded time |
| `HeartbeatMgr.Mgr.Top` | src/heartbeat_mgr.h:111 | returns an event no queued event precedes |
| `HeartbeatMgr.Mgr.HandleOne` | src/heartbeat_mgr.h:132-165 | handles one event and makes progress in a measure that no clock can defeat |
| `HeartbeatMgr.Mgr.DoOne` | src/heartbeat_mgr.h:107-167 | returns for every behaviour of the clock; its run is legal and in timestamp order; the list holds exactly the reported URIs; it ends with no due event or a due event of an untracked URI first; if less than the send delta passes, it handles only events queued at entry, each at most once |
| `HeartbeatMgr.SendStepDescends` | src/heartbeat_mgr.h:138-147 | each heartbeat sent moves closer to the last queued check |
| `HeartbeatMgr.CheckStepDescends` | src/heartbeat_mgr.h:149-164 | each check reports or moves closer to an inevitable report |
| `HeartbeatLaws.ZeroSendDeltaLoops` | src/heartbeat_mgr.h:65-66 | with a timeout below ten cycles the send delta is zero and a call can handle events for ever |
| `HeartbeatLaws.ZeroSendDeltaReached` | src/heartbeat_mgr.h:65-81 | one added URI at a single clock reading leads there from a new manager |
| `HeartbeatLaws.Conservation` | src/heartbeat_mgr.h:69-165 | over every run and URI: queued sends equal adds, queued checks plus reports equal adds, reports plus the running episode equal the episodes |
| `HeartbeatLaws.TrackedHasEvents` | src/heartbeat_mgr.h:69-165 | a tracked URI always has a send and a check event queued |
| `HeartbeatLaws.DetectionTime` | src/heartbeat_mgr.h:107-167 | the first report comes strictly after the recorded time plus the timeout, and within one and a half timeouts plus call period and call duration of that time, heartbeats or not |
| `HeartbeatLaws.TrackedUntilDeadline` | src/heartbeat_mgr.h:107-167 | while a URI stays tracked, one and a half timeouts plus call period and duration have not passed since its recorded time |
| `HeartbeatLaws.EventSpacing` | src/heartbeat_mgr.h:213-231 | in every run: consecutive sends of a URI are at most a tenth of the timeout and a call period apart, consecutive checks half the timeout and a call period; and at least that tenth or half if the URI was added once |
| `HeartbeatLaws.FirstSpacing` | src/heartbeat_mgr.h:69-81 | the same from adding a URI to its first send and its first check |
| `HeartbeatLaws.AddedTwiceSendsTwice` | src/heartbeat_mgr.h:69-81 | a URI added twice is sent two heartbeats at one time, so the lower bound needs its condition |
| `HeartbeatLaws.HeartbeatsIgnored` | src/heartbeat_mgr.h:99 | removing all received heartbeats from a run changes neither the events, nor the recorded times, nor the reports |
| `HeartbeatLaws.ReportLeavesEvent` | src/heartbeat_mgr.h:151-162 | a report leaves a send event of the now untracked URI in the queue |
| `HeartbeatLaws.UntrackedEventBlocks` | src/heartbeat_mgr.h:122-130 | while an event of an untracked URI is queued and the URI is not added again, nothing later than it is ever handled |
| `HeartbeatLaws.HandledInOrder` | src/heartbeat_mgr.h:107-167 | events are handled in timestamp order, those scheduled meanwhile included |
| `HeartbeatLaws.HandledOnce` | src/heartbeat_mgr.h:107-167 | a call shorter than the send delta handles at most what was queued at entry |
| `ClientSession.Session.constructor` | src/session.h:69-103 | slots are numbered and free slots arranged so that they are popped in order |
| `ClientSession.Session.KickReq` | src/rpc_impl/rpc_kick.cc:6-33 | the loop sends consecutive request packets, a credit each, and leaves some unsent only if credits have run out |
| `ClientSession.Session.KickRfr` | src/rpc_impl/rpc_kick.cc:39-55 | the loop sends consecutively numbered requests-for-response under the request number of the response at hand, a credit each, and stops short of the response's packets only if credits have run out |
| `ClientSession.Session.BumpCredits` | src/rpc.h:748-754 | counts up and tells whether the assertion held, which is whether the count stays within 32 |
| `ClientSession.Session.EnqueueRequest` | src/rpc_impl/rpc_req.cc:17-114 | takes a slot and sends, stalls or goes to the backlog; keeps the client invariant |
| `ClientSession.Session.ProcessExplCr` | src/rpc_impl/rpc_cr.cc:36-72 | for any credit return, of a freed slot too: counts it and sends on, or follows the null message buffer; keeps the client invariant if and only if the slot is working |
| `ClientSession.Session.ProcessRespOne` | src/rpc_impl/rpc_resp.cc:102-229 | for any response packet, of a freed slot or an earlier request too: records it, asks for more, and completes; keeps the client's bookkeeping if and only if the slot is working and no completion pops the backlog |
| `ClientSession.Session.ProcessCreditStallQueue` | src/rpc_impl/rpc_queues.cc:6-20 | what is left of the queue is its end, in order, and only when credits have run out; keeps the client invariant |
| `KickLaws.KickUsesCredits` | src/rpc_impl/rpc_kick.cc:13-32 | a kick sends at least one packet if there is a credit and leaves request packets unsent only without credits |
| `KickLaws.AskUsesCredits` | src/rpc_impl/rpc_kick.cc:47-54 | after a packet of a longer response all requests-for-response are sent, or some and no credit is left |
| `KickLaws.StallQueueOrder` | src/rpc_impl/rpc_queues.cc:10-19 | the queue after a pass is a suffix of the queue before; the slots before it are exactly those that sent, each all it had unless credits ran out; the others are untouched, and wait only without credits |
| `SendingLaws.FirstStalledFirst` | src/rpc_impl/rpc_queues.cc:10-19 | a request that stalls while another is stalled: in every later run, while the first has yet to send, the second has not sent |
| `SendingLaws.OrderKept` | src/rpc_impl/rpc_queues.cc:10-19 | in every run, while a stalled slot waits, those behind it stay behind it |
| `SendingLaws.EveryStepSpends` | src/rpc_impl/rpc_kick.cc:13-32 | any step that starts or sends for a slot leaves it packets to send only with no credit left |
| `SendingLaws.UnsentCredits` | src/rpc_impl/rpc_kick.cc:13-54 | in every run from connection on: while a slot has request packets or requests-for-response it could send, the credits in hand are exactly those that came back since it last sent |
| `SendingLaws.UnsentWithCredit` | src/rpc_impl/rpc_cr.cc:62-71 | those need not be zero: a run in which a credit comes back through one slot while another has packets to send |
| `SendingLaws.RequestNumbers` | src/session.h:69-103 | in every run the n-th request started on slot i is numbered i + 32 n, and the backlog holds the requests that found no slot, in order |
| `SendingLaws.IdleReset` | src/rpc_impl/rpc_resp.cc:181 | in every run a slot without a request has its response counter at zero |
| `SessionState.HdrIs` | src/pkthdr.h:73 | the request number field holds the number modulo 2^32 |
| `SessionState.Num16Is` | src/pkthdr.h:70 | the packet number field holds the number modulo 2^16, from below zero too |
| `SessionLaws.EnqueueKept` | src/rpc_impl/rpc_req.cc:17-114 | starting a request keeps: free slots exactly the inactive ones, stalled slots exactly those that sent nothing, backlog only without free slots, and credits + outstanding + unanswered = 32 |
| `SessionLaws.StalledKept` | src/rpc_impl/rpc_queues.cc:6-20 | draining the stall queue keeps it and never meets a slot without a request or without request packets |
| `SessionLaws.TakeKeepsIff` | src/rpc_impl/rpc_rx.cc:68-96 | taking a packet keeps this bookkeeping if and only if the packet's slot is working and the packet does not complete a request over a backlog; neither request number nor earlier deliveries matter to it |
| `SessionLaws.FreeRoom` | src/session.h:95-103 | a slot in use leaves room in the free vector |
| `ClientRuns.BumpHoldsIff` | src/rpc.h:748-754 | in every run of a client over a network that may deliver any answer again, freed slots included: the assertion of bump_credits holds if and only if fewer packets were taken than sent |
| `ClientRuns.DuplicateFreesTwice` | src/rpc_impl/rpc_resp.cc:112-123 | two one-packet requests and the first response taken twice: all assertions hold and the slot is in the free vector twice |
| `ClientRuns.DuplicateTripsBump` | src/rpc_impl/rpc_cr.cc:42-51 | a credit return taken twice: the response then finds bump_credits at its limit |
| `ClientRuns.NewSessionGoesWrong` | src/rpc_impl/rpc_resp.cc:112-123 | both runs start from a new session |
| `OwnResponses.OwnIff` | src/rpc_impl/rpc_resp.cc:112-229 | in every run of a new session over a network that may deliver any answer again: a request that finishes got exactly the packets 0, 1, .. of the response to its own number if and only if each response packet taken for its slot since it was started had the slot's number and the number num_rx |
| `OwnResponses.OldResponseTakenAtStart` | src/rpc_impl/rpc_resp.cc:102-229 | a run of a new session in which every assertion holds and the bookkeeping is kept, and a request finishes with the response of the request before it |
| `LinkLaws.ReqArrives` | src/rpc_impl/rpc_req.cc:117-234 | the server takes request packets in order, with no handler at work; the assertion on the number of a new request holds if and only if the 32-bit field has not just wrapped; what is on the wire stays exact |
| `LinkLaws.RfrArrives` | src/rpc_impl/rpc_rfr.cc:35-75 | each request-for-response asks for the next response packet and the server still has it |
| `LinkLaws.Responds` | src/rpc_impl/rpc_resp.cc:57-96 | the response starts when and only when all request packets are in; what is on the wire stays exact |
| `SessionFaults.AnswerAssertIff` | src/rpc_impl/rpc_resp.cc:85-86 | in every run, when a handler responds, the assertion that no response is in place holds if and only if it is the slot's first request |
| `SessionFaults.SecondResponseFails` | src/rpc_impl/rpc_resp.cc:85-86 | a run of two one-packet requests whose second response finds it false |
| `SessionFaults.NumberAssertIff` | src/rpc_impl/rpc_req.cc:122-123 | in every run the assertion on the number of an arriving request holds if and only if the 32-bit field is not below 32, that is, has not just wrapped |
| `SessionFaults.NumberWraps` | src/rpc_impl/rpc_req.cc:122-123 | a run of a new session, 2^27 requests on one slot, in which it fails |
| `LinkLaws.CrArrives` | src/rpc_impl/rpc_cr.cc:36-72 | credit returns arrive in order and before any response packet |
| `LinkLaws.RespKick` | src/rpc_impl/rpc_resp.cc:144-148 | after each response packet exactly the missing packets are asked for |
| `LinkLaws.LastResp` | src/rpc_impl/rpc_resp.cc:173-193 | on completion nothing of the request is left on the wire, all wire packets were sent and nothing is owed |
| `LinkLaws.InFlightIsOutstanding` | src/rpc_impl/rpc_kick.cc:6-55 | a slot's outstanding count is its packets in flight |
| `ProtocolRuns.StepKept` | src/rpc_impl/rpc_ev_loop.cc:6-46 | every step of client, server or network keeps the invariant and each delivery uses up exactly one unit of work, except a completion over a backlog, which goes through a null header |
| `ProtocolRuns.NullHeaderIff` | src/rpc_impl/rpc_resp.cc:213-221 | a run goes through a null header if and only if some delivery of it completes a request while the backlog is not empty; all other runs keep the invariant |
| `SessionFaults.ThirtyThreeRequests` | src/rpc_impl/rpc_resp.cc:213-221 | a run of a new session with 33 requests and one completion that goes through it |
| `ProtocolRuns.PoliteKept` | src/rpc_impl/rpc_req.cc:33-39 | a run that submits only while a slot is free never does; work left plus deliveries equals the cost of the submitted requests, and no request is lost or made up |
| `ProtocolLaws.BumpNeverFails` | src/rpc.h:748-754 | over a lossless in-order network every packet finds the client's assertions true |
| `SessionTheorems.CreditConservation` | src/session.h:162 | credits in hand plus packets in flight are always 32 |
| `SessionTheorems.SessionSafety` | src/rpc_impl/rpc_resp.cc:102-229 | in every run that submits only while a slot is free: that law, no null pointer, no failing assertion of the client, and every finished request got packets 0, 1, .. of its own response once each under a number of its own |
| `SessionTheorems.QuietMeansDone` | src/rpc_impl/rpc_queues.cc:6-20 | in every state reached without the null header: with nothing in flight and nobody stalled every request has finished |
| `SessionTheorems.NoDeadlock` | src/rpc_impl/rpc_queues.cc:6-20 | with an empty backlog and work left, a delivery that goes well is possible, at once or after the next look at the stall queue |
| `SessionTheorems.CanFinish` | src/rpc_impl/rpc_ev_loop.cc:6-46 | from every reachable state with an empty backlog all requests can be brought to their end |
| `SessionTheorems.BacklogIsFinal` | src/rpc_impl/rpc_resp.cc:213-221 | from every reachable state with a backlog no run finishes another request |
| `SessionTheorems.RunLength` | src/rpc_impl/rpc_ev_loop.cc:6-46 | a run that submits only while a slot is free makes at most 2(R+P)-1 deliveries for each request of R and response of P packets, and exactly that many if and only if all have finished |
| `SessionTheorems.WindowLawIff` | src/rpc_impl/rpc_cr.cc:62-64 | credits + sum of (num_tx - num_rx) exceeds 32 by the credit returns taken; it is 32 if and only if no request in progress has taken one |
| `SessionTheorems.WindowLawFailsAtStart` | src/rpc_impl/rpc_cr.cc:62-64 | a three-step run of a new session after which that sum is not 32 |
| `SessionTheorems.CreditReturnBreaksSum` | src/rpc_impl/rpc_cr.cc:62-64 | every delivered credit return breaks the sum |
| `RingEntries.Endpoint.CreateSession` | src/rpc.h:437-445 | succeeds exactly while fewer than 1024 sessions live, reserving 32 entries |
| `RingEntries.Endpoint.DestroySession` | src/rpc.h:448-451 | returns the entries without exceeding the ring |
| `RingEntries.Endpoint.Run` | src/rpc.h:748-754 | steps of a session leave reservations alone |
| `RingEntries.ReservedCoversIncoming` | src/rpc.h:437-451 | packets on their way to the endpoint, over all its sessions, never exceed the reserved entries |
| `LossAsWritten.RecoversIff` | src/rpc_impl/rpc_pkt_loss.cc:100-136 | take any working slot, and any losses, copies, reordering and rollbacks after which nothing is in flight for it: its request can still be completed if and only if no response packet was taken, or a rollback has something to take back, leaves request packets pending, and the server has yet to count the request |
| `LossAsWritten.LossRecoversIff` | src/rpc_impl/rpc_pkt_loss.cc:100-136 | after losses that keep the order of the other packets, before any rollback, the client can tell: if and only if no response packet was taken |
| `LossAsWritten.CatchesUp` | src/rpc_impl/rpc_req.cc:187-213 | a server behind its client is counted up to the end of the request by rolling back again and again |
| `LossAsWritten.Recovers` | src/rpc_impl/rpc_pkt_loss.cc:129-132 | before the first response packet, a rollback and a network that delivers complete the request with its whole response |
| `LossAsWritten.TrappedForGood` | src/rpc_impl/rpc_pkt_loss.cc:129-136 | after it no run completes the request: request packets sent again only count the server further past the end |
| `LossAsWritten.NeverSendsAgain` | src/rpc_impl/rpc_pkt_loss.cc:133-136 | rolled back with no request packets pending, a slot never sends again in any run |
| `LossAsWritten.SilentStays` | src/rpc_impl/rpc_ev_loop.cc:40-45 | without a rollback, which the event loop does not call, a slot whose packets are lost stays as it is |
| `LossAsWritten.RollbackExchanges` | src/rpc_impl/rpc_pkt_loss.cc:100-136 | the rollback returns a credit for each packet it no longer counts and spends them on the request packets from num_rx on, until all are sent or no credit is left; with as many response packets as request packets it sends nothing |
| `LossAsWritten.ServerKeeps` | src/rpc_impl/rpc_req.cc:125-142 | whatever packets arrive, a handler at work stays at work until it responds, and a response in place is never removed |
| `LossAsWritten.LossesKeep` | src/rpc_impl/rpc_req.cc:179-213 | losses alone never leave a client with a response packet and a server that has yet to count the request |
| `LossReached.LostRfrReached` | src/rpc_impl/rpc_pkt_loss.cc:133-136 | a new session, a request of one packet answered by two, and its request-for-response lost: it can no longer be completed |
| `LossAsWritten.PendingIsNotEnough` | src/rpc_impl/rpc_pkt_loss.cc:129-132 | with fewer response packets than request packets the rollback does send request packets again, and still no run completes the request |
| `LossReached.LostWhilePendingReached` | src/rpc_impl/rpc_pkt_loss.cc:129-132 | a new session and a request of two packets answered by two that comes to this |
| `LossAsWritten.RollbackAssertIff` | src/rpc_impl/rpc_pkt_loss.cc:100-101 | in every reachable state the rollback's assertion on credits holds if and only if the slot has taken no more credit returns than the other slots have packets outstanding |
| `LossReached.RollbackAssertFails` | src/rpc_impl/rpc_pkt_loss.cc:100-101 | a new session, a request of two packets and one credit return: it fails |
| `WindowRuns.FilterExact` | src/rpc.h:465-483 | declared contract: on every packet the network can deliver, the test on 16- and 32-bit header fields accepts exactly the answer to the next packet of the current request that is outstanding and not in the wheel |
| `WindowRuns.StepKept` | src/rpc.h:559-567 | declared contract: sends, wheel moves, losses, duplicates, receipts and rollbacks all keep the window invariant |
| `WindowLaws.IndicesDistinct` | src/sslot.h:79-85 | packets outstanding at one time have different indices modulo 32 |
| `WindowLaws.NextIndexFree` | src/rpc.h:687-718 | the index of the next packet is not flagged |
| `WindowTheorems.WindowSafety` | src/rpc.h:559-567 | declared contract: in every run over a network that drops, duplicates and reorders: credits + sum of (num_tx - num_rx) = 32; in every slot at most 32 packets are outstanding, none beyond the response, and requests-for-response only once a response packet is in; accepted numbers are 0, 1, .. once each; wheel counts equal flags set; finished requests have their whole response; the n-th request of slot i is numbered i + 32 n |
| `WindowTheorems.FinishedWhole` | src/rpc.h:459-461 | at completion resp_ntoi has filled every response index exactly once, in order |
| `WindowTheorems.NeverCompletes` | src/pkthdr.h:69-73 | a request of more than 2^16 wire packets, or numbered 2^32 or more, never completes in any run |
| `WindowTheorems.CanComplete` | src/rpc.h:822-826 | declared contract: with retransmission every other request can be completed from every reachable state, whatever was lost; what the body does is in LossAsWritten |
| `PacedSlotState.SlotState.EnqueueWheel` | src/rpc.h:687-701 | flags, count and wheel stay in step in the array itself |
| `PacedSlotState.SlotState.Reap` | src/rpc_impl/rpc_queues.cc:23-55 | the same when an entry leaves the wheel |
| `PacedSlotState.SlotState.InOrderClient` | src/rpc.h:465-483 | decides the filter; counts only packets refused because of the wheel |
| `PacedSlotState.SlotState.Rollback` | src/rpc_impl/rpc_pkt_loss.cc:100-127 | returns exactly the outstanding credits, or nothing while packets are in the wheel |
| `ActiveList.RpcList.constructor` | src/rpc_impl/rpc.cc:89-92 | the sentinels form an empty well-linked chain |
| `ActiveList.RpcList.Add` | src/rpc.h:533-541 | appends to the chain and keeps it linked both ways |
| `ActiveList.RpcList.Delete` | src/rpc.h:544-547 | removes exactly the slot and keeps the chain linked both ways |
| `ActiveList.RpcList.Forward` | src/rpc_impl/rpc_pkt_loss.cc:15-20 | the walk from the root visits the slots in insertion order |
| `ActiveList.RpcList.Backward` | src/rpc.h:937-944 | the walk from the tail visits them in reverse |
| `Packets.NumPktsLeast` | src/rpc.h:492-495 | the packet count is the least that covers the message |
| `Packets.PayloadsSum` | src/msg_buffer.h:83-87 | payload sizes never underflow, never exceed the limit and sum to the message size |
| `Packets.CopyDataToMsgbuf` | src/rpc.h:757-763 | writes the packet's slice to its place and nothing else |
| `Packets.Reassembles` | src/rpc.h:757-763 | in any order and with any duplicates, once every index has been copied the message is there |
| `Packets.LayoutDisjoint` | src/msg_buffer.h:52-64 | for any number of packets, headers and data are pairwise disjoint and inside the buffer despite padding that is not requested |
| `DataIov.InitDataIov` | src/huibuffer/serialization.h:299-363 | no data is dropped and every write is in range if and only if the message fits one packet, or no entry with data is beyond the room of t_iov, its packets and one more fit the 2000 index entries and its headers and pieces the 2300 entries of the vector; the pieces are what was copied; unless data is dropped, packet p is exactly its slice and there are as many packets as data_size_to_num_pkts says |
| `DataIov.CopyEntries` | src/huibuffer/serialization.h:307-310 | the copy holds exactly the entries there is room for and drops the others |
| `Delivery.DeliveredIff` | src/rpc_impl/rpc_resp.cc:54-70 | a response arrives whole if and only if it fits those arrays, its size fits the 24-bit header field, and it is empty or not a multiple of the packet data size; such a multiple loses exactly its last packet |
| `Delivery.IndexOverrun` | src/huibuffer/serialization.h:278 | the smallest message beyond the index array has 2000 packets |
| `Delivery.OneEntryFits` | src/huibuffer/serialization.h:230-291 | a message in one entry fits if and only if it has at most 1150 packets |
| `Delivery.IndexNeverBinds` | src/huibuffer/serialization.h:278 | for every vector of several packets: it is always the I/O vector and never the index array that is too short |
| `Delivery.EntriesKept` | src/huibuffer/iovector.h:355-361 | 2292 entries of one byte fit and arrive |
| `Delivery.EntryLost` | src/huibuffer/iovector.h:355-361 | of 2293 entries of one byte, one more than t_iov of a constructed Serializer takes, the last is lost and the rest arrives as the message |
| `Delivery.ZeroedSerializer` | src/session.h:86 | with a Serializer of zero bytes, as in a session slot, nothing of several packets is sent |
| `Delivery.WrappedSizeCut` | src/rpc_impl/rpc_resp.cc:133-136 | the packets of a response of 2^24 + 1 bytes are taken for its first one; at the packet sizes of the transports here such a response fails to fit before that (`WrappedNeverFits`) |
| `Delivery.WrappedReceived` | src/rpc_impl/rpc_resp.cc:133-170 | every response of 2^24 bytes or more: its first packet is taken for the whole if the wrapped size is at most a packet, otherwise it overruns its buffer |
| `Delivery.Size24Is` | src/pkthdr.h:64 | the size field holds the size modulo 2^24 |
| `Delivery.WrappedNeverFits` | src/transport_impl/infiniband/ib_transport.h:22-43 | with packets of at most 4096 bytes a message of 2^24 bytes or more has too many packets for the index array |
| `Delivery.FullPacketLost` | src/rpc_impl/rpc_resp.cc:133-136 | a response of exactly one full packet arrives empty |
| `Delivery.RequestDeliveredIff` | src/rpc_impl/rpc_req.cc:68-88 | a request arrives whole if and only if it fits those arrays and is one packet, or its size in the header field is more than a packet and leaves the remainder its last packet has |
| `Delivery.RequestBelowLimit` | src/rpc_impl/rpc_req.cc:88 | below 2^24 bytes that is: one packet or not a multiple |
| `Delivery.RequestReceivedIs` | src/rpc_impl/rpc_req.cc:68-88 | what the server makes of any request, by its size modulo 2^24: a prefix, or a read past the end of the last packet |
| `Delivery.ResponseBuffer.TakePacket` | src/rpc_impl/rpc_resp.cc:149-170 | packets in order build up the message; nothing is read past a packet or written past the buffer if and only if what is announced fits |
| `TxBatch.Batch.EnqueuePkt` | src/rpc.h:615-651 | a burst goes out exactly when sixteen packets are pending; bursts and pending batch are the packets enqueued, in order |
| `TxBatch.Batch.EnqueueCtrl` | src/rpc_impl/rpc_cr.cc:7-33 | the same; the header is built in the next of 128 circular buffers, and the header of every pending control packet survives their reuse |
| `TxBatch.Batch.Drain` | src/rpc.h:524-530 | everything enqueued has gone out, in order |
| `TxBatch.CtrlAdded` | src/rpc_impl/rpc_rfr.cc:6-30 | the control buffer taken next is none of those still in the batch |
| `Pacer.CongestionControl.GetUpdateTxTsc` | src/session.h:121-131 | computes the desired time from the previous one |
| `Pacer.PacedInterval` | src/session.h:121-131 | desired times never decrease or precede the reference, and between any two packets advance by at least their cycles less one per packet |
| `Pacer.PacedAtRate` | src/session.h:121-131 | and by at most their cycles, as long as no packet falls behind its reference |
| `MemPool.AppMemPool.ExtendPool` | apps/apps_common.h:55-60 | appends a block of fresh objects, in order, of twice the previous size |
| `MemPool.AppMemPool.Alloc` | apps/apps_common.h:62-67 | returns the last object of the pool, which nobody holds, and leaves the others in order; extends the pool only when it is empty |
| `MemPool.AppMemPool.Free` | apps/apps_common.h:69 | takes back a held object; free and held objects stay disjoint and together all created ones |
| `MemPool.CreatedCount` | apps/apps_common.h:55-60 | after k extensions 1024 * (2^k - 1) objects exist |

## Left out

- Unknown fields: the parser skips them and the model does not keep them, so the laws are about messages without any.
- Arenas, swapping, reflection and service stubs of the generated code: library plumbing.
- FlatLogFileFlushChunkRequestPB and the remaining messages: covered by the laws for schemas and, for its has-bits, on values; only the AccelerateOpenOptionsPB tree is modelled as objects, so update in place and aliasing are captured for that tree alone.
- Wire.SkipGroupPrefix: the protobuf library refuses groups and submessages nested deeper than its recursion limit, 100 by default; the model has no such limit.
- FlushRequestBits.MergeIsMerge: takes submessages as values, so it does not speak of sharing between the two messages.
- HeartbeatMgr.Mgr.DoOne: requires a failure timeout of at least ten cycles, since with less the call need not return (`ZeroSendDeltaLoops`); wrap-around of the 64-bit counter is not modelled.
- Mutexes and the UDP send of the heartbeat manager: each call is one atomic run, sending has no effect on its state.
- ClientSession.Session.EnqueueRequest: background threads, continuations and the bytes of the request are not part of it.
- ClientSession.Session.ProcessRespOne: takes a response for short if its header says one packet, where the source compares the 24-bit size with the packet data size; the two differ only from 2^24 bytes on (`WrappedSizeCut`). A second completion of a freed slot also unlinks it from the active list again, which is not modelled.
- OwnResponses.OwnIff: tells responses apart by the 32-bit header field, so requests of one slot that are 2^32 apart count as one.
- Session management (connect, disconnect, reset), the event loop's order of calls and congestion control rates.
- WindowRuns.StepKept: the server is any that answers only packets it received, and the timing wheel any that returns each entry once; the wheel's slots and the Timely rates are not modelled.
- `pkt_loss_scan_st`: only its walk of the active list; the event loop does not call it.
- DataIov.InitDataIov: the scatter list of a single packet (16 entries in the InfiniBand transport) is not modelled.
- Delivery.DeliveredIff: says what is split and taken; that each packet's pieces fit the transport's scatter list is not part of it.
- Delivery.RequestDeliveredIff: the same.
- Delivery.ResponseBuffer.TakePacket: bytes of the buffer that were never written are left open.
- Pacer.PacedInterval: delays are real numbers, truncated as the conversion does; rounding of doubles is not modelled.
- MemPool.AppMemPool.Free: the caller frees only what it holds, as the source relies on.
- gRPC, bRPC and FlatBuffers benchmarks, InfiniBand and DPDK transports, huge pages, logging and the Python scripts: I/O and presentation.
