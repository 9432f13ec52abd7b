# A model of the packet recorder, and proofs about it

The recorder watches the game client's traffic passively. Every captured frame is journaled
first; decoding runs behind the journal. This project models that chain in Dafny and proves what
its parts promise each other:

- `checksum.dfy` - the 16-bit header checksum: one fold over header and body, and lossless up to the final
  truncation.
- `reference.dfy` - the Python reference, on unbounded integers with masks: the same checksum on all inputs,
  and the same packets.
- `framing.dfy` - the message framing: a compacting scanner refines one recursive parse of the whole
  stream; the encoder and the scanner are inverses.
- `stream.dfy` - one direction of a TCP connection: sequence numbers modulo 2^32 (section 3.4 of RFC 9293),
  reassembly without reordering, and the ledger that cites the frames behind each message.
- `flow.dfy` - the flow table: canonical keys, stable roles, announcements against classifications.
- `bits.dfy`, `bodies.dfy` - the bit-packed message bodies.
- `pipeline.dfy` - everything above composed, over all interleavings of all flows.
- `journal.dfy`, `replay.dfy` - the rotating journal, what a crash can cost, and re-reading a session.
- `capture.dfy` - the goroutines of a live session as a state machine over every interleaving.
- `coverage.dfy` - the store of elements ever observed, and rebuilding it from the bundles.
- `keyvalues.dfy`, `countdown.dfy` - the client manifest parser and the dashboard's countdown.
- `vectors.dfy` - known answers: the golden packets and checksums, and texts the program writes, worked through
  the definitions of the other files.
- `bytes.dfy`, `options.dfy`, `sequences.dfy`, `text.dfy` - octets, optional values, lists without repetition,
  byte-wise string order and decimal forms.

Where the program changes things in place there is a class or a method over an array - the scanner, the
stream, the flow table and its connections, the bit reader, the pipeline with its map of stream objects, the
journal writer and its segments, the coverage document, the countdown's shared backing array - and its
contract equates the new state with a pure function of the old one; the theorems are about those functions.
What such a function computes is also stated in other terms - octet layouts, exact conditions with literal
constants over whole runs, independent references, known answers - so that a method and its function cannot
be wrong together.

The main results, across components:

- **Non-interference and end-to-end decoding.** However the frames of any number of connections are
  interleaved, each directed flow's records are what its own frames alone would give, and a list of messages
  that is encoded, segmented, retransmitted, overlapped and wrapped in any way is recorded message for
  message, each record citing exactly the frames that carried its bytes
  (`Pipelines.FlowsDoNotInterfere`, `Pipelines.CapturedStreamIsDecoded`, `Pipelines.SentIsRecorded`).
- **Live equals replay.** Whatever the scheduling, a finished session whose decoder dropped nothing is
  replayed to the same pipeline state (`Sessions.SessionReplays`); re-reading gives back what the journal
  reported exactly up to 99,999 segments (`Replays.RereadingIsWritingIff`).
- **Crash consistency, shutdown, rebuild.** `Journals.CrashLosesLittle`, `Sessions.ShutdownCompletes`,
  `Coverage.CoverageCanBeRebuilt`.

Integer widths are explicit: `uint16`, `uint32` and `uint64` are ranges, sequence numbers and built lengths
are reduced modulo 2^32, the program's checksum works on 32-bit words, and the reference's on unbounded
natural numbers whose shifts and bitwise operations are defined by division.

Some inputs stand for things outside the model: the set of known elements (`Universe`), the packet
dissector (`Dissect`), the formatting of a time in a segment's name (`Stamp`), case mapping (`Casing`), the
clock readings of each journal call (`Clock`), and, in the framing theory, the checksum function
(`Checking`; `CHECKED` is the program's).

## Where the code differs from what is said of it

- After a transport gap the poison bytes are documented as forcing the scanner to stop
  (`sc-capture/internal/decode/pipeline.go:210-215`). Their first word is above the sentinel threshold, so on
  an empty buffer they are consumed as a message and the stream goes on: `Streams.GapOnEmptyBufferIsIgnored`.
  `Streams.GapStopsIff` says exactly when the scanner does stop. Citations are therefore
  exact up to the first gap; `Streams.RunIsWovenParse` says what is recorded in every run.
  `Streams.AGapThatIsIgnored` is such a run: a 12-octet sentinel, then a segment
  ahead of it.
- The shard parser tolerates a missing chat flag (`sc-capture/pkg/scproto/bodies.go:107-112`). In a buffer of
  whole octets the flag is never missing: `Bodies.ChatFlagIsNeverMissing`.
- `Segments` promises capture order by sorting names (`sc-capture/internal/decode/replay.go:77-91`). With
  `%05d` that holds exactly up to 99,999 segments: `Replays.SegmentsInOrderIff`.
- Which end of a connection is called the server can depend on the packet seen first:
  `Flows.FirstPacketDecidesIff` gives the exact condition.
- The manifest parser needs an opening brace on a line of its own: after a name it is lost together with the
  name (`KeyValues.BraceAfterNameIsLost`).
- Coverage is said to be rebuildable from the bundles alone. States, observations and novelty counts are
  (`Coverage.CoverageCanBeRebuilt`); the times are not, as ingesting looks at the clock and not at the delta
  (`Coverage.RebuildingForgetsTimes`).
- `Build` has no length check; its output is read back exactly when the body has at most 0xfffffc octets:
  `Framing.BuildRoundTripsIff`.

## Model

| member | source | states |
|---|---|---|
| Checksums.FillHeader | sc-capture/pkg/scproto/checksum.go:21-27 | filling the array in place leaves twelve octets that hold the four numbers, least significant octet first, and two zeros |
| Checksums.HeaderIsLeastFirst | sc-capture/pkg/scproto/checksum.go:11-27 | the header as hashed, octet by octet: body length, sequence numbers and type, each least significant octet first, then zeros |
| Checksums.Hash.Digest | docs/protocol/source/protocol.py:36-49 | the word loop, the tail and the final mix over header then body compute the fold the theory is about |
| Checksums.Checksum | sc-capture/pkg/scproto/checksum.go:21-59 | the program's loops over both buffers return the modelled checksum for every header and body |
| Checksums.Hash.StateIsSingleFold | sc-capture/pkg/scproto/checksum.go:29-53 | because a 12-octet header has no tail, hashing header then body is one fold over their concatenation |
| Checksums.UndoMul | sc-capture/pkg/scproto/checksum.go:34-37 | multiplying a word by the constant can be undone |
| Checksums.UndoXorShift24 | sc-capture/pkg/scproto/checksum.go:35 | the 24-bit xor-shift is its own inverse |
| Checksums.AbsorbInjectiveInState | sc-capture/pkg/scproto/checksum.go:33-37 | absorbing a word loses nothing of the state |
| Checksums.AbsorbInjectiveInWord | sc-capture/pkg/scproto/checksum.go:33-37 | absorbing a word loses nothing of the word |
| Checksums.TailInjectiveInTail | sc-capture/pkg/scproto/checksum.go:40-52 | tails of equal length that leave the same state are equal |
| Checksums.Hash.StateInjectiveInBodyWord | sc-capture/pkg/scproto/checksum.go:29-58 | of a lossless hash: with all else fixed the final state determines each aligned body word |
| Checksums.Hash.StateInjectiveInTail | sc-capture/pkg/scproto/checksum.go:40-58 | of a lossless hash: with all else fixed the final state determines the 1-3 octet tail |
| Checksums.Hash.StateInjectiveInHeaderWord | sc-capture/pkg/scproto/checksum.go:22-58 | of a lossless hash: with all else fixed the final state determines each header word |
| Checksums.GoIsLossless | sc-capture/pkg/scproto/checksum.go:29-58 | the program's hash is lossless: every step is injective, so the three properties above are its own |
| Vectors.OneOctet | sc-capture/testdata/golden/framing.json:15-24 | the golden checksum of a one-octet body, 37668 |
| Vectors.TwoOctets | sc-capture/testdata/golden/framing.json:25-34 | the golden checksum of a two-octet body with an echo number, 27859 |
| Vectors.ThreeOctets | sc-capture/testdata/golden/framing.json:35-44 | the golden checksum of a three-octet body, 25252 |
| Vectors.FiveOctets | sc-capture/testdata/golden/framing.json:65-74 | the golden checksum of a body of a word and a tail, 18011 |
| Vectors.OneOctetPacket | sc-capture/testdata/golden/framing.json:15-24 | the golden packet, octet for octet, is what is built, and a checking scanner reads it back field by field |
| Vectors.TwoOctetPacket | sc-capture/testdata/golden/framing.json:25-34 | likewise, with all four header numbers different from zero |
| Vectors.SpoiledPacket | sc-capture/pkg/scproto/framing.go:160-164 | with any other checksum in its header the golden packet is refused as a desync |
| References.MulEmbeds | docs/protocol/source/protocol.py:41-42 | the unbounded product, masked, is the wrapping product of 32-bit words |
| References.PythonSimulatesGo | docs/protocol/source/protocol.py:36-48 | every step of the reference on unbounded integers follows the same step on 32-bit words |
| References.ReferenceParity | docs/protocol/source/protocol.py:26-49 | the reference checksum, over a header it packs itself, equals the program's on every header and every body |
| References.ReferenceChecksum | docs/protocol/source/protocol.py:26-49 | the reference's loops over both buffers compute the modelled reference checksum |
| References.PackedIsHeader | docs/protocol/source/protocol.py:26-35 | the reference's own packing, by repeated division, gives the octets the program fills in |
| References.PacketsAreBuilt | docs/protocol/source/protocol.py:52-58 | the reference's packets, packed most significant octet first by its own means, are the encoder's for every body below 2^32 octets, an error above; the scanner reads one back exactly when its body fits |
| Framing.Scanner.Feed | sc-capture/pkg/scproto/framing.go:106-117 | compaction changes only the representation: the unread octets grow by exactly those fed |
| Framing.Scanner.Buffered | sc-capture/pkg/scproto/framing.go:120 | the count is that of the unread octets |
| Framing.Scanner.Next | sc-capture/pkg/scproto/framing.go:130-169 | returns the message, the need for more or the desync of the pure parser on the unread octets, and consumes exactly the message |
| Framing.RunSchedule | sc-capture/pkg/scproto/framing.go:106-169 | any schedule of feeds and reads on the scanner is the schedule on its abstract state |
| Framing.ScheduleRefinesParse | sc-capture/pkg/scproto/framing.go:106-169 | whatever the schedule, what was returned followed by a parse of what is unread is one parse of everything |
| Framing.DrainedScheduleIsParse | sc-capture/pkg/scproto/framing.go:106-169 | from fresh to drained: exactly the messages and the verdict of one parse |
| Framing.ParseResumes | sc-capture/pkg/scproto/framing.go:130-169 | parsing in pieces is parsing the whole; more octets only extend the output |
| Framing.ParseConserves | sc-capture/pkg/scproto/framing.go:154-168 | the messages' raw octets followed by the rest are the input |
| Framing.NothingAfterDesync | sc-capture/pkg/scproto/framing.go:122-133 | after a desync no schedule returns another message |
| Framing.UnreadBound | sc-capture/pkg/scproto/framing.go:81-87 | a drained scanner holds at most 0xfffffc + 11 octets |
| Framing.FeedDrained | sc-capture/pkg/scproto/framing.go:106-117 | feeding a drained scanner holds at most 2^20 + 0xfffffc + 11 octets more than was fed |
| Framing.Build | sc-capture/pkg/scproto/framing.go:173-182 | the buffer built is the header, its checksum and the body |
| Framing.BuildRoundTripsIff | sc-capture/pkg/scproto/framing.go:130-182 | the scanner reads the encoder's output back exactly when the body fits the framing |
| Framing.AcceptedFramesAreBuilt | sc-capture/pkg/scproto/framing.go:138-168 | every ordinary frame a checking scanner accepts is, octet for octet, an encoder output |
| Framing.StreamRoundTrip | sc-capture/pkg/scproto/framing.go:130-182 | any list of encoded messages and sentinels parses to that list with nothing left |
| Framing.CutStreamRoundTrip | sc-capture/pkg/scproto/framing.go:130-182 | an encoding cut anywhere parses to exactly the items it holds whole, without a desync |
| Framing.ChunkedRoundTrip | sc-capture/pkg/scproto/framing.go:106-182 | ... cut into any chunks and read in any rhythm |
| Vectors.SentinelsAreTwelveOctets | sc-capture/pkg/scproto/framing.go:138-152 | a length above 0xfffffc ends the frame with its header, whatever follows; 0xfffffc itself is a length |
| Streams.WrappedOrder | sc-capture/internal/decode/pipeline.go:469-470 | within half the sequence space the wrapped comparison orders true offsets, at any number of wraps |
| Streams.Stream.TakeFrames | sc-capture/internal/decode/pipeline.go:218-241 | the loop over the ledger with its seen set takes what the pure ledger function takes |
| Streams.TakeOntoCites | sc-capture/internal/decode/pipeline.go:218-241 | taking n octets cites the distinct owners of exactly those octets and leaves the owners of the rest |
| Streams.DistinctCites | sc-capture/internal/decode/pipeline.go:219-226 | a citation lists each contributing frame once, no other, in order of first contribution |
| Streams.Stream.FeedTCP | sc-capture/internal/decode/pipeline.go:145-208 | one segment moves the stream, its scanner and its ledger as the pure step does, with the same messages and citations |
| Streams.MarkedIff | sc-capture/internal/decode/pipeline.go:157-207 | a stream is reported exactly when a segment leaves a gap or makes the scanner lose its framing, and never again after that |
| Streams.Stream.MarkStreamDesynced | sc-capture/internal/decode/pipeline.go:212-215 | what the poison octets leave in the scanner |
| Streams.TakeCites | sc-capture/internal/decode/pipeline.go:235-239 | while the ledger covers the octets taken, the fallback citation is unreachable |
| Streams.CitationsAreExact | sc-capture/internal/decode/pipeline.go:189-241 | up to the first gap the ledger covers exactly the unread octets and each record cites exactly the frames that carried its octets |
| Streams.RunIsParse | sc-capture/internal/decode/pipeline.go:145-208 | up to the first gap records, unread octets and desync are one parse of all accepted octets |
| Streams.BytesAreConserved | sc-capture/internal/decode/pipeline.go:189-207 | record octets followed by unread octets are all accepted octets, and the ledger counts the unread ones |
| Streams.AcceptedIsOneSlice | sc-capture/internal/decode/pipeline.go:161-191 | in any run inside the sequence window, with or without gaps, the octets accepted are one contiguous slice of the sender's stream and the next one expected is the one behind it |
| Streams.GapsArePayloadsAhead | sc-capture/internal/decode/pipeline.go:176-186 | such a run has a gap exactly when some payload starts ahead of a stream that has not lost framing |
| Streams.GapFreeRecords | sc-capture/internal/decode/pipeline.go:161-207 | such a run without a gap records one parse of that slice |
| Streams.Reassembly | sc-capture/internal/decode/pipeline.go:161-191 | through retransmissions, overlaps and wraps, with nothing ahead, the slice is all that has arrived |
| Streams.ReassembledRecords | sc-capture/internal/decode/pipeline.go:161-207 | ... and the records are those of one parse of it |
| Streams.RunEndsDrained | sc-capture/internal/decode/pipeline.go:176-215 | every run, gaps or not, leaves the scanner drained or desynced, so at most 0xfffffc + 11 octets wait |
| Streams.FollowFlow | sc-capture/pkg/scproto/framing.go:106-117 | over any flow the scanner's buffer stays within 2^20 + 0xfffffc + 11 octets and the widest payload, or the 12 octets of poison if that is wider |
| Streams.GapIsReported | sc-capture/internal/decode/pipeline.go:176-186 | a segment ahead of what has arrived is reported and nothing of it accepted |
| Streams.GapOnEmptyBufferIsIgnored | sc-capture/internal/decode/pipeline.go:210-215 | with nothing buffered the stream goes on after a gap as if there had been none |
| Streams.AGapThatIsIgnored | sc-capture/internal/decode/pipeline.go:210-215 | a concrete run of two segments, the second ahead, ends with a gap and no desync |
| Streams.PoisonStopsIff | sc-capture/internal/decode/pipeline.go:210-215 | exactly when the poison stops a drained, checking scanner |
| Streams.GapStopsIff | sc-capture/internal/decode/pipeline.go:176-215 | in every run, exactly when a gap stops the stream |
| Streams.RunIsWovenParse | sc-capture/internal/decode/pipeline.go:145-215 | in every run the messages recorded and those swallowed at gaps are, in order, one parse of the accepted octets with the poison woven in; each gap swallows at most one |
| Vectors.PoisonAnnounces | sc-capture/internal/decode/pipeline.go:212-215 | behind two buffered octets the poison is a header announcing 57,005 octets, and the scanner waits |
| Flows.KeyIsUnorderedPair | sc-capture/internal/flow/flow.go:66-73 | two packets share a key exactly when they join the same two endpoints, either way round, over one transport |
| Flows.AddrKeyInjective | sc-capture/internal/flow/flow.go:248 | the textual address identifies host and port, whatever text the host is |
| Flows.FirstPacketDecidesIff | sc-capture/internal/flow/flow.go:158-188 | exactly when the packet seen first decides which end is called the server |
| Flows.ReachableIsWellFormed | sc-capture/internal/flow/flow.go:99-218 | in every reachable table the order lists each key once, identifiers number it, and labels match announcements |
| Flows.DedicatedExactlyWhenAnnounced | sc-capture/internal/flow/flow.go:158-205 | a connection is dedicated, with handoff evidence, exactly when its server end was announced, before or after |
| Flows.LabelsTellPorts | sc-capture/internal/flow/flow.go:50-188 | in every run, a connection whose server end was never announced is labelled by that end's port: 3801, 3802, 3815, 80 or 443, and unknown, on heuristic evidence, exactly for all others |
| Flows.RolesNeverChange | sc-capture/internal/flow/flow.go:118-218 | identifier, key and roles never change, and a first desync frame or a dedicated label is never lost |
| Flows.FirstDesyncIsKept | sc-capture/internal/flow/flow.go:207-218 | the recorded desync frame is that of the first report, and absent exactly when there was none |
| Flows.DatesAreFirstAndLast | sc-capture/internal/flow/flow.go:118-146 | a connection carries the times of the first and the last of its packets, in either direction and whatever the clock says |
| Flows.DirectedFlowsAreEndpointPairs | sc-capture/internal/flow/flow.go:118-156 | over a run, identifier and direction name an ordered endpoint pair and nothing else |
| Flows.RepliesTravelBack | sc-capture/internal/flow/flow.go:148-155 | a reply shares the connection, in the opposite direction exactly when the ends differ |
| Flows.ClientToServerIff | sc-capture/internal/flow/flow.go:148-155 | over every run, a packet travels client to server exactly when it goes to the end the connection calls its server |
| Flows.FirstPacketTravels | sc-capture/internal/flow/flow.go:158-188 | over every run, the first packet of a connection travels client to server exactly when it goes to the announced end, else to the end on a service port, else to the lower port |
| Flows.Table.Observe | sc-capture/internal/flow/flow.go:118-156 | creates or finds the connection object as the pure table does, dates it, and tells its lane, of which the two rows above say the direction |
| Flows.Table.AnnounceDedicated | sc-capture/internal/flow/flow.go:192-205 | relabels exactly the connections whose server end is announced, in any map order, and dates none |
| Flows.Table.MarkDesync | sc-capture/internal/flow/flow.go:209-218 | only the first report is kept, and no other connection changes |
| Flows.Table.Connections | sc-capture/internal/flow/flow.go:221-231 | the snapshot is every connection once, in first-seen order |
| BitFields.PackRoundTrip | sc-capture/pkg/scproto/bitreader.go:8-36 | octets filled most significant bit first read back as the same bits, with only zero padding behind |
| BitFields.OctetsAreBigEndian | sc-capture/pkg/scproto/bitreader.go:28-52 | the bits of whole octets, read as one number, are the octets' big-endian worth |
| BitFields.BitReader.ReadBit | sc-capture/pkg/scproto/bitreader.go:28-36 | reads the next bit, or reports the end and stays there |
| BitFields.BitReader.Uint | sc-capture/pkg/scproto/bitreader.go:39-52 | the accumulator loop reads the number of the next n bits; a width is refused exactly if it is negative or above 64; a failed read leaves the cursor at the end |
| BitFields.BitReader.CString | sc-capture/pkg/scproto/bitreader.go:85-101 | reads up to the NUL, within 4096 octets, or fails as the pure reader does |
| BitFields.StringRoundTrip | sc-capture/pkg/scproto/bitreader.go:85-101 | at any bit offset a written string of at most 4095 octets without NUL is read back |
| BitFields.StringInverse | sc-capture/pkg/scproto/bitreader.go:85-101 | every string read is such a string, and was written by exactly the bits consumed |
| Bodies.StringLimit | sc-capture/pkg/scproto/bitreader.go:85-101 | at any bit offset a text without NUL is read back if it has fewer than 4096 octets and is unterminated otherwise |
| Bodies.ParseAssignedShard | sc-capture/pkg/scproto/bodies.go:83-125 | the cursor-driven parser is the pure parser on the body's bits, errors and partial results included |
| Bodies.ParseDedicatedServer | sc-capture/pkg/scproto/bodies.go:31-64 | likewise for the handoff |
| Bodies.ShardBodiesAreEncodings | sc-capture/pkg/scproto/bodies.go:79-125 | a body parses without complaint to v exactly when v is encodable and the body begins with an encoding of v |
| Bodies.AssignmentTells | sc-capture/pkg/scproto/bodies.go:83-125 | of any bits at all: nothing without a flag and a count, else the addresses up to the first unreadable one, which is complained of, or up to the count, then the chat address if its flag is set and it can be read |
| Bodies.ShardBodyRoundTripsIff | sc-capture/pkg/scproto/bodies.go:79-125 | a packed assignment comes back exactly when it has at most 255 shards and sendable addresses |
| Bodies.ShardLayout | sc-capture/pkg/scproto/bodies.go:66-125 | an encoded assignment is a flag, then the octets of the count and of each address - text, NUL, port most significant octet first -, then the chat flag and its address |
| Bodies.ChatFlagIsNeverMissing | sc-capture/pkg/scproto/bodies.go:107-112 | the tolerance for a missing chat flag is dead code on whole octets |
| Bodies.HandoffBodyRoundTripsIff | sc-capture/pkg/scproto/bodies.go:31-64 | a packed handoff comes back without complaint exactly when its address is sendable and not empty |
| Bodies.HandoffLayout | sc-capture/pkg/scproto/bodies.go:34-53 | an encoded handoff is, octet by octet, the address, a NUL, and port, session and zone most significant octet first, the zone in two's complement |
| Bodies.HandoffOfOctets | sc-capture/pkg/scproto/bodies.go:34-64 | those octets with anything behind them parse to exactly these fields, the next bit as the flag, and an empty address as the only complaint |
| Bodies.HandoffTells | sc-capture/pkg/scproto/bodies.go:31-64 | of any bits at all: the fields they begin with and the flag behind, and nothing exactly if they begin with no such fields |
| Bodies.TruncationKeepsAPrefix | sc-capture/pkg/scproto/bodies.go:94-125 | a cut body yields a prefix of the whole body's shards, and a chat endpoint once read is final |
| Bodies.TruncatedHandoffKeepsItsFields | sc-capture/pkg/scproto/bodies.go:34-64 | a cut handoff that still parses differs at most by an unread flag |
| Bodies.HandoffNeedsAllItsFields | sc-capture/pkg/scproto/bodies.go:34-53 | a packed handoff survives truncation exactly while all fields before the flag are complete |
| Pipelines.EachElementIsSeenOrNovel | sc-capture/internal/decode/pipeline.go:243-320 | every element a message names is reported seen or novel, by whether it is known, and no other is novel |
| Pipelines.StatusIsExact | sc-capture/internal/decode/pipeline.go:243-390 | a message is understood, and its type sighted as understood, exactly when its type is 0 or 11 and the body parses, failed exactly when its type is one of these and it does not, and otherwise told by whether the innermost element is known; sentinels tell their length |
| Pipelines.CredentialsAreSuspectedIff | sc-capture/internal/decode/pipeline.go:272-295 | credentials are suspected exactly in type 4 and in a known request whose body begins with opcode 9 |
| Pipelines.AssignmentIsUnderstood | sc-capture/internal/decode/pipeline.go:358-378 | a packed shard assignment is understood, sighted as understood, and shown with its addresses as text |
| Pipelines.OpcodesAreRead | sc-capture/pkg/scproto/framing.go:58-76 | request opcodes are big-endian, notification opcodes little-endian |
| Pipelines.HandoffIsRelayed | sc-capture/internal/decode/pipeline.go:322-356 | a packed handoff is understood, shown with its fields, and announced under its own address and port unless the address is empty |
| Pipelines.FlowsDoNotInterfere | sc-capture/internal/decode/pipeline.go:95-208 | for every interleaving, what is recorded on a flow's lane is what its own frames give on their own |
| Pipelines.OnlyOwnFramesMatter | sc-capture/internal/decode/pipeline.go:95-208 | captures that agree on one flow's frames record the same for it |
| Pipelines.RecordsHaveFlows | sc-capture/internal/decode/pipeline.go:392-406 | every record is on the lane of some captured frame |
| Pipelines.CapturedStreamIsDecoded | sc-capture/internal/decode/pipeline.go:145-241 | among any other traffic, true slices of a stream inside the sequence window that leave no gap are recorded as one parse of the accepted slice, exactly cited |
| Pipelines.CoveredStreamIsDecoded | sc-capture/internal/decode/pipeline.go:145-241 | ... and, with nothing ahead of what has arrived, of all that has |
| Pipelines.SentIsRecorded | sc-capture/internal/decode/pipeline.go:145-241 | messages encoded, segmented and captured in any such way from the start are recorded message for message, exactly those that have arrived whole |
| Pipelines.RunIsAccounted | sc-capture/internal/decode/pipeline.go:392-428 | record numbers, sightings, discoveries, handoffs, failures and announcements are exactly those of the records |
| Pipelines.RecordsAreReadings | sc-capture/internal/decode/pipeline.go:244-406 | in every run, every record holds the reading of the very message it records, and a datagram's holds none |
| Pipelines.DesyncsAreReported | sc-capture/internal/decode/pipeline.go:176-215 | over any capture the desync counter counts the frames at which a flow's own stream is reported desynced, and a connection's desync frame is the first of them in either direction |
| Pipelines.DedicatedExactlyWhenHandedOff | sc-capture/internal/decode/pipeline.go:322-339 | a connection is labelled from a handoff exactly when some recorded message announced its server end |
| Pipelines.Pipeline.NoteNovel | sc-capture/internal/decode/pipeline.go:419-428 | lists an element unless it is listed already |
| Pipelines.Pipeline.FeedTCP | sc-capture/internal/decode/pipeline.go:145-208 | moves the lane's stream object, processes its messages and marks the connection, as the pure step does |
| Pipelines.Pipeline.FeedUDP | sc-capture/internal/decode/pipeline.go:128-143 | one record per datagram that is not empty, citing its own frame |
| Pipelines.DatagramsTellTheMatch | sc-capture/internal/decode/pipeline.go:128-143 | a datagram gives one undecoded record citing its frame, told to be in a match exactly when some recorded message had announced its server end |
| Pipelines.Pipeline.Process | sc-capture/internal/decode/pipeline.go:244-390 | interpreting a message, as the rows above say, updates the books, relays a handoff to the table and emits one record |
| Pipelines.Pipeline.Feed | sc-capture/internal/decode/pipeline.go:95-120 | one frame moves table, streams and books as the pure pipeline does |
| Journals.Writer.Write | sc-capture/internal/journal/segment.go:115-155 | rotation, append and flush leave the modelled journal and return where the frame landed; the next rows say when |
| Journals.WriteTurnsIff | sc-capture/internal/journal/segment.go:119-131 | over every run, Write opens a new segment, under the next number and the frame's time, exactly when the open one holds 200 MiB of frame bytes or is ten minutes old; the frame is its first, and otherwise the next of the open one |
| Journals.WriteFlushesIff | sc-capture/internal/journal/segment.go:148-153 | over every run, Write flushes exactly when 4 MiB wait, this frame included, or a second has passed since the last flush or the opening |
| Journals.WatchTells | sc-capture/internal/journal/segment.go:69-155 | what a watch kept over the calls alone tells of the open segment - number, name, opening time, frames, bytes, first and last time, unflushed bytes - is so |
| Journals.Writer.Rotate | sc-capture/internal/journal/segment.go:69-107 | the outgoing segment is recorded with all its frames flushed and closed; only then the next one opens |
| Journals.Writer.OpenNext | sc-capture/internal/journal/segment.go:75-86 | a segment is opened only when none is open and every earlier one is whole on stable storage |
| Journals.Writer.Close | sc-capture/internal/journal/segment.go:195-200 | the open segment, if any, is recorded and flushed; closing twice does nothing |
| Journals.Writer.Tick | sc-capture/internal/journal/segment.go:159-170 | flushes exactly when a segment is open and the interval has elapsed |
| Journals.TickFlushesIff | sc-capture/internal/journal/segment.go:157-170 | over every run, Tick flushes exactly when a second has passed since the last flush or the opening, and changes nothing else |
| Journals.Writer.Segments | sc-capture/internal/journal/segment.go:180-193 | one entry per segment, the open one included if there is one, each telling its name, its frame count and the times of its first and last frame |
| Journals.Segment.Sync | sc-capture/internal/journal/pcapng.go:110-122 | everything written becomes durable |
| Journals.Segment.Append | sc-capture/internal/journal/pcapng.go:94-103 | frames, bytes and unflushed bytes grow by the frame |
| Journals.WritesAreListed | sc-capture/internal/journal/segment.go:115-155 | what Write returned is what the segments hold, in order, with their indices |
| Journals.TotalsTell | sc-capture/internal/journal/segment.go:145-178 | the totals are the number of frames written and their bytes |
| Journals.RunIsSound | sc-capture/internal/journal/segment.go:65-193 | every run keeps numbering, metadata, the size cap up to one frame, and less than 4 MiB unflushed |
| Journals.SecuredFilesSurvive | sc-capture/internal/journal/segment.go:88-107 | a crash that may cut every file behind its flushed frames takes nothing of the finished segments, because closing flushed them |
| Journals.CrashLosesLittle | sc-capture/internal/journal/segment.go:88-170 | wherever a crash cuts the files, what survives is a prefix with every finished segment and everything flushed; less than 4 MiB is missing, all of it from the open segment |
| Journals.CrashInsideWrite | sc-capture/internal/journal/segment.go:115-155 | a crash inside Write - before or after a rotation, between closing and opening, before the flush - misses less than 4 MiB and the frame at hand |
| Journals.ClosedLosesNothing | sc-capture/internal/journal/segment.go:195-200 | after Close a crash takes nothing |
| Journals.DueTickLosesNothing | sc-capture/internal/journal/segment.go:157-170 | a crash after a tick at least a second past the last flush loses nothing |
| Journals.NamesAscend | sc-capture/internal/journal/segment.go:65-67 | up to 99,999 names sort by number, whatever the clock said |
| Journals.NamesDiffer | sc-capture/internal/journal/segment.go:65-67 | segments of different numbers never share a name |
| Journals.HundredThousandSortsEarly | sc-capture/internal/journal/segment.go:65-67 | segment 100,000 sorts before segment 10,000 |
| Vectors.SegmentNames | sc-capture/internal/journal/segment.go:65-67 | the first segment is capture_00001_, its time, .pcapng |
| Replays.NamesAreSegments | sc-capture/internal/decode/replay.go:84-88 | every segment name ends in ".pcapng" |
| Replays.ListedIff | sc-capture/internal/decode/replay.go:78-91 | a name is listed as often as the directory holds it as a file ending in ".pcapng", and otherwise not at all |
| Replays.BundleListsSegments | sc-capture/internal/decode/replay.go:78-91 | of a bundle that holds the journal's files and any other directories and files of other endings, exactly the journal's files are listed |
| Replays.Segments | sc-capture/internal/decode/replay.go:78-91 | the names of the directory that `Replays.ListedIff` describes, sorted |
| Replays.SegmentsInOrderIff | sc-capture/internal/decode/replay.go:77-91 | sorting finds the segments in capture order exactly up to 99,999 of them |
| Replays.RereadingIsWritingIff | sc-capture/internal/decode/replay.go:31-91 | reading the segments to their ends gives back the list Write reported exactly up to 99,999 segments |
| Replays.RereadingAfterCrash | sc-capture/internal/decode/replay.go:34-75 | re-reading what survived a crash gives a prefix of what was written, whatever state the last segment is in, and an error exactly if that one is unreadable |
| Replays.ReplaySegment | sc-capture/internal/decode/replay.go:47-75 | the loop feeds the frames of a segment up to where it is cut or broken, each with its index |
| Replays.ReplaySegments | sc-capture/internal/decode/replay.go:31-45 | segments are fed in turn; one that is missing or broken ends the replay with an error after what it held was fed |
| Replays.ReadingStopsAt | sc-capture/internal/decode/replay.go:34-43 | reading goes up to the first segment that is missing or broken, takes what a broken one yields, and succeeds exactly if there is none |
| Replays.Replay | sc-capture/internal/decode/replay.go:22-45 | on any directory: an error at once if it has no segment, else the pipeline fed all that can be read in name order, and an error exactly when that is not all |
| Sessions.EveryInterleavingIsSound | sc-capture/cmd/sccap/capture.go:369-448 | every step of readers, writer, decoder and main loop keeps the invariant of the session |
| Sessions.DecodeFollowsJournal | sc-capture/cmd/sccap/capture.go:415-448 | the decoder is fed only what is journaled, in order; journaled = fed + queued + dropped, plus one in hand |
| Sessions.SmallSessionsDropNothing | sc-capture/cmd/sccap/capture.go:415-447 | only a full queue drops: a session of at most 4096 journaled frames drops none |
| Sessions.ReadersWaitAndTheWriterDrops | sc-capture/cmd/sccap/capture.go:369-447 | in every interleaving at most 8192 frames and 4096 entries wait; a reader can send exactly while fewer than 8192 do, and a frame is dropped exactly when it is offered to 4096 |
| Sessions.FinishedSession | sc-capture/cmd/sccap/capture.go:373-448 | at the end all that was journaled was fed or counted dropped; without a write error each interface lost at most its last frame |
| Sessions.ShutdownProgresses | sc-capture/cmd/sccap/capture.go:557-564 | once stopping, every step lessens the work left |
| Sessions.StuckOnlyWhenDone | sc-capture/cmd/sccap/capture.go:557-564 | once stopping, some step is possible until the session is over |
| Sessions.ShutdownCompletes | sc-capture/cmd/sccap/capture.go:557-564 | every interleaving of the shutdown is bounded and ends with the session over |
| Sessions.SessionReplays | sc-capture/cmd/sccap/capture.go:404-609 | whatever the interleaving, and whatever a crash does after the journal is closed, a session that dropped nothing is re-read without error as the frames that were fed, and replayed to the same pipeline state |
| Sessions.CrashedSessionRereads | sc-capture/cmd/sccap/capture.go:415-448 | a session cut short at any moment is re-read as a prefix of what was journaled, less than 4 MiB short of it |
| Coverage.StoreIsTheSumOfItsSessions | sc-capture/internal/coverage/store.go:82-186 | a store tells each element's highest state, one observation per sighting, one count per novelty report |
| Coverage.CoverageCanBeRebuilt | sc-capture/cmd/sccap/coverage.go:92-113 | ingesting the same deltas in any order into a fresh store gives the same states, observations and novelty counts |
| Coverage.StateNeverFalls | sc-capture/internal/coverage/store.go:32-56 | no later session lowers a state or an observation count |
| Coverage.StoreTellsFirstOccasion | sc-capture/internal/coverage/store.go:142-163 | an element is dated by the first session that told of it |
| Coverage.FirstNameIsKept | sc-capture/internal/coverage/store.go:103-155 | an element is listed from the first visit whose build knows it or whose session saw it, for ever under that build's name for it or its kind in upper case, _UNKNOWN_ and its number |
| Coverage.ListedOnlyIfMet | sc-capture/internal/coverage/store.go:80-155 | ... and nothing else is listed |
| Coverage.FirstDiscoveryIsKept | sc-capture/internal/coverage/store.go:172-186 | a novel element keeps the name, session and time of its first report, undecoded, and counts every later one |
| Coverage.NovelIsListedOnce | sc-capture/internal/coverage/store.go:172-186 | over any life of a store, however often it is reported, a novel element is listed once |
| Coverage.RebuildingForgetsTimes | sc-capture/cmd/sccap/coverage.go:103-111 | a rebuilt store dates all that was ever seen with the time of the rebuild |
| Coverage.StoreLearnsWhatWasRecorded | sc-capture/cmd/sccap/capture.go:37-84 | a capture adds one observation if seen and one if understood, raises the state, and counts a novelty once |
| Coverage.KeyTextsDiffer | sc-capture/internal/decode/pipeline.go:409-417 | a key text stands for one sighting |
| Vectors.KeyTexts | sc-capture/internal/decode/pipeline.go:408-417 | three key texts, one of each kind |
| Coverage.KeysAreReadBack | sc-capture/internal/coverage/store.go:320-331 | the parser gives back the element of every key text, and its last character tells whether it was decoded |
| Coverage.AnyKeyIsRead | sc-capture/internal/coverage/store.go:320-331 | any text is read up to its last colon as a kind and the digits behind it, as far as they go, as the number; without any, or beyond sixteen bits, it is not read |
| Coverage.KeysTellSightings | sc-capture/cmd/sccap/capture.go:46-51 | the key texts of a session, in any order, tell each of its sightings once and no other |
| Coverage.Document.Observe | sc-capture/internal/coverage/store.go:142-170 | counts, dates and raises the entry, creating it under the build's name or a made-up one if need be |
| Coverage.Document.Novelty | sc-capture/internal/coverage/store.go:173-186 | counts a listed novelty once more or lists it with its name, state, session and time |
| Coverage.Document.RecordCoverage | sc-capture/cmd/sccap/capture.go:37-84 | in whatever map order, the key texts are parsed and the store takes exactly what the delta left in the bundle says |
| Coverage.Document.IngestDelta | sc-capture/cmd/sccap/coverage.go:92-113 | ingesting a delta does to the store what recording it live did |
| KeyValues.ParseACF | sc-capture/internal/client/steam.go:183-237 | the line loop with its section stack computes the modelled parse of every text |
| KeyValues.ShownLineIsRead | sc-capture/internal/client/steam.go:239-274 | a line with any white space around its tokens is classified as what it shows |
| KeyValues.PairLineIff | sc-capture/internal/client/steam.go:239-261 | any line is read as a pair exactly if it begins with two quoted texts, white space at most around the first; the rest of the line is not looked at |
| KeyValues.NameLineIff | sc-capture/internal/client/steam.go:263-274 | any line is read as a name exactly if it is one quoted text and white space |
| Vectors.PairLine | sc-capture/internal/client/steam_test.go:127-155 | pairs indented and separated by tabs are read |
| Vectors.NameLine | sc-capture/internal/client/steam_test.go:127-155 | so are indented names |
| KeyValues.QuietSections | sc-capture/internal/client/steam.go:196-223 | sections of no interest, at any depth, leave no trace |
| KeyValues.ParseOfShownTree | sc-capture/internal/client/steam.go:183-274 | a one-rooted tree of any depth, one token or pair to a line with any white space and any blank lines, parses to the root's direct pairs and the manifests directly under its InstalledDepots |
| KeyValues.TopPairsTell | sc-capture/internal/client/steam.go:210-213 | a key is found exactly if a pair directly under the root has it, in lower case, with the last such value |
| KeyValues.DepotsTell | sc-capture/internal/client/steam.go:214-226 | a depot is found exactly if an InstalledDepots section directly under the root holds one of its name with a manifest pair directly in it, and with such a value |
| KeyValues.BraceAfterNameIsLost | sc-capture/internal/client/steam.go:239-274 | a line that holds a name and a brace is not read as either |
| Countdown.Collapse | sc-capture/cmd/sccov/main.go:193-205 | merging in place on the shared backing array keeps the last value of each run of equal labels |
| Countdown.CollapseKeeps | sc-capture/cmd/sccov/main.go:193-205 | collapsing keeps the last value, the descent, and no two equal neighbours |
| Countdown.CollapseSnoc | sc-capture/cmd/sccov/main.go:197-203 | one point more takes the place of the last if it bears the same label, and else follows it |
| Countdown.GroupingConserves | sc-capture/cmd/sccov/main.go:158-182 | the sessions' counts add up to the elements grouped |
| Countdown.CountdownConserves | sc-capture/cmd/sccov/main.go:119-205 | the countdown never rises and ends at the total never seen, exactly when as many are grouped as observed |
| Countdown.CountKinds | sc-capture/cmd/sccov/main.go:120-137 | the counting loop gives every kind its own total |
| Countdown.CountOfTells | sc-capture/cmd/sccov/main.go:123-136 | a kind's count is the number of its elements, of those "decoded" and of those "observed_undecoded" |
| Countdown.TotalsTell | sc-capture/cmd/sccov/main.go:138-151 | the totals number the elements of the three kinds shown, by the same states, and no others |
| Countdown.Rows | sc-capture/cmd/sccov/main.go:138-150 | one row per kind in the canonical order, and their sum |
| Countdown.RowsAreShown | sc-capture/cmd/sccov/main.go:101-148 | the three kinds in order, each with its title and its number behind its prefix |
| Countdown.GroupSessions | sc-capture/cmd/sccov/main.go:158-178 | one entry per session of an observed element, with its count and the least time any of its elements gives |
| Countdown.TimeIsEarliest | sc-capture/cmd/sccov/main.go:163-177 | the time kept is given by an element of the session and no other non-empty one is less |
| Countdown.SessionsAgree | sc-capture/cmd/sccov/main.go:158-178 | what is told of a session does not depend on the order in which the elements are met |
| Countdown.CountInTells | sc-capture/cmd/sccov/main.go:164-173 | a session is credited with the observed elements that name it, each once |
| Countdown.StepsTell | sc-capture/cmd/sccov/main.go:183-192 | after each session the countdown stands at what was known less all credited so far |
| Countdown.LabelTells | sc-capture/cmd/sccov/main.go:108-190 | a step is labelled with the second part of the session's name, or a question mark |
| Countdown.PermilleTells | sc-capture/cmd/sccov/main.go:154-156 | the share is the observed in whole tenths of a percent of the known, rounded down, and none of none |
| Countdown.Build | sc-capture/cmd/sccov/main.go:119-213 | totals, percentage, rows by kind, countdown and session count of a store met in any order, sessions sorted by their earliest time |

## Left out

- Streams.RunIsWovenParse: which frames the records behind a gap cite is not characterised, because the ledger does not know the poison octets.
- Streams.Stream.FeedTCP: drains the scanner into a list before the pipeline interprets it; the program interprets each message between two reads, which the scanner and the stream do not notice.
- Pipelines.Pipeline.Feed: a panic in a decoder is assumed not to happen, so the containment of panics and partly updated streams are not modelled.
- Journals.Writer.Write: only successful calls; the journal after a failed rotation or write is not modelled, as the session stops there.
- Journals.CrashLosesLittle: a segment file is its list of frames; pcapng encoding and buffering inside a block are not modelled.
- Framing.Scanner.Next: messages are values; in the program body and raw octets alias the scanner's buffer until the next read, and feeding moves the unread octets to its front in place.
- Pipelines.Pipeline.Feed: the capture time dates the connection through `Flows.Table.Observe`; its contract does not carry the dates over a run, `Flows.DatesAreFirstAndLast` does.
- Pipelines.Pipeline.Process: element names and reasons of a record are not modelled; which elements are seen, new, understood or failed is, and so are the fields shown of the two bodies and of a sentinel.
- Replays.Replay: why a segment cannot be opened or read on is not distinguished; one whose header cannot be read has no frames, and is torn or broken like any other.
- Sessions.Next: channels and goroutine steps are atomic; a read is one step that may also time out, and the kernel's ring is not modelled.
- Coverage.ParseKey: white space before the number, which the program's scan would skip, is not accepted; no key text has any.
- KeyValues.ParseACF: case mapping is a parameter, and an empty depot map stands for an absent one.
- Countdown.Build: the percentage is given in tenths, rounded down as an integer quotient, and the bundle summaries are not modelled.
- Record times, addresses of capture interfaces, connection timestamps and human-readable reasons: they do not influence any modelled decision.
- `Summarise`, `Filter` and other listings of the coverage store: they would only add easy members.
- Packet dissection, JSON, hashing of the client, live reporting, markers, disk monitoring and the HTTP dashboard: I/O without a modelled algorithm.
- `verify.Verify`: its verdict is a sequence of independent checks.
