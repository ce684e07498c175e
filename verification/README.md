# Cypress in Dafny

Cypress moves log messages between machines, files and text formats. This project models four of its parts and
proves what they promise, over every input and every run.

**Reliable transport** (`Transport*`, `MessageOrder`). Sender, peer, pipes and ack readers are one labelled step
system. A step is one access to shared state: one ack that `readAck` pops from the in-flight list, one element that
`sendNacks` nacks, its move to `e.Prev()`, the reading of `outstanding` in `reconnect` and its writing, one frame that
is flushed or decoded. What the sender does without touching shared state, or under its lock, is part of the step
before; a walk by the ack reader itself, which pops nothing meanwhile and holds the lock, is one step. The environment
orders the steps, breaks connections and lets writes fail, on dead and on live ones. The theorems in
`TransportTheorems` speak about every state of every run; `TransportRefusal` is about a message that every write
refuses. `TransportCode` shows that the methods of `Send` and `ReliableSend` do to their fields what the steps of the
same names say. Messages travel whole on the modelled pipes; `Frames.CutStream` justifies this for the byte pipes.

**Wire codec and streams** (`Bits`, `Varint`, `Wire`, `WireFields`, `WireLengths`, `Messages`, `MessageRoundTrip`,
`Layout`, `MarshalTo`, `Unmarshal`, `Frames`, `Stream`). `Wire` gives the meaning of the Protocol Buffers bytes as one
decoding function over a schema of each type, with the endless loops and panics that lengths beyond the range of an
`int` cause; `WireLengths` says when they happen. `Unmarshal` is the generated code with its positions and loops, proved
to compute that function; `MarshalTo` writes into arrays and `Layout` is the size law. `Frames` says what a stream of
frames means, `Stream` is the encoders, decoders, readers and writers as objects.

**Key=value text and its scanner** (`Utf8`, `Tokens`, `Scanner`, `Symbols`, `Decimals`, `KvText`, `KvParse`,
`KvTokens`, `KvRoundTrip`, `KvMessages`, `KvParser`). `Tokens` is the language of the scanner on a source that lies
there as a whole; `Scanner` is the sliding buffer, proved to compute it for every way the reader splits the source.
`KvParse` is the parser over those tokens, `KvParser` the parser on the scanner object, `KvText` the printer.

**Persistence and line sources** (`Spool`, `Lines`, `Monitor`, `SyslogFormat`, `SyslogConn`).

Findings where the code does not keep a promise, each with the exact condition or a general counterexample:

- The reliable sender loses messages when acks arrive while it walks the in-flight list after a failure: an ack that
  removes the element it stands on ends the walk, and what is behind is neither resent nor acked
  (`TransportTheorems.WalkLosesMessage`; exactly then: `TransportTheorems.DroppedExactlyWhen`). `outstanding` then
  counts the lost messages for ever, late acks are counted twice, and the unlocked `outstanding++` of `reconnect`
  misses acks (`TransportTheorems.OutstandingCounts`, `TransportTheorems.AckIsMissed`).
- A message without type, once it is accepted, is resent for ever: everything behind it waits, over any number of
  connections (`TransportRefusal.RefusedMessageBlocks`, `TransportRefusal.RefusedRound`).
- `Encode` writes the head of a frame before it refuses a message without timestamp or type, and the next message is
  lost to the reader (`Frames.OrphanHeadBreaksNext`); reading ends there for good, exactly if something was written
  behind it (`Frames.ItemsRun`), and in a spool also the later files are not read (`Spool.Spool.ReadsBack`).
- Lengths of 2^63 and more are not checked. Eleven bytes make `Unmarshal` loop forever (`WireLengths.HangingMessage`,
  `WireLengths.HangingGroup`, `Frames.HangingFrame`), others make it panic (`WireLengths.CrashingMessage`,
  `Frames.HugeFramePanics`). When they return: `WireLengths.SkipReturnsExactly`, `WireLengths.MessageReturns`.
- Only odd versions survive a stream, because decoders or into version 1 (`MessageRoundTrip.VersionOneDecode`).
- A stream that is cut within the head of a frame ends like a complete one (`Frames.CutFrame`).
- A flush of the snappy writer that fails drops the buffered bytes (`Stream.SnappyWriter.Flush`), a failing write
  keeps all of them, so that the next one sends some twice (`Stream.SnappyWriter.Write`).
- A key=value line that ends inside its timestamp or session never returns (`KvMessages.TimestampHangs`,
  `KvMessages.SessionHangs`; exactly then: `KvMessages.StuckExactly`), a session that is not legal UTF-8 comes back
  changed (`KvMessages.UntilSpaceReads`), negative integers and nanoseconds of zero do not come back, an index of
  exactly the table's length panics (`Symbols.NumberRoundTrip`), and with `Bare` set only single messages come back,
  because the line behind a message is taken as text (`KvMessages.BareExactly`).
- Syslog messages of priority 8 panic, and so do reversed brackets in the tag and structured data that begins with a
  space (`SyslogFormat.PanicsExactly`; inputs: `SyslogFormat.UserEmergencyPanics`, `SyslogFormat.ReversedTagPanics`,
  `SyslogFormat.SpaceForDataPanics`); an element without parameters is misread (`SyslogFormat.BareElementIsMisread`),
  and a counted message whose head is not shorter than its count reads on to a newline, while one whose read comes up
  short ends in zero bytes (`SyslogFormat.CountedIsExact`, `SyslogFormat.CountTooSmall`).
- Two spellings of one path share an offset (`Monitor.OneOffsetPerFile`), and of several readers of one path only
  those that the offset is behind resume where they stopped (`Monitor.Monitor.ResumesWhereItStopped`).

Assumptions. Transport: one sender goroutine, as `drain` provides; `OnClosed` is installed before the connection
fails; timestamps of accepted messages strictly increase; the peer sends only `k` bytes. Streams: snappy and zlib are
functions that undo each other; byte slices are shorter than 2^63; `binary.ReadUvarint` answers within a number as the
program's own `ReadUvarint` does, with a plain end-of-file (newer Go versions answer an unexpected one). Readers
deliver at least one byte or an error, and an error only without bytes, except for the scanner's reader, which may
deliver nothing a finite number of times. Text: TAI64N labels parse back, start with `@` and hold no space. Syslog: a
stamp that is read back holds no newline. Spool: the labels of successive rotations increase. Strings are byte
sequences; `time.Parse`, `cleanPath` and the classes of characters beyond ASCII are parameters.

Conventions: a lemma whose name ends in `Is` unfolds one definition, so that the proofs that use it can keep the
definition hidden. Methods named after a method of the program follow it statement by statement; their contracts name
the specification function they compute, and the lemmas are about that function. A loop of the program that may not
end is modelled with what it has visited, and reports that it has come round.

## Model

| member | source | states |
|---|---|---|
| MessageOrder.SortSorts | messages.go:9-11 | re-sorting a list of distinct timestamps gives a permutation of it in strictly increasing order of timestamps |
| MessageOrder.SortIsUnique | messages.go:6-11 | whatever sorting algorithm runs, the sorted list is the same: a sort of distinct timestamps has one possible result |
| MessageOrder.SortRestores | reliable_send.go:124-125 | the list that `reconnect` puts together after a failed resend, its rest in front of what was nacked meanwhile, is sorted back into the order of acceptance |
| TransportTheorems.NextIsReachable | reliable_send.go:141-168 | the states the theorems speak about are those of all runs: every enabled step leads from one to another; acks are popped between any two steps of the walk over the in-flight list, and a write may fail on a live connection |
| TransportTheorems.HeldIsUnackedSuffix | reliable_send.go:75-168 | in every run, at every idle point, the messages the sender holds (in flight on an open connection, `nacked` on a closed one) are exactly the unacked suffix of the accepted messages in their original order, if and only if no ack has overtaken a walk over the in-flight list |
| TransportTheorems.EveryMessageIsAccountedFor | send.go:142-258 | conservation, at every moment of every run: each accepted message is held, or was acked, or was dropped by a walk that was cut short, and only one of these; what is held keeps the order of acceptance, and what was acked some peer has decoded |
| TransportTheorems.NothingElseIsLost | send.go:178-198 | at every moment, also in the middle of a walk or a resend, an accepted message is held, or some peer's `Generate` has returned it, or a walk was cut short in front of it, and then it is neither held nor acked |
| TransportTheorems.NothingIsLost | send.go:142-258 | as long as no ack overtakes a walk, an accepted message is held or some peer's `Generate` has returned it |
| TransportTheorems.DropsExactly | send.go:183-189 | messages are dropped exactly by the step that leaves an element which an ack has meanwhile removed (`e.Prev()` is nil) while others are in flight, and it drops all of them |
| TransportTheorems.DroppedExactlyWhen | send.go:183-189 | a run drops no message if and only if that step does not occur in it |
| TransportTheorems.CutsExactlyWhen | send.go:148-166 | the condition of `NothingIsLost` and `HeldIsUnackedSuffix` over runs: no ack pops the element under the cursor of a walk while others are behind it |
| TransportTheorems.WalkLosesMessage | send.go:183-189 | a run that loses a message: window 3, two messages decoded and acked while the walk after the failed write of the third goes over them; the third is accepted and neither held, nor nacked, nor decoded, nor on its way |
| TransportTheorems.PeersSeeOrder | recv.go:36-47 | in every run each peer returns accepted messages only, in the order of acceptance |
| TransportTheorems.PeersSeeBlocks | recv.go:36-47 | as long as no ack overtakes a walk, what one peer returns is a gap-free block of the accepted messages in order, and all acked messages lie in such blocks |
| TransportTheorems.AcksAreAttributed | send.go:142-174 | on every connection the acked sequence is a prefix of the decoded one and that of the sent one, and the rest of the sent one is in flight |
| TransportTheorems.AckResolvesOldest | send.go:148-166 | every ack byte consumed resolves exactly the oldest unresolved message, one that the peer has decoded |
| TransportTheorems.CreditsAreConserved | send.go:83-105 | available plus in flight plus popped-but-uncredited is the window in every reachable state, so `0 <= available <= window` and at most `window` messages are unacked |
| TransportTheorems.WindowIsNotStuck | send.go:247-254 | while `Send` waits on a live connection the encoder is flushed, something is on its way, a step of the peer or the ack reader is enabled, and that step brings the wait closer to its end |
| TransportTheorems.WaitEnds | send.go:247-254 | peer and ack reader alone lead every such wait to a state in which the sender can go on |
| TransportTheorems.WaitsEndInEveryRun | stream_encoder.go:148-157 | the same for every reachable state |
| TransportTheorems.OneTokenPerConnection | send.go:178-198 | a connection has emitted one close token if it is closed and none otherwise |
| TransportTheorems.NacksAreNotStranded | reliable_send.go:83-134 | whenever `drain` is at its select with a closed connection or with nacked messages, exactly one close token is waiting |
| TransportTheorems.CloseNeverBlocks | reliable_send.go:83-85 | the one-slot channel is empty whenever a connection emits its token, so the emitter never blocks |
| TransportTheorems.OutstandingCounts | reliable_send.go:68-81 | `outstanding` is the number of messages in flight on the open connection or not reached yet by a walk, plus the dropped ones, which nobody counts back, minus the late acks, plus the decrements that the unlocked `outstanding++` of `reconnect` overwrote |
| TransportTheorems.MissesExactly | reliable_send.go:119-121 | such decrements are missed exactly when `outstanding` has changed between the reading and the writing of that statement |
| TransportTheorems.MissedExactlyWhen | reliable_send.go:119-121 | a run misses none if and only if that never happens in it |
| TransportTheorems.AckIsMissed | reliable_send.go:119-121 | a run in which it happens: one message is in flight and two are counted |
| TransportTheorems.LateExactly | send.go:120-128 | an ack is late exactly when its message was nacked before, or is under the cursor of a walk, or its connection had closed |
| TransportRefusal.RefusedMessageBlocks | send.go:120-128 | a message that `Encode` refuses (no type, on a live socket) and that is first among the nacked ones stays first in every continuation over any number of connections: nothing that was held gets acked, and no later peer sees anything |
| TransportRefusal.RefusedRound | reliable_send.go:87-134 | and from there the resend loop can always go round once more: token, connection, refused write, nack, close, and the same list is there again |
| TransportSafety.StepKeeps | reliable_send.go:87-134 | the inductive invariant behind these theorems is kept by every step of sender, walk, peer, network, ack reader and reconnect loop |
| TransportSafety.RunKeeps | reliable_send.go:43-49 | and holds after every run |
| TransportSafety.AckFindsDecoded | send.go:153-157 | an ack byte never finds the in-flight list empty, and its message has been decoded |
| TransportSafety.SendNacksKeeps | send.go:178-198 | a walk that no ack interrupts nacks everything in flight and keeps the invariant |
| TransportSafety.NackOneKeeps | send.go:183-189 | so does each step of a walk that acks interrupt: nacking the element under the cursor |
| TransportSafety.ClosingKeeps | send.go:190-198 | and its end, where what it did not reach is booked as dropped |
| TransportSafety.PopKeeps | send.go:148-166 | and an ack that is popped meanwhile |
| TransportSafety.RequeueKeeps | reliable_send.go:122-131 | the error branch of the resend loop keeps the invariant |
| TransportSafety.ConnectKeeps | reliable_send.go:96-117 | so does installing a new connection |
| TransportCode.Send.ReadAck | send.go:142-174 | the loop over one read of acks does to the fields what that many pop steps and one credit step do, or reports an unsynced stream and changes nothing |
| TransportCode.Send.SendNacks | send.go:178-198 | called by the ack reader, which pops nothing meanwhile, the method does to the fields what all steps of the walk do: everything in flight is nacked, oldest first, once, with one token |
| TransportCode.Send.SendNacksShared | send.go:178-198 | called by the sender, with any pops of the ack reader before, between and after its elements: each round does what the steps of the walk do, `e.Prev()` of a removed element is nil, and the fields end as the protocol says |
| TransportCode.Send.SendMessage | send.go:226-258 | the method does to the fields what the protocol steps do, in each of its outcomes: sent, waiting, refused with the walk that follows |
| TransportCode.Send.constructor | send.go:83-105 | window -1 means 1 and 0 the default of 20; nothing is in flight |
| TransportCode.ReliableSend.Ack | reliable_send.go:68-73 | one message less is outstanding |
| TransportCode.ReliableSend.Nack | reliable_send.go:75-81 | one message less is outstanding and it joins the nacked ones |
| TransportCode.RequeueRest | reliable_send.go:122-131 | the rest of an interrupted resend and what was nacked meanwhile end up in their original order |
| TransportCode.PopAllPops | send.go:148-166 | the acks of one read pop the oldest in-flight messages, as many as there are acks |
| Varint.EncodeDecodes | log.pb.go:1417-1425 | every number comes back from its varint |
| Varint.ShortestIsEncoding | log.pb.go:1417-1425 | a varint without superfluous bytes is the encoding of its value (Protocol Buffers Encoding, section "Base 128 Varints") |
| Varint.SizeOf | log.pb.go:1152-1161 | `sovLog` is the number of bytes that `encodeVarintLog` writes, for every number |
| Varint.Put | log.pb.go:1417-1425 | `encodeVarintLog` writes exactly the varint at the offset and leaves all other bytes alone |
| Varint.Get | log.pb.go:316-327 | the decoding loop consumes one varint, however long, ors its low bits into the variable, and fails exactly when the input ends first |
| Varint.ReadUvarint | varint.go:16-43 | the reader consumes exactly one varint and returns its value, below 2^64, or reports an overflow exactly when the last byte comes after the tenth or is a tenth above 1 |
| Varint.UvarintRoundTrip | varint.go:46-52 | `ReadUvarint` inverts `WriteUvarint` for every uint64, whatever bytes follow |
| Bits.ShiftOr | log.pb.go:323 | or-ing a shifted digit into an accumulator of any width adds it, modulo the width |
| Messages.ZigzagRoundTrip | log.pb.go:466-468 | the zigzag form of every int64 decodes to it (section "Signed Integers") |
| Messages.Int32RoundTrip | log.pb.go:728-735 | a sign-extended int32 or-ed into zero is itself again, negative ones included |
| WireFields.SkipsField | log.pb.go:959-1042 | `skipLog` returns exactly the length of every well-formed field, groups nested to any depth included (section "Groups") |
| WireFields.SkippedIsField | log.pb.go:959-1042 | conversely, what `skipLog` passes over within the input is one well-formed field, if the lengths read on the way are below 2^63 minus their positions |
| WireFields.SkippedExactly | log.pb.go:990-1005 | and that condition is exact: what is passed over is a well-formed field if and only if it holds |
| WireFields.SteadyReturns | log.pb.go:1007-1030 | under it `skipLog` returns, and moves forward |
| WireFields.DecodeForeigners | log.pb.go:852-871 | unknown fields with shortest tags are kept byte for byte, in order |
| WireFields.UnknownFieldsAreKept | log.pb.go:1362-1364 | known and unknown fields in any mixture: the outcome is that of decoding the known ones alone, with the unknown ones added unchanged and in order |
| WireFields.MixedDecodes | log.pb.go:852-871 | the same for the loop from any state on, with its errors |
| WireLengths.StuckExactly | log.pb.go:1007-1030 | the outcome `Stuck` means endless: exactly then the loop of `skipLog` over a group goes through any number of rounds or comes to a recursive call that does not return |
| WireLengths.CrashExactly | log.pb.go:1007-1030 | and the outcome `Crash` exactly that some number of rounds leads to a position before the input, or to a recursive call that panics |
| WireLengths.SkipReturnsExactly | log.pb.go:959-1042 | `skipLog` returns, with a length or an error, if and only if, on the way through groups, no position is negative, no field starts at position 0 or where one has started before, and the same holds of every nested field |
| WireLengths.GroupReturnsExactly | log.pb.go:1007-1030 | the same for its inner loop from any position on |
| WireLengths.ReturnsExactly | log.pb.go:826-871 | `Unmarshal` returns, with a message or an error, if and only if in every round the guards hold that the code lacks: no length takes the position to 2^63, those of `skipLog` hold, the length it finds moves the position forward, and what is embedded meets its own condition |
| WireLengths.InRangeReturns | log.pb.go:698-881 | in particular it returns if every length that is read, in known and in skipped fields, is below 2^63 minus its position |
| WireLengths.AttributeReturns | log.pb.go:391-604 | for attributes, with the guards of the interval in it, nothing is left open: `Unmarshal` returns if and only if they hold |
| WireLengths.MessageReturns | log.pb.go:698-881 | the same for messages, down to timestamp, attributes and tags |
| WireLengths.IntervalReturns | log.pb.go:309-390 | the same for intervals |
| WireLengths.TagReturns | log.pb.go:605-697 | the same for tags |
| WireLengths.HeaderReturns | log.pb.go:882-957 | the same for stream headers |
| WireLengths.UnknownBlobOutOfRange | log.pb.go:991-1005 | what a length of 2^63 or more in an unknown field does: a negative position panics, zero loops forever, and up to ten bytes are taken for the field otherwise |
| WireLengths.KnownBlobOutOfRange | log.pb.go:443-450 | in a known field it always panics |
| WireLengths.HangingMessage | log.pb.go:852-871 | the eleven bytes of field 7 with length -11 make `Unmarshal` of a message loop forever, whatever follows |
| WireLengths.HangingGroup | log.pb.go:1007-1030 | the same field inside a group hangs `skipLog` itself |
| WireLengths.CrashingMessage | log.pb.go:820-824 | a session of 2^63 bytes or more makes `Unmarshal` of a message panic |
| Wire.DecodeAll | log.pb.go:698-881 | any list of written fields is read back field by field, whatever follows |
| Wire.LittleEndianDecodes | log.pb.go:1399-1409 | eight bytes lowest first give back every 64-bit value |
| MessageRoundTrip.IntervalRoundTrip | log.pb.go:309-390 | `Unmarshal` of what `MarshalTo` writes for an interval is that interval |
| MessageRoundTrip.AttributeRoundTrip | log.pb.go:391-604 | the same for attributes of every value kind: int, string, bytes, nested interval, bool, fixed64 |
| MessageRoundTrip.TagRoundTrip | log.pb.go:605-697 | the same for tags |
| MessageRoundTrip.MessageRoundTrip | log.pb.go:698-881 | the same for whole messages: any number of attributes and tags, session, negative version, kept unknown fields |
| MessageRoundTrip.VersionOneDecode | decoder.go:101-103 | decoded into a message of version 1, as every decoder does, a message comes back exactly if its version is odd; otherwise its version is one higher |
| MessageRoundTrip.HeaderRoundTrip | log.pb.go:882-957 | the same for stream headers |
| Layout.SizeInterval | log.pb.go:1043-1053 | `Size` is the number of bytes written |
| Layout.SizeAttribute | log.pb.go:1054-1088 | `Size` is the number of bytes written, nested interval included; `sozLog` is the varint size of the zigzag form |
| Layout.SizeTag | log.pb.go:1089-1103 | `Size` is the number of bytes written |
| Layout.SizeMessage | log.pb.go:1104-1136 | `Size` is the number of bytes written, for every message that can be written |
| Layout.SizeHeader | log.pb.go:1137-1151 | `Size` is the number of bytes written |
| Layout.MessageLayout | log.pb.go:1305-1366 | the bytes of a message part by part; each nested length prefix is the length of what follows it |
| MarshalTo.MarshalInterval | log.pb.go:1175-1191 | in a buffer with room for `Size()` bytes exactly the bytes of the interval are written, at the given place, and nothing else changes |
| MarshalTo.MarshalAttribute | log.pb.go:1202-1263 | the same for attributes, each nested part behind its own length |
| MarshalTo.MarshalTag | log.pb.go:1274-1294 | the same for tags |
| MarshalTo.MarshalMessage | log.pb.go:1305-1367 | the same for messages; without timestamp or type it fails with the error of the missing field |
| MarshalTo.MarshalHeader | log.pb.go:1378-1398 | the same for stream headers |
| MarshalTo.MarshalNew | log.pb.go:1295-1304 | the size law: a buffer of exactly `Size()` bytes is filled completely |
| MarshalTo.PutFixed64 | log.pb.go:1399-1409 | eight bytes, lowest first, and nothing else |
| MarshalTo.Copy | log.pb.go:1214 | `copy` into the buffer writes these bytes there and nothing else |
| Unmarshal.Skip | log.pb.go:959-1042 | the positions and loops of `skipLog` compute the specification that the field lemmas are about, for every length: the endless loop is an outcome, found when a position comes again |
| Unmarshal.SkipUnknown | log.pb.go:852-871 | an unknown field is handed out from the shortest form of its tag to its end, or an error, the endless loop or the panic arises, as the specification says |
| Unmarshal.GetFixed64 | log.pb.go:560-575 | eight bytes, shifted and or-ed, are the little-endian value, or the input is too short |
| Unmarshal.UnmarshalInterval | log.pb.go:309-390 | the index loop over the cases computes exactly what the schema of the type says, on every slice and every starting value, endless loops and panics included |
| Unmarshal.UnmarshalAttribute | log.pb.go:391-604 | the same for attributes |
| Unmarshal.UnmarshalTag | log.pb.go:605-697 | the same for tags |
| Unmarshal.UnmarshalMessage | log.pb.go:698-881 | the same for messages, with their nested intervals, attributes and tags |
| Unmarshal.UnmarshalHeader | log.pb.go:882-957 | the same for stream headers |
| Frames.PrefixedReads | header.go:8-18 | a length and that many bytes are read back, whatever follows |
| Frames.FrameDecodes | decoder.go:72-112 | one encoded message decodes to itself with an odd version, and leaves what follows untouched |
| Frames.CutFrame | decoder.go:82-99 | a frame cut short is answered with a plain end-of-file until a byte of its body has arrived, and with an unexpected one after that |
| Frames.SequenceRoundTrip | decoder.go:60-69 | any sequence of messages comes back in order, and then the end of the stream |
| Frames.ReceivedUnchanged | decoder.go:101 | all of them unchanged exactly if all versions are odd |
| Frames.CutStream | decoder.go:72-112 | a stream cut after any number of bytes delivers exactly the messages whose frames are complete |
| Frames.FramesSnoc | encoder.go:22-56 | encoding one more message appends its frame |
| Frames.ProbeFinds | probe.go:23-41 | the header in front of a stream is found and taken off |
| Frames.StreamRoundTrip | stream_encoder.go:71-102 | header, messages and end of file come back, for every header and every invertible compression |
| Frames.HeaderlessRoundTrip | stream_decoder.go:20-48 | a native stream without a header comes back too: the probed byte is not lost |
| Frames.ReportCovers | encoder.go:55 | the reported count `Size() + 5` covers the frame exactly below 2^28 bytes |
| Frames.OrphanHeadBreaksNext | encoder.go:31-45 | when `MarshalTo` refuses a message, the head that `Encode` has written for it makes the next message undecodable, whatever the two are; the reader gets an error in its place |
| Frames.ItemsRun | encoder.go:22-56 | accepted and refused messages in any order: exactly the accepted ones before the first refused one are delivered, and the stream ends cleanly if and only if nothing was written behind that |
| Frames.ItemsRoundTrip | stream_encoder.go:71-102 | the same for a whole stream with header and compression |
| Frames.FramesAreItems | encoder.go:22-56 | without refused messages this is the sequence of frames |
| Frames.HangingFrame | decoder.go:72-112 | a frame whose message holds the field of length -11 stops the decoder forever |
| Frames.HugeFramePanics | decoder.go:82-99 | a frame head that claims 2^63 bytes or more makes it panic |
| Stream.Encoder.Encode | encoder.go:22-56 | the writer gets exactly one frame, whatever the pooled buffer held; a refused message leaves the head of its frame behind; after a write error the output is a prefix of the frame |
| Stream.WriteUvarint | varint.go:46-52 | the varint is written, or a prefix of it on an error |
| Stream.SnappyWriter.Write | compress.go:30-48 | forwarded and buffered bytes together are all bytes written, in order, and fewer than a chunk stay behind; when the writer behind fails, the whole buffer stays, also what that writer took |
| Stream.SnappyWriter.Flush | compress.go:50-58 | afterwards everything written has been forwarded; when the writer behind fails, the buffer is empty all the same and the rest is lost |
| Stream.SnappyWriter.Close | compress.go:60-62 | closing flushes, with the same error |
| Stream.StreamEncoder.WriteCustomHeader | stream_encoder.go:71-102 | the header goes out in front, uncompressed, and messages go into the compressor it names |
| Stream.StreamEncoder.Receive | stream_encoder.go:128-138 | one frame is written and the reported count added, or the head of a refused one is left; on an error the count stays, and the history tells what the output holds |
| Stream.StreamEncoder.ReadsBack | stream_encoder.go:128-138 | whatever an encoder received since its header: the reader at the other end gets header and messages up to the first refused one with something behind it, all accepted ones if there is none |
| Stream.Reader.ReadPrefixed | header.go:6-24 | length and body are read by way of a pooled buffer whose stale contents never show |
| Stream.BytePeekReader.Read | peek.go:12-23 | what is delivered and what remains are together what remained before, the probed byte first |
| Stream.Decoder.Probe | decoder.go:32-57 | the first byte decides the format and stays to be read |
| Stream.Decoder.Native | decoder.go:72-112 | the method decodes and consumes what the frame specification says, in every case |
| Stream.Decoder.Decode | decoder.go:60-69 | the same behind the probe, which runs once |
| Stream.StreamDecoder.Probe | stream_decoder.go:20-35 | header, its defaults and errors are those of the specification, and the decoder is set up on the decompressed rest |
| Stream.StreamDecoder.Generate | stream_decoder.go:39-48 | each call delivers the next message of the stream, or the error that ends it |
| Stream.Glue | glue.go:9-34 | everything the stream holds arrives in order, and only a clean end of file is no error |
| Utf8.FullDecides | scanner/scanner.go:230-287 | once the buffered bytes are full, or all there are, more bytes would not change the character |
| Utf8.EncodeDecoded | kv.go:177-191 | a character that is read and written again has the same bytes exactly if its encoding was legal |
| Utf8.RewrittenIs | kv.go:197-208 | a text that is read and written character by character is itself again exactly if it is legal UTF-8, and longer otherwise |
| Tokens.LinesAndColumns | scanner/scanner.go:288-302 | the line counts the newlines read, the column the characters since the last one |
| Tokens.EofToken | scanner/scanner.go:550-646 | only the end of the source scans as `EOF` |
| Scanner.Scanner.Refill | scanner/scanner.go:240-252 | the window slides over the source: unread bytes move to the front, new ones follow, the sentinel stands behind them, and nothing unread changes |
| Scanner.Scanner.Fill | scanner/scanner.go:232-271 | however the reader splits the source, the loop ends with bytes that decide the next character or at the end of the source, and the head of a token in progress is saved |
| Scanner.Scanner.NextRune | scanner/scanner.go:227-305 | the next character, its width, line, column and error count are those of a plain scan of the whole source |
| Scanner.Scanner.Peek | scanner/scanner.go:324-333 | the look-ahead of the plain scan, which a byte order mark at the beginning is not part of; nothing changes |
| Scanner.Scanner.Next | scanner/scanner.go:313-319 | that character is returned and passed |
| Scanner.Scanner.ScanNumber | scanner/scanner.go:403-450 | decimal, octal, hexadecimal and floating forms end where the plain scan says, with its errors |
| Scanner.Scanner.ScanEscape | scanner/scanner.go:463-481 | so do escapes of every form |
| Scanner.Scanner.ScanString | scanner/scanner.go:483-498 | so do strings, with their count of characters |
| Scanner.Scanner.ScanComment | scanner/scanner.go:517-543 | so do comments of both forms |
| Scanner.Scanner.Scan | scanner/scanner.go:550-646 | token, position and errors are those of the plain scan, whatever the settings, white space and skipped comments |
| Scanner.Scanner.Pos | scanner/scanner.go:650-668 | offset, line and column of the look-ahead |
| Scanner.Scanner.TokenText | scanner/scanner.go:672-693 | the text is the slice of the source from the token's offset to `Pos().Offset`, however many refills it spans and however often it is asked |
| Symbols.Table.Append | symbols.go:21-32 | names are added in order; it stops, as the source panics, exactly if a name comes twice |
| Symbols.Table.FromIndex | symbols.go:34-40 | the name of an index, a made-up name beyond the table, and a panic exactly at the table's length |
| Symbols.Table.FindIndex | symbols.go:42-48 | the index of a name in the table |
| Symbols.NumberRoundTrip | symbols.go:34-48 | every index in the table comes back from its name; the lookup fails exactly at the table's length |
| Decimals.FormatSubsecond | log.go:84-104 | nine digits without their trailing zeros; a panic instead of an empty string |
| Decimals.SubsecondRoundTrip | kv.go:335-353 | nanoseconds come back from their digits exactly if they are 1 to 999999999, or below 2^31 and not divisible by ten |
| Decimals.DecimalReads | log.go:206 | a decimal notation reads as its number and starts with zero only for zero |
| KvText.Buffer.StringInto | log.go:282-306 | the buffer gets the printed form, or one of the panics happens |
| KvText.Buffer.TagsInto | log.go:309-333 | the tags with separators only behind valued ones |
| KvText.Buffer.PairsInto | log.go:198-230 | the attributes, the first kind of value that is set |
| KvTokens.NameToken | scanner/scanner.go:355-362 | a name up to a separator is one identifier token |
| KvTokens.DottedRead | kv.go:302-315 | a dotted name is read back as a whole |
| KvTokens.StringToken | kv.go:373-376 | a printed string is read back exactly if it holds no quote and no newline and no unpaired backslash at its end, or, at the end of the source, no quote and no newline |
| KvTokens.IntParses | kv.go:354-360 | a nonnegative int64 comes back from its decimal notation |
| KvTokens.IntervalParses | kv.go:328-353 | an interval below 2^63 seconds comes back exactly if its nanoseconds do |
| KvRoundTrip.KeyReads | log.go:460-470 | a key by number or a dotted name without a number is read back as the same key |
| KvRoundTrip.ValueReads | kv.go:327-382 | a printed value is read as itself: nonnegative ints, clean strings, intervals |
| KvRoundTrip.PairsRead | kv.go:290-390 | a list of pairs is read back up to the end of its line |
| KvRoundTrip.TagsRead | kv.go:211-287 | a list of tags is read back up to its bracket |
| KvMessages.UntilSpaceReads | kv.go:197-208 | a session without spaces is read back exactly if it is legal UTF-8 |
| KvMessages.EndlessWithoutSpace | kv.go:177-208 | the loops that look for a space end exactly if there is one |
| KvMessages.MessageReads | kv.go:117-393 | a printed message is read up to the end of its line, and is itself again exactly if its session is legal UTF-8 |
| KvMessages.LinesRead | kv.go:76-93 | newline-joined messages are read back in order, and then the end of the source; they are the same messages exactly if all sessions are legal UTF-8 |
| KvMessages.LinesReadBack | kv.go:76-93 | whatever the sessions: each message comes back with its session rewritten character by character |
| KvMessages.TimestampHangs | kv.go:177-191 | on a source that ends inside a timestamp `Generate` never returns |
| KvMessages.SessionHangs | kv.go:197-208 | the same on a source that ends inside a session |
| KvMessages.HeadHangs | kv.go:143-209 | reading the head of a line never ends if and only if no space follows the `@` of the timestamp or the backslash of the session |
| KvMessages.StuckExactly | kv.go:117-393 | `Generate` never returns, for every source and place, if and only if one of its attempts comes to such a head |
| KvMessages.NegativeIsBad | kv.go:327-382 | a printed negative integer is no value for the parser |
| KvMessages.BareTakesNextLine | kv.go:45-74 | with `Bare` set, the line behind a message is taken as bare text, even if it is a message |
| KvMessages.BareExactly | kv.go:45-74 | printed messages come back, with `Bare` set or not, if and only if all sessions are legal UTF-8 and, with `Bare` set, there is at most one message |
| KvParser.KvParser.SkipToStart | kv.go:76-93 | the loop ends behind the next `>` at a line start or at the end of the source |
| KvParser.KvParser.SkipToNewline | kv.go:95-103 | the loop ends behind the next newline token |
| KvParser.KvParser.Tags | kv.go:211-287 | the loop over tags on the buffered scanner computes what the specification over the whole source says |
| KvParser.KvParser.PairValue | kv.go:327-382 | so do the cases of a value, with their panics |
| KvParser.KvParser.Pairs | kv.go:290-390 | so does the loop over pairs |
| KvParser.KvParser.Head | kv.go:143-209 | so do flag, timestamp and session, with their endless loops |
| KvParser.KvParser.ReadBare | kv.go:45-74 | so does the reader of bare lines |
| KvParser.KvParser.Generate | kv.go:117-393 | so does `Generate`, restarts included: message, end, endless loop or panic, and the place in the source |
| Spool.InsertNewest | plugins/spool/spool.go:182-183 | renaming to a newer label adds a file at the end of the listing |
| Spool.InsertClash | plugins/spool/spool.go:182-183 | renaming costs a file exactly if the name exists |
| Spool.Spool.PruneOldFiles | plugins/spool/spool.go:108-149 | at most one file goes, the oldest, exactly if there are more than `MaxFiles` |
| Spool.Spool.OpenCurrent | plugins/spool/spool.go:41-73 | the counters restart with the size of the file that is opened, and a new file gets its header |
| Spool.Spool.Rotate | plugins/spool/spool.go:178-197 | nothing accepted is lost but what pruning removes; the number of rotated files grows by one up to `MaxFiles` and not beyond |
| Spool.Spool.Receive | plugins/spool/spool.go:151-167 | the message is appended to the history, accepted or refused, which stays on disk and in the encoder up to the pruned prefix, with rotation at the size limit |
| Spool.Spool.Reopen | plugins/spool/spool.go:75-98 | closing and reopening the spool loses nothing but what pruning removes |
| Spool.Spool.Flush | plugins/spool/spool.go:169-171 | everything accepted for the current file is on disk |
| Spool.Spool.ReadsBack | plugins/spool/spool.go:199-237 | the files of a flushed spool hold a suffix of all it ever received; they are read up to the first refused message with something behind it in its file, and to the end, with all accepted messages in order, if and only if there is none |
| Spool.Spool.FreshFileIsBounded | plugins/spool/spool.go:159-164 | in a file that began empty the frames before the last message stay below `PerFileSize`, if each message is below 2^28 bytes; what refused messages left comes on top, uncounted |
| Spool.FilesReadBack | plugins/spool/spool.go:249-280 | files with header and compressed contents, one after the other: through one `StreamDecoder` each they deliver what is in front of the first refused message with something behind it, and end cleanly if and only if there is none |
| Spool.RefusalEndsReading | plugins/spool/spool.go:151-167 | after a refused message with anything behind it in its file, nothing is read of what follows, in this file and in all later ones |
| Spool.SpoolGenerator.Generate | plugins/spool/spool.go:249-280 | each call delivers the next message of the files, each opened by its own `StreamDecoder`; after the last one the generator answers end-of-file forever |
| Lines.LinesTile | plugins/file/file.go:73-86 | the delivered lines tile the file from the offset on, each ends with its only newline, and behind them no newline is left |
| Lines.NextIsBoundary | plugins/file/file.go:24-26 | `Line.Next` is the boundary right after the line |
| Lines.RestartDelivers | plugins/file/file.go:53-89 | a restart at the boundary, also of a grown file, delivers exactly the remaining complete lines |
| Lines.NothingLostOrRepeated | plugins/file/file.go:53-89 | over any number of stops, restarts and growth every line is delivered once, in order |
| Lines.File.ReadOnce | plugins/file/file.go:53-89 | the reader sends the complete lines from its offset, or a prefix of them when it is told to die |
| Lines.File.Generate | plugins/file/file.go:207-234 | each call takes the next line, and the remembered offset is the boundary behind it |
| Monitor.Monitor.OpenFiles | plugins/file/monitor.go:50-109 | each path starts at its stored offset if the entry is valid, and at zero otherwise; a path that is given again gets one more reader |
| Monitor.Monitor.Deliver | plugins/file/monitor.go:172-193 | the offset of the line's path moves behind it; other paths stay, and other readers of the path keep what they have to deliver |
| Monitor.Monitor.Run | plugins/file/monitor.go:159-198 | for any interleaving and any stop each reader has delivered the first lines of its path, and each offset is the boundary behind those of one reader of the path |
| Monitor.Monitor.FlushOffsets | plugins/file/monitor.go:140-152 | every file that is there is stored, under its clean name, with its identity and the offset of one of the paths that name it; nothing else changes |
| Monitor.Monitor.ResumesWhereItStopped | plugins/file/monitor.go:60-68 | after a stored session, what a reader has delivered and what the next session delivers from its path, also on a grown file, are all lines exactly once, if and only if the stored offset is behind this reader's lines |
| Monitor.Monitor.OnlyReaderLeads | plugins/file/monitor.go:172-193 | which it is for a path that was given once |
| Monitor.OneOffsetPerFile | plugins/file/offsetdb.go:28-74 | the stored offset is that of the path itself if the paths with the same clean name agree; of two spellings of one file with different offsets one loses its place |
| SyslogFormat.ElementRoundTrip | plugins/syslog/syslog.go:445-529 | one element with parameters, escaped as in section 6.3.3 of RFC 5424, is read back as its exact name and pairs, whatever bytes the values hold |
| SyslogFormat.ValueReads | plugins/syslog/syslog.go:498-524 | a value is read back from its escaped form |
| SyslogFormat.BareElementIsMisread | plugins/syslog/syslog.go:450-471 | an element without parameters is not recognised: its bracket joins the name and what follows is read as parameters |
| SyslogFormat.CountedIsExact | plugins/syslog/syslog.go:284-299 | a counted message whose head is shorter than the count takes exactly the counted bytes if and only if its one read delivers them, and fewer otherwise; one whose head is not takes more, up to a newline |
| SyslogFormat.CountTooSmall | plugins/syslog/syslog.go:284-299 | messages for the second case: with a count that the head uses up, the text is read to the next newline, however far that is |
| SyslogFormat.PanickingPriorities | plugins/syslog/syslog.go:311-321 | the tables are overrun exactly by negative priorities, 8, and 192 to 199 |
| SyslogFormat.PanicsExactly | plugins/syslog/syslog.go:167-331 | `parseSyslog` panics if and only if the tag has its brackets reversed, or the structured data begins with a space, or the message is complete and its priority is one of those |
| SyslogFormat.UserEmergencyPanics | plugins/syslog/syslog.go:311-321 | every complete message of the old form with priority 8 panics |
| SyslogFormat.ReversedTagPanics | plugins/syslog/syslog.go:261-276 | every one with the tag `][` does |
| SyslogFormat.SpaceForDataPanics | plugins/syslog/syslog.go:445-457 | structured data that begins with a space does |
| SyslogFormat.PlainReads | plugins/syslog/syslog.go:242-280 | a head of the old form is read back as its priority, time, host, tag and process number |
| SyslogConn.Syslog.ReadStamp | plugins/syslog/syslog.go:204-240 | the first fitting layout is taken, and the count falls by the bytes consumed |
| SyslogConn.Syslog.ReadPlain | plugins/syslog/syslog.go:242-280 | head of the old form; the count falls by the bytes consumed |
| SyslogConn.Syslog.ReadStructured | plugins/syslog/syslog.go:335-529 | head of the new form; the count falls by the bytes consumed |
| SyslogConn.Syslog.ReadParams | plugins/syslog/syslog.go:459-527 | the nested loops read the parameters of the specification; the count falls by the bytes consumed |
| SyslogConn.Syslog.ReadData | plugins/syslog/syslog.go:428-529 | a dash or one element; the count falls by the bytes consumed |
| SyslogConn.Syslog.ParseSyslog | plugins/syslog/syslog.go:167-331 | the message and the rest of the specification; in newline mode the result is minus the bytes consumed, on every path |
| SyslogConn.Syslog.RunConn | plugins/syslog/syslog.go:104-140 | messages and `TotalBytes` of a whole connection are those of the specification modulo 2^64, whatever its reads deliver |
| SyslogConn.CountsWhatItConsumes | plugins/syslog/syslog.go:127-131 | in newline mode the counter grows by exactly the bytes that the messages took |

## Left out

- TransportTheorems.NacksAreNotStranded: assumes `OnClosed` installed before any failure; in the gap after `Connect`
  (reliable_send.go:97-109) a failure would emit no token.
- TransportTheorems.CreditsAreConserved: assumes a single sender; with several the test `available == 0` does not bound
  the window.
- TransportCode.Send.SendNacksShared: `readAck` and `sendNacks` race on the in-flight list without a lock; the model
  interleaves whole list operations and says nothing about torn ones.
- Shutdown of `ReliableSend` (`Dying`, `Close`), its flush channel, sleeps and the retry timing of `Connect`.
- TransportRefusal.RefusedMessageBlocks: for a missing type. Timestamps are taken to be there; without one `Less` would
  dereference nil as soon as two messages are sorted.
- `sort.Sort` is modelled as insertion; `MessageOrder.SortIsUnique` makes the algorithm irrelevant.
- Unmarshal.SkipUnknown: unknown fields are kept unchanged when their tags are shortest; longer tags are cut as the
  source cuts them.
- `Equal`, `VerboseEqual`, `GoString`, extensions and text forms of the generated code.
- The timestamp type of the tai64n package is modelled as an interval: two required varints.
- Frames.StreamRoundTrip: for messages below 2^63 bytes, the length limit of Go slices; a decoder that allocates for a
  length beyond memory is not modelled, and a frame longer than the input simply ends early.
- Stream.StreamEncoder.WriteCustomHeader: for the three known compressions; the source panics on others. The flush
  timer and `OpenFile` of the encoder are not modelled.
- Stream.Decoder.Decode: JSON and bare streams are recognised but not decoded; key=value streams have their own parser.
- Aliasing of pooled buffers by decoded messages: values are copied in the model, as the generated code does.
- Scanner.Scanner.Scan: for settings in which no identifier goes on at the end of the source; with others the source
  loops there. Read errors other than end-of-file, the `Error` callback and file names are not modelled.
- KvMessages.MessageReads: floats, booleans and byte values are read back as other kinds or not at all; the domain is
  given by `KvMessages.Shaped`. That nothing outside it comes back is shown for sessions, strings, intervals and
  negative integers one by one, not for whole messages, where the parser goes on at a later line.
- KvParser.KvParser.Generate: an endless loop is an outcome; the clock is one reading for each call.
- `subsecond`'s panic and others are outcomes (`None`), not recoverable states.
- Spool.Spool.Receive: write and sync errors, files in the directory that are no labels, and a crash that loses the
  unflushed chunk. `OnRotate` is not called. What several sessions append to one file is one compressed stream.
- Spool.SpoolGenerator.Generate: reads the files as they were when it was opened.
- Monitor.Monitor.OpenFiles: a database that cannot be read. `readFollow` depends on file system events.
- SyslogConn.Syslog.ParseSyslog: trimming of the text and the names of facilities and severities; a count beyond memory,
  for which `make` panics.
- HTTP, databases, metrics and other plugins; the router; JSON; reflection-based `Add`.
