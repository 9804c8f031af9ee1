# SuperShare in Dafny

SuperShare lets one machine's mouse, keyboard and clipboard be used on others. This project models its state
machines and proves what they guarantee over unbounded runs. Coordinates are integers: movement and screen sizes are
integral and below 2^24, where the 32-bit floats of the wire are exact (`Float32.IntRoundTrip`). Times are natural
numbers.

| file | models |
|---|---|
| `Capture.dfy` | the grab callback of the server: class `CallbackState` and the step function it implements |
| `CaptureRuns.dfy` | runs of the callback: partition of events, session ends, shape of the output |
| `CaptureDrift.dfy` | the logical cursor against the real one |
| `ClientCursor.dfy` | the client's cursor: class `ClientVirtualCursor`, closed form, when it asks to leave |
| `ServerClientSession.dfy`, `ClosedLoop.dfy` | server and client together over a remote session; the loop closed by the client's requests |
| `Bytes.dfy`, `Utf8.dfy`, `Float32.dfy` | little-endian integers; UTF-8 and lossy decoding; integers as 32-bit floats |
| `Protocol.dfy`, `Framing.dfy` | messages, bincode payloads, frames; class `ByteStream` with its readers and writer |
| `Forwarding.dfy` | captured events as messages and bytes, up to the client's cursor |
| `ClipboardSync.dfy`, `ClipboardTransfers.dfy` | chunked transfers, classes `ClipboardReassembler` and `ClipboardReceiver`; their guarantees |
| `ClipboardMonitor.dfy`, `EchoNetwork.dfy` | the polling monitor; a network of nodes with monitors |
| `PinManager.dfy` | PIN rotation and lockout: class `PinManager`, runs with concurrent attempts |
| `Pairing.dfy` | pairing connections as a system sharing one PIN manager |
| `PairingAgreement.dfy` | what both ends may conclude, and what is refused |
| `PairingLimits.dfy`, `PairingPins.dfy` | what holds against clients of any behaviour; which PINs are in force and signed under |
| `Layout.dfy`, `VirtualCursor.dfy` | class `CoordinateSystem`; class `VirtualCursor` and its boundary log |
| `ConnectionRegistry.dfy` | the client map, the notification queue and the consumer that drives `has_client` |

An object the source updates in place is a class here; each of its methods is specified by a function on the object's
value, and the properties are lemmas about that function and about runs of it. Concurrency is interleaving: a run is
a list of actions by any of the parties, in any order.

Where the source's comments and its code disagree, the code is followed:

- `warp_capture.rs:139-142` says that leaving remote mode puts the logical cursor back in sync with the real one. The
  crossing event is counted in the frozen point (line 197) but suppressed (line 214). `CaptureDrift.ResyncCounterexample`
  is a run that ends 19 pixels off, `CaptureDrift.AlwaysInSyncIff` and `CaptureDrift.ResyncIff` say exactly which runs
  and sessions stay in sync, and `CaptureDrift.DriftBound` bounds the drift in every run.
- `docs/bugs-and-fixes.md` says that entering at x = 6 removes the bounce-back. `ClientCursor.BounceFreeIff` shows that
  this is so exactly for clients at least 7 pixels wide.
- `sync.rs:21` says that a text fits in a single message. A text of more than 16 MiB less 16 bytes does not fit a frame:
  the sender writes it, the receiver refuses it and stops reading, and everything sent after it on that channel is lost,
  input included. `ClipboardTransfers.WireExact` says what arrives of any list of contents, and `Framing.PrefixExact`
  what arrives of any messages.

Some guarantees hold under a condition only, and the condition is proved to be exact:

- The shown client list agrees with the client map if and only if no device reconnects before its last handler has said
  farewell (`ConnectionRegistry.ReconnectIff`, `ConnectionRegistry.AgreementIff`).
- A poll of the clipboard breaks the account of reports if and only if it echoes: the last remote write's signal is
  still queued and carries the hash of what the poll reports (`EchoNetwork.PollTipsIffEcho`).
- A PIN's time to live is looked at when an attempt takes the PIN, not when its confirmation is read. Once a confirmation
  has been accepted, a certificate is signed however old the PIN has become (`PairingLimits.SigningIgnoresAge`).
- A session is ended on request only after the user came back in that session if and only if, when it opened, no
  BoundaryLeave was on its way and no message that will make the client send one (`ClosedLoop.EndsOnlyByUserIff`).
- BoundaryEnter and deltas travel on different channels. When deltas overtake the entry, the client also asks to leave if
  those move back from wherever its cursor had been left (`ServerClientSession.LeaveIffOvertaken`).

zstd and blake3 are function parameters (`ClipboardSync.Foreign`); of zstd only that it decompresses what it
compressed is used, of blake3 nothing. SPAKE2, HKDF and ChaCha20-Poly1305 are ideal terms (`Pairing.KeyOf`,
`Pairing.Sealed`). Fresh PINs, clock readings, faults of the connection and clipboard contents are inputs of the
actions.

## Model

| member | source | states |
|---|---|---|
| Capture.CallbackState.constructor | crates/ss-input/src/warp_capture.rs:106-120 | a fresh callback: local, logical cursor at the centre, nothing sent |
| Capture.CallbackState.LeaveRemoteIfDue | crates/ss-input/src/warp_capture.rs:135-150 | an exit request is consumed by every event; it, or a lost client, ends remote mode and restores the frozen point |
| Capture.CallbackState.TrackMove | crates/ss-input/src/warp_capture.rs:160-174 | delta of consecutive reports, zero for the first one, and the clamped logical position |
| Capture.CallbackState.EnterRemote | crates/ss-input/src/warp_capture.rs:196-205 | freezes the logical position and announces the entry at x = 6 |
| Capture.CallbackState.SendButton | crates/ss-input/src/warp_capture.rs:220-247 | only the three buttons of the protocol are forwarded |
| Capture.CallbackState.OnEvent | crates/ss-input/src/warp_capture.rs:128-279 | the whole new state and the pass-through decision of one callback, for every event kind and mode |
| CaptureRuns.StepPartition | crates/ss-input/src/warp_capture.rs:176-218 | a passed event emits nothing; an event is suppressed iff the callback ends remote, needs a client, and emits one message unless it carries nothing |
| CaptureRuns.ForwardedFaithfully | crates/ss-input/src/warp_capture.rs:220-277 | a forwarded button, key or wheel message reads back as the very event that was suppressed |
| CaptureRuns.RunPartition | crates/ss-input/src/warp_capture.rs:176-277 | over any run, the emissions are as many as the suppressed events that carried something |
| CaptureRuns.NoClientNoSuppression | crates/ss-input/src/warp_capture.rs:135-150 | from the moment the client is gone no event is suppressed and nothing is sent until a client returns |
| CaptureRuns.FirstSession | crates/ss-input/src/warp_capture.rs:188-218 | with reports on the screen, the first session begins exactly at the first report on the last column while a client is there; every event before it is passed on |
| CaptureRuns.SessionEndAttribution | crates/ss-input/src/warp_capture.rs:135-152 | every session ends because the client was gone at that event or because an exit was requested after that session's own crossing |
| CaptureRuns.OutputTelescopes | crates/ss-input/src/warp_capture.rs:160-214 | the output of any run is a list of blocks, each an entry followed by remote input, whose deltas sum to last report minus entry report of the matching session |
| CaptureRuns.BlocksWithinScreen | crates/ss-input/src/warp_capture.rs:156-174 | with reports on the screen, no block moves the client by more than one server screen |
| CaptureDrift.DriftBound | crates/ss-input/src/warp_capture.rs:138-218 | in every run, logical (or frozen) and real cursor differ by at most the movement of the crossing events so far, on both axes |
| CaptureDrift.InSyncBeforeFirstCrossing | crates/ss-input/src/warp_capture.rs:72-77 | before the first crossing the logical cursor is exactly the real one |
| CaptureDrift.SuppressedIff | crates/ss-input/src/warp_capture.rs:135-218 | in every run, an event is suppressed iff a client is there and the session goes on unasked to end, or the event is a report by which the real cursor, offset by the drift, reaches the last column |
| CaptureDrift.CrossingWithinBudget | crates/ss-input/src/warp_capture.rs:193-218 | a later session begins where the real cursor would reach the last column, give or take the movement of the crossings before |
| CaptureDrift.AlwaysInSyncIff | crates/ss-input/src/warp_capture.rs:138-218 | from any point in sync, the cursors agree at every point of a run iff every crossing's movement was absorbed at the screen's edges |
| CaptureDrift.ResyncIff | crates/ss-input/src/warp_capture.rs:138-144 | a session entered in sync, even by the event that ended the one before, restores the real position iff its crossing movement was absorbed |
| CaptureDrift.ResyncCounterexample | crates/ss-input/src/warp_capture.rs:139-142 | a run after which the restored cursor is 19 pixels from the real one |
| ClientCursor.ClientVirtualCursor.constructor | src/main.rs:652-653 | the client's cursor starts at the centre of its screen |
| ClientCursor.ClientVirtualCursor.OnMouseDelta | src/main.rs:672-692 | new position after a delta, and whether it hit the left edge |
| ClientCursor.ClientVirtualCursor.OnBoundaryEnter | src/main.rs:797-810 | the cursor goes to the entry x and the vertical centre |
| ClientCursor.ClosedForm | src/main.rs:672-692 | from any start, with no left hit, x is the least of start + S_n and width - 1 + S_n - S_k over 1 <= k <= n; the start is 6 after an entry |
| ClientCursor.LeaveIff | src/main.rs:680-709 | from any start, the client asks to leave iff a prefix sums to minus the start or less, or a later run of deltas to -(width - 1) or less |
| ClientCursor.CursorWalks | src/main.rs:672-692 | over any deltas, hits included, x and y are walks between the screen's edges, each driven by its own component |
| ClientCursor.LeavesAtWall | src/main.rs:680-709 | each delta asks to leave iff that walk would step to 0 or beyond |
| ClientCursor.BounceFreeIff | docs/bugs-and-fixes.md:47-53 | no session bounces back iff the client is at least 7 pixels wide |
| ServerClientSession.SessionFollowsReports | src/main.rs:246-260 | delivered in order, a session's messages move the client exactly as the differences of the server's reports |
| ServerClientSession.LeaveIffMovedBack | crates/ss-input/src/warp_capture.rs:155-205 | a client of any width asks to leave iff the reports moved back by 6 from the entry, or by its width less one from a later report |
| ServerClientSession.SessionWalks | src/main.rs:672-692 | over a session the client's cursor walks from (6, half the height) by the differences of the server's reports |
| ServerClientSession.NoBounceBack | src/main.rs:669-709 | the action at which the client first asks to leave is a report at least 6 left of an earlier one in that session |
| ServerClientSession.LeaveIffOvertaken | src/main.rs:229-260 | with the entry arriving after any part of its session's deltas, the exact condition on the reports for the client to ask to leave |
| ClosedLoop.EndsOnlyByUserIff | src/main.rs:292-299 | in every order of input, messages and requests, a session is ended on request only after the user came back in it, iff nothing stale was on its way when it opened |
| Float32.ValueOfInt | crates/ss-input/src/warp_capture.rs:178-182 | the bit pattern of an integer below 2^24 in magnitude has that integer's value as an IEEE 754 binary32 |
| Float32.IntRoundTrip | crates/ss-input/src/warp_capture.rs:178-182 | every such integer is read back from its pattern |
| Forwarding.MessageRoundTrip | crates/ss-input/src/warp_capture.rs:318-353 | what the client understands of a forwarded event's message is that event |
| Forwarding.MessageValues | crates/ss-input/src/warp_capture.rs:318-353 | each field of the message has the number the event has, in its own place; the target screen is 1 |
| Forwarding.ReadBackCut | src/main.rs:225-276 | whatever part of the bytes arrives, the client gets exactly the events wholly in it, in order |
| Forwarding.OutputSurvives | crates/ss-input/src/warp_capture.rs:155-277 | on screens below 2^24 pixels a side, the output of any run of the callback is read back unchanged from its bytes |
| Forwarding.SessionOverTheWire | src/main.rs:229-276 | through floats, payloads, frames and both channels: with all data bytes the client asks to leave iff the reports moved back, with a part of them only then |
| Utf8.ValidIff | crates/ss-clipboard/src/sync.rs:137-138 | bytes are well-formed iff they are the RFC 3629 encodings of some list of scalar values |
| Utf8.LossyKeepsValid | crates/ss-clipboard/src/sync.rs:137-138 | lossy decoding keeps every well-formed text |
| Utf8.LossyIsValid | crates/ss-clipboard/src/sync.rs:137-138 | lossy decoding always yields well-formed UTF-8 |
| Utf8.BadLengthMaximal | crates/ss-clipboard/src/sync.rs:137-138 | each replacement character stands for a maximal start of a character, or for one byte that starts none |
| Protocol.DecodeEncode | crates/ss-core/src/protocol.rs:228-235 | every message survives its payload encoding |
| Protocol.DecodeIff | crates/ss-core/src/protocol.rs:233-235 | bytes decode to a message iff they start with its encoding |
| Protocol.EncodeIsDeclared | crates/ss-core/src/protocol.rs:103-199 | a payload is the number of the variant and the fields in the order in which they are declared, numbers little-endian, lengths in eight bytes |
| Protocol.DecodeSize | crates/ss-core/src/protocol.rs:233-235 | no message is decoded from fewer bytes than its encoding takes |
| Protocol.DecodeTruncated | crates/ss-core/src/protocol.rs:228-235 | a payload with any part of its end missing decodes to no message |
| Protocol.TypeBytesDistinct | crates/ss-core/src/protocol.rs:33-82 | each message kind has its own type byte, and all are accepted on reading |
| Protocol.TypeFollowsVariant | crates/ss-core/src/protocol.rs:33-53 | type bytes count from 1 in the order of the variants, except that MouseDelta's is 14 |
| Protocol.ToBytes | crates/ss-core/src/protocol.rs:246-254 | magic, type, 32-bit length and payload, in that order |
| Framing.ByteStream.ReadFrame | crates/ss-network/src/framing.rs:6-44 | result and unread bytes of one read, for every input: clean end, each error, or a message |
| Framing.ByteStream.WriteFrame | crates/ss-network/src/framing.rs:47-60 | appends exactly one frame |
| Framing.ByteStream.ReadMessages | crates/ss-network/src/server.rs:395-410 | the receive loop returns all messages before the first end or error |
| Framing.ReadWritten | crates/ss-network/src/framing.rs:6-60 | a written frame is read back whatever follows it |
| Framing.ReadableIffFits | crates/ss-network/src/framing.rs:27-42 | a written message is recovered iff its payload is within 16 MiB |
| Framing.AcceptedIff | crates/ss-network/src/framing.rs:6-44 | of any bytes at all, a reader accepts a message iff they are a frame of some known type whose payload of at most 16 MiB decodes to it |
| Framing.WrittenIsFrame | crates/ss-network/src/framing.rs:47-60 | what is written is such a frame, of the message's own type and payload |
| Framing.RefusedIff | crates/ss-network/src/framing.rs:20-43 | each refusal, in the order of the checks, and what it leaves unread |
| Framing.PrefixExact | crates/ss-network/src/framing.rs:8-43 | whatever is written and wherever it is cut: exactly the messages wholly before the cut and before the first over-long one; then a clean end if less than a header is left, otherwise the error that says why |
| ClipboardSync.PrepareTransfer | crates/ss-clipboard/src/sync.rs:17-71 | refuses exactly the images over 10 * 1024 * 1024 bytes compressed, otherwise yields the transfer's messages |
| ClipboardSync.SortSorts | crates/ss-clipboard/src/sync.rs:107-109 | sorting by sequence number orders and permutes the chunks |
| ClipboardSync.SortStable | crates/ss-clipboard/src/sync.rs:107-109 | chunks with equal sequence numbers keep their order |
| ClipboardSync.ClipboardReassembler.constructor | crates/ss-clipboard/src/sync.rs:88-96 | an empty assembly for the announced size and dimensions |
| ClipboardSync.ClipboardReassembler.AddChunk | crates/ss-clipboard/src/sync.rs:99-103 | keeps the chunk, counts its bytes in 32 bits, and says whether the announced size is reached |
| ClipboardSync.ClipboardReassembler.Finished | crates/ss-clipboard/src/sync.rs:106-124 | sorts, joins, decompresses and checks the hash, or says which failed |
| ClipboardSync.ClipboardReceiver.HandleClipboardMessage | crates/ss-clipboard/src/sync.rs:129-186 | new pending assembly and completed content for every message kind |
| ClipboardTransfers.SplitJoins | crates/ss-clipboard/src/sync.rs:53-61 | chunks are consecutive, non-empty, at most 64 KiB, and join to the data |
| ClipboardTransfers.MessageCount | crates/ss-clipboard/src/sync.rs:43-65 | an image takes one message per 64 KiB of its compressed form, begun or full, and two more |
| ClipboardTransfers.ReassemblyAnyOrder | crates/ss-clipboard/src/sync.rs:106-183 | from any prior state, an image's chunks in any order, with texts and messages of other kinds interleaved, yield the image exactly at the end message and only texts before |
| ClipboardTransfers.CompletionExact | crates/ss-clipboard/src/sync.rs:99-103 | in any arrival order the k-th chunk completes the transfer iff it is the last; the byte count never wraps and ends at the announced size |
| ClipboardTransfers.CompleteIffReached | crates/ss-clipboard/src/sync.rs:99-103 | an assembly is complete iff the chunks in it, from whomever, reach the announced length |
| ClipboardTransfers.ReceivedWraps | crates/ss-clipboard/src/sync.rs:99-103 | the byte counter is the length of what came in, modulo 2^32 |
| ClipboardTransfers.NoBeginNoImage | crates/ss-clipboard/src/sync.rs:146-183 | chunks and ends that no begin preceded yield nothing |
| ClipboardTransfers.EndClears | crates/ss-clipboard/src/sync.rs:164-183 | nothing is pending after an end, successful or not |
| ClipboardTransfers.TransferFits | crates/ss-clipboard/src/sync.rs:17-71 | every message of an accepted transfer fits a frame iff it is not of a text over 16 MiB less 16 bytes |
| ClipboardTransfers.WireExact | crates/ss-clipboard/src/sync.rs:17-186 | any list of contents, prepared, framed, concatenated, read back and handled, yields the accepted contents before the first over-long text; all of them, and a clean end, iff there is none |
| ClipboardTransfers.SmallContentsArrive | crates/ss-clipboard/src/sync.rs:17-186 | in figures: any list of texts of at most 16 MiB less 16 bytes and images of at most 10 MiB compressed comes through whole |
| ClipboardTransfers.WireRoundTrip | crates/ss-clipboard/src/sync.rs:129-186 | in particular, a list without an over-long text comes through whole |
| ClipboardTransfers.CutConnection | crates/ss-network/src/framing.rs:8-43 | cut at any byte, the receiver gets a prefix of the contents it would have got |
| ClipboardTransfers.ImageIntegrity | crates/ss-clipboard/src/sync.rs:117-121 | whatever arrives, an image is released only under an end message carrying the hash of its pixels |
| ClipboardMonitor.Monitor.constructor | crates/ss-clipboard/src/monitor.rs:27-33 | a monitor that has seen nothing |
| ClipboardMonitor.Monitor.Suppress | crates/ss-clipboard/src/monitor.rs:36-39 | notes the hash and time of a remote write |
| ClipboardMonitor.Monitor.IsSuppressed | crates/ss-clipboard/src/monitor.rs:42-54 | held back for a second, and for as long as the hash is the remote one |
| ClipboardMonitor.Monitor.Poll | crates/ss-clipboard/src/monitor.rs:57-73 | reports readable, unsuppressed, changed content and remembers its hash |
| ClipboardMonitor.ReportsIff | crates/ss-clipboard/src/monitor.rs:36-73 | after any events a poll reports a content iff it is not the empty text, nothing was signalled within 1000 ms, and it is neither what was signalled last nor what was reported last |
| ClipboardMonitor.HashTellsPayload | crates/ss-core/src/protocol.rs:271-281 | contents are told apart by their text or pixels, not by dimensions |
| ClipboardMonitor.HashEndsTransfer | crates/ss-clipboard/src/sync.rs:40-65 | the hash that ends an image's transfer is the one its receiver's monitor is signalled |
| ClipboardMonitor.ReportsAlternate | crates/ss-clipboard/src/monitor.rs:57-73 | over any polls, copies and remote writes, no two reports in a row are of the same content |
| EchoNetwork.FanoutExact | src/main.rs:341-362 | a change goes once to every node its sender is connected to, never back |
| EchoNetwork.PollTipsIffEcho | crates/ss-clipboard/src/monitor.rs:119-161 | a poll adds one to the account of reports iff it echoes: the last untaken signal is the hash of what it reports |
| EchoNetwork.EmissionBalance | crates/ss-clipboard/src/monitor.rs:119-161 | in every run: reports, unreported contents and changes given up are exactly copies, initial contents and echoes |
| EchoNetwork.EchoFreeIff | crates/ss-clipboard/src/monitor.rs:130-158 | the tally of echoes does not grow iff no poll of the run echoes |
| EchoNetwork.NoClipboardLoops | src/main.rs:763-785 | when no poll echoes, reports and remote writes are bounded by copies and initial contents, however long the run |
| EchoNetwork.WritesCounted | src/main.rs:763-785 | exactly the deliveries count as remote writes |
| EchoNetwork.OrderedIsEchoFree | src/main.rs:763-785 | a run in which each node takes its signals before it polls has no echoes |
| EchoNetwork.RaceEchoes | crates/ss-clipboard/src/monitor.rs:130-158 | an echo: one copy and a poll that overtakes the signal make two reports |
| EchoNetwork.EchoesUnbounded | crates/ss-clipboard/src/monitor.rs:130-158 | two copies of different contents can be followed by any number of reports, though every signal is taken right after the poll it missed |
| EchoNetwork.SingleContentBound | crates/ss-clipboard/src/monitor.rs:57-73 | if all contents have one hash, each node reports once at most, whatever overtakes what |
| PinManager.PinManager.constructor | crates/ss-network/src/pairing/server.rs:45-47 | as WithParams, with the default limits |
| PinManager.PinManager.WithParams | crates/ss-network/src/pairing/server.rs:49-61 | a fresh PIN, no failures, not locked |
| PinManager.PinManager.CurrentPin | crates/ss-network/src/pairing/server.rs:64-71 | rotates an expired PIN, then shows it |
| PinManager.PinManager.IsLocked | crates/ss-network/src/pairing/server.rs:74-86 | locked before the deadline; an expired lockout is cleared together with the failures |
| PinManager.PinManager.RecordSuccess | crates/ss-network/src/pairing/server.rs:95-101 | fresh PIN, failures and lockout cleared |
| PinManager.PinManager.RecordFailure | crates/ss-network/src/pairing/server.rs:104-111 | one more failure, and a lockout from the limit on |
| PinManager.BruteForceBound | crates/ss-network/src/pairing/server.rs:74-111 | in any run of length T with at most C attempts in flight, failures are at most (max_failures + C - 1) times (floor(T / lockout) + successes + 1) |
| PinManager.BoundAttained | crates/ss-network/src/pairing/server.rs:74-111 | the bound is the best there is: for every number of lockouts a run attains it |
| PinManager.DefaultBound | crates/ss-network/src/pairing/server.rs:20-25 | the same bound with the application's limits, in figures |
| PinManager.PinInForce | crates/ss-network/src/pairing/server.rs:63-101 | in every run the PIN in force is the last one drawn: at the start, at each success, and at each reading of a PIN a time to live old |
| PairingAgreement.PairingAgreement | crates/ss-network/src/pairing/server.rs:195-269 | client Ok implies its own request was signed under an equal PIN by the server's authority; records carry that certificate and the device name; with unequal PINs nothing is signed and each confirmation read records one failure |
| PairingLimits.GuessingBound | crates/ss-network/src/pairing/server.rs:152-173 | whatever arrives on any connections, in any interleaving, wrong-PIN confirmations answered in time T obey the lockout bound |
| PairingLimits.SnapshotsFresh | crates/ss-network/src/pairing/server.rs:219-221 | in every run, whoever sends what, a certificate is signed only under a PIN that was not past its time to live when the attempt took it |
| PairingPins.SnapshotsDrawn | crates/ss-network/src/pairing/server.rs:219-221 | in every run, whoever sends what, a certificate is signed only under a PIN that was drawn, less than a time to live before it was taken |
| PairingPins.SignedUnderDrawn | crates/ss-network/src/pairing/server.rs:219-249 | with honest ends that PIN is the one the client's user typed |
| PairingLimits.PairingsPerPin | crates/ss-network/src/pairing/server.rs:94-101 | one PIN yields no more pairings than attempts were ever in flight at once, none that leaves it in force, and no more certificates than attempts that took it |
| PairingAgreement.UndisturbedPairing | crates/ss-network/src/pairing/client.rs:51-124 | undisturbed and not locked out, pairing succeeds iff the client typed the PIN shown when the attempt began, whatever the manager's state when the confirmation is read; otherwise the client learns that the PIN was wrong |
| PairingAgreement.RefusedIff | crates/ss-network/src/pairing/server.rs:200-238 | any message that is not the next of version 1 under the right key is answered with its reason, and nothing is signed or recorded |
| PairingAgreement.LockedOut | crates/ss-network/src/pairing/server.rs:195-197 | a client of a locked server learns just that, and no PIN is read |
| PairingAgreement.ReasonLearnt | crates/ss-network/src/pairing/client.rs:80-113 | the client reports a wrong PIN only for that reason, and passes on any other |
| PairingAgreement.ClientFault | crates/ss-network/src/pairing/client.rs:51-124 | a broken read or write ends the client with a protocol error; of a broken write the other end may have got the message |
| PairingAgreement.ServerFault | crates/ss-network/src/pairing/server.rs:160-170 | a broken read or write makes the handler give up, say so once if it can, and end without a record |
| PairingAgreement.MovesAreSteps | crates/ss-network/src/pairing/server.rs:152-170 | what happens on one connection is a step of one of its ends and leaves all other connections alone |
| PairingAgreement.RecordNames | crates/ss-network/src/pairing/server.rs:239-262 | the record is under the name in the sealed request, or else the one announced, with the certificate's fingerprint |
| PairingLimits.SigningIgnoresAge | crates/ss-network/src/pairing/server.rs:239-249 | from any point of any run, an accepted confirmation is signed for at the server's next step on it, whatever else happens and breaks; past the PIN's time iff that step comes that late |
| PairingAgreement.LateSigning | crates/ss-network/src/pairing/server.rs:219-249 | a PIN generated at 0 and taken at 179 is signed under at 200 |
| Layout.CoordinateSystem.constructor | crates/ss-input/src/boundary.rs:24-34 | the server's screen alone, at offset 0 |
| Layout.CoordinateSystem.AddScreen | crates/ss-input/src/boundary.rs:37-51 | appends a screen at the largest right edge |
| Layout.CoordinateSystem.RemoveScreen | crates/ss-input/src/boundary.rs:54-62 | removes a screen and rewrites all offsets |
| Layout.LayoutRefinement | crates/ss-input/src/boundary.rs:37-62 | after any additions and removals whose total width fits 32 bits, the stored layout is the described one with offsets equal to prefix sums |
| Layout.TilesDisjoint | crates/ss-input/src/boundary.rs:65-70 | no two screens cover the same x |
| Layout.LookupExact | crates/ss-input/src/boundary.rs:65-70 | lookup succeeds iff x is below the total width, on the one screen covering it |
| Layout.TiledEdge | crates/ss-input/src/boundary.rs:94-100 | the cached total width is the sum of the widths |
| Layout.LocalGlobalLocal | crates/ss-input/src/boundary.rs:78-91 | with unique screen ids, local to global and back is the identity on every screen |
| Layout.GlobalLocalGlobal | crates/ss-input/src/boundary.rs:78-91 | with unique screen ids, global to local and back is the identity inside the layout |
| Layout.ConversionTotal | crates/ss-input/src/boundary.rs:65-91 | unknown screens keep coordinates; left of everything counts as the leftmost column; right of everything is on no screen |
| Layout.RightEdgeExact | crates/ss-input/src/boundary.rs:94-100 | the right edge is the largest end of any screen, tiled or not |
| VirtualCursor.VirtualCursor.constructor | crates/ss-input/src/virtual_cursor.rs:43-51 | the cursor starts at the centre of the server's screen |
| VirtualCursor.VirtualCursor.UpdateBounds | crates/ss-input/src/virtual_cursor.rs:54-62 | bounds become the total width and the tallest height |
| VirtualCursor.VirtualCursor.ApplyDelta | crates/ss-input/src/virtual_cursor.rs:66-126 | confined position, current screen and boundary event of one delta |
| VirtualCursor.VirtualCursor.SetPosition | crates/ss-input/src/virtual_cursor.rs:134-137 | moves the cursor and nothing else |
| VirtualCursor.VirtualCursor.LocalPosition | crates/ss-input/src/virtual_cursor.rs:140-149 | agrees with the layout's global-to-local conversion |
| VirtualCursor.TallestExact | crates/ss-input/src/virtual_cursor.rs:56-61 | the vertical bound is the tallest screen's height |
| VirtualCursor.BoundsWithoutScreens | crates/ss-input/src/virtual_cursor.rs:54-62 | without screens the desk has no width and a height of 1080 |
| VirtualCursor.DeltaLands | crates/ss-input/src/virtual_cursor.rs:72-126 | after a delta the current screen is the unique one under the cursor; a Leave names the screen left, an Enter is the cursor's point in its target's coordinates |
| VirtualCursor.CursorWalks | crates/ss-input/src/virtual_cursor.rs:72-90 | between layout changes the cursor walks by its deltas between the edges of the whole desk |
| VirtualCursor.PlacedWalks | crates/ss-input/src/virtual_cursor.rs:134-137 | a cursor that is placed walks on from where it was placed |
| VirtualCursor.NoScreenIsServer | crates/ss-input/src/virtual_cursor.rs:92-96 | off all screens the cursor counts as on the server's |
| VirtualCursor.BoundaryLogReplays | crates/ss-input/src/virtual_cursor.rs:54-126 | over any run of deltas and layout changes that keep screen 0, unique ids and a total width in 32 bits, replaying the emitted events gives the current screen |
| ConnectionRegistry.EventConsumer.OnEvent | src/main.rs:191-219 | list and flag after each notification |
| ConnectionRegistry.ServerState.InsertClient | crates/ss-network/src/server.rs:256-263 | the map gains the client, and its handler is the newest: the Insert step of the runs below |
| ConnectionRegistry.ServerState.NotifyConnected | crates/ss-network/src/server.rs:278-280 | the Announce step |
| ConnectionRegistry.ServerState.NotifyDisconnected | crates/ss-network/src/server.rs:350-352 | the Farewell step |
| ConnectionRegistry.ServerState.ConsumeOne | src/main.rs:192-194 | the consumer takes the oldest notification |
| ConnectionRegistry.ServerState.RemoveClient | crates/ss-network/src/server.rs:346 | the map loses the client |
| ConnectionRegistry.HasClientExact | src/main.rs:197-212 | in every run, has_client says exactly whether the shown list is non-empty |
| ConnectionRegistry.EntriesExact | crates/ss-network/src/server.rs:256-263 | in every run, a connected device is known with the screen it announced last |
| ConnectionRegistry.ConnectionAgreement | crates/ss-network/src/server.rs:263-352 | at quiescent points the shown list after the queued notifications is exactly the map's keys, each once |
| ConnectionRegistry.RestAgrees | src/main.rs:191-219 | when handlers are quiescent and the consumer has taken what is queued, the shown list is exactly the map's keys, each once |
| ConnectionRegistry.ReconnectIff | crates/ss-network/src/server.rs:345-352 | in a consistent state, a connecting device leaves every fair continuation in agreement iff its last handler has said farewell |
| ConnectionRegistry.AgreementIff | crates/ss-network/src/server.rs:263-352 | every point of a run is safe in that sense iff no device in it reconnected before its last handler's farewell |
| ConnectionRegistry.ReconnectCounterexample | crates/ss-network/src/server.rs:345-352 | a device reconnecting right after its old handler left the map can end in disagreement |
| ConnectionRegistry.LastClientReleasesInput | src/main.rs:204-212 | once the last client is gone and the queue is empty, no input is kept from the local machine |

## Left out

- ServerClientSession.LeaveIffMovedBack: is of the order in which the entry arrives first; `ServerClientSession.LeaveIffOvertaken` is of the others.
- ClosedLoop.EndsOnlyByUserIff: is of one client, to whom messages arrive in the order in which they were sent.
- ClipboardTransfers.ReassemblyAnyOrder: excludes the begin, end and chunks of another image in between, which the server's one reassembler does receive from other clients; of that only `ClipboardTransfers.ImageIntegrity` is claimed.
- Layout.LayoutRefinement: total widths of 2^32 and more, where the offsets wrap, are not described.
- VirtualCursor.BoundaryLogReplays: asks that screen 0 stays and ids are unique, because lookups by id otherwise find another screen or none.
- ServerClientSession.NoBounceBack: asks for a client at least 7 pixels wide, which `ClientCursor.BounceFreeIff` shows to be necessary.
- ConnectionRegistry.ConnectionAgreement: asks that a device reconnects only after its last handler's farewell; `ConnectionRegistry.ReconnectIff` shows that any other reconnection breaks the agreement in some continuation.
- EchoNetwork.NoClipboardLoops: asks that no poll echoes, because the monitor polls without draining the signal queue; `EchoNetwork.EmissionBalance` accounts for every echo.
- PinManager.BruteForceBound: the number of attempts in flight is a parameter, because the listener accepts any number of connections; a lockout of length 0 is excluded since it locks nothing.
- PairingAgreement.PairingAgreement: both ends follow the protocol and the connection may break but not forge, because its keys are ideal; `PairingLimits` drops that assumption. `handle_pairing` and `pair_with_server` are step functions on values rather than methods, because their steps interleave with those of other connections; a closed stream and a broken one are the same fault.
- PairingLimits.PairingsPerPin: counts recorded pairings; a certificate whose delivery failed is signed without replacing the PIN, and those are bounded only by the attempts that took the PIN.
- PairingLimits.GuessingBound: a confirmation under the right PIN whose request does not parse or cannot be signed is not distinguished from an attempt given up.
- Pairing.KeyOf: SPAKE2 and HKDF are one ideal term, equal at both ends exactly for equal PINs; nothing is proved about either.
- Framing.ByteStream.ReadFrame: a read is never cancelled halfway, as it can be inside the client's `select!`.
- Mode flags changing in the middle of one callback: each callback, request and presence change is one atomic step.
- Bounded channels: `try_send` and broadcast lag can drop messages; emissions are attempted sends, deliveries are of what was not dropped.
- The forwarding task's second look at `is_remote` for buttons, keys and wheel (src/main.rs:267): it can only drop messages already sent by the callback.
- Floating point: fractional coordinates and precision from 2^24 pixels on.
- Balanced button and key releases across mode switches: the code does not provide them.
- Image dimensions when two clients' transfers interleave: only the pixels are protected by the hash.
- Eventual delivery of every local copy: a remote write can leave an equal hash behind and hold a copy back.
- Enter y within the target screen's own height: the code confines y by the tallest screen only.
- zstd and blake3 failures and collisions, SPAKE2, HKDF and AEAD internals, certificate generation, TLS, sockets, timeouts as durations.
- The 32-bit failure counter's overflow: it needs four billion failures inside one lockout epoch.
- Stopping and restarting the server, reconnection back-off, trust-store and configuration files, key and button tables, user interface, tray and command line: input and output, or tables and bookkeeping without interplay.
