# Verified models of the wrix protocol cores

This directory models, in Dafny 4.11, the parts of the repository whose correctness is hard to see by reading:
a credit-controlled multiplexer, a drain protocol, a crash-recovery protocol and a handful of smaller algorithms.
`dafny verify dfyconfig.toml` checks everything.

## How it is laid out

* **Nix bridge** (`Wire`, `Bridge`, `BridgeInvariant`, `BridgeRuns`, `BridgeTraffic`, `BridgeLosses`, `Server`, `Peer`,
  `Progress`, `Relay`). `Wire` is the frame format and the decoder of a whole byte stream. `Bridge` is the poll loop of
  `serve` as a transition system over an arbitrary environment: reads and writes move any number of bytes and `poll`
  reports any allowed events. `BridgeInvariant` proves what each phase keeps, `BridgeRuns` what that says about every
  run, `BridgeTraffic` that its histories are what the environment gave and took, `BridgeLosses` which bytes a run
  loses. `Server` is the program, with the buffers and counters of the C code, each phase proved equal to the
  transition system. `Peer` joins the multiplexer to a far end that keeps the mirrored credit rules, and `Progress`
  shows that the two always settle: every credit can come home and every byte arrive. `Relay` is `connect_stdio`.
* **Celler work drain** (`Tracker`, `Transport`, `Drain`, `DrainProofs`). `Tracker` has one function and one method
  per critical section; `Transport` is the work parked on one connection, call by call; `Drain` interleaves any number
  of connections, the control and run tasks and the maintenance loop, one critical section at a time; `DrainProofs`
  is what every run keeps, and that over every run each connection of `Drain` is what the calls of `Transport` make of
  it.
* **Smaller cores.** `Canonical` (JSON without insignificant whitespace), `StagedRemote` (the Dolt remote across a
  worktree recreation), `Attention` (the attention queue), `FocusCount` (reference-counted focus registrations),
  `Renewal` (credential renewal), `RemoteKeys` (planning and applying remote keys), `Shell` (argument quoting).

Programs that change state step by step are classes whose methods are proved equal to a function of the old state;
the theorems are about those functions and their runs. `StagedRemote` differs: its class records every state of the
disk, and its methods are proved to keep that record safe. `Wrappers` holds the option and result types,
`Octets` bytes.

## What the code does not promise

* A public key without two fields never converges: it is created, and the next plan finds it in its own way.
  `RemoteKeys.Converges` gives the exact condition and `RemoteKeys.MalformedKeyConflicts` an instance. The program never
  gets there: `crates/wrix-cli/src/init.rs:984`, reached from lines 472 and 481, rejects such a key before any plan.
* Two targets with the same registration file name can make the record vanish while a registration is live
  (`FocusCount.CollisionLosesRecord`; `FocusCount.ValidTargetsCollide` names two valid ones).
  `FocusCount.AccurateRunsExactly` says when a run does harm: exactly when it registers a target while another with
  the same file name is live. The bound that always holds is `FocusCount.CountBounded`.
* Retries of a failed renewal are a retry interval apart exactly when none follows a leap of the wall clock ahead of the
  monotonic one (`Renewal.RetriesSpacedExactly`). `Renewal.FailuresSpaced` needs no more than that, and
  `Renewal.LeapBreaksBound` is a run that breaks the bound.
* The bridge drops bytes in three cases: a close from either side with bytes still pending for the local socket, and
  data arriving for a stream already closed. `BridgeLosses.LossAccounted` accounts for every byte of every run, and
  `BridgeLosses.PendingByteLost` is a run that loses one.

## Model

| member | source | states |
|---|---|---|
| Wire.Header | lib/sandbox/darwin/nix-bridge.c:70-75 | a frame header is nine bytes from which tag, id and length read back |
| Wire.BigEndian | lib/sandbox/darwin/nix-bridge.c:71-72 | numbers travel most significant byte first |
| Wire.FrameLayout | lib/sandbox/darwin/nix-bridge.c:70-75 | tag, id, length and payload stand at bytes 0, 1, 5 and 9 |
| Wire.FrameBytes | lib/sandbox/darwin/nix-bridge.c:70-75 | one data frame byte for byte, and the four tags |
| Wire.FirstOfEncode | lib/sandbox/darwin/nix-bridge.c:70-75 | an encoded frame is recognised at the front of any bytes, payload and remainder intact |
| Wire.EncodeOfFirst | lib/sandbox/darwin/nix-bridge.c:113-117 | a complete frame at the front of a buffer re-encodes to exactly the bytes it was read from |
| Wire.DecodeOfEncode | lib/sandbox/darwin/nix-bridge.c:70-75 | decoding the encoding of any frame sequence, with any incomplete tail, returns that sequence and tail |
| Wire.DecodeSound | lib/sandbox/darwin/nix-bridge.c:108-128 | the decoded frames and the remainder spell the input: nothing lost, nothing invented |
| Wire.DecodeAppend | lib/sandbox/darwin/nix-bridge.c:109-127 | decoding is incremental: any split of the input gives the same frames |
| Wire.PrefixDecodes | lib/sandbox/darwin/nix-bridge.c:109-117 | a prefix of a peer's bytes decodes to a prefix of its frames, and a whole header is that of the next frame |
| Bridge.Vacant | lib/sandbox/darwin/nix-bridge.c:100-100 | the slot taken by a new connection is the first vacant one |
| Bridge.Find | lib/sandbox/darwin/nix-bridge.c:118-119 | a frame goes to the last live slot with its id, or to none |
| Bridge.StageShape | lib/sandbox/darwin/nix-bridge.c:104-143 | a history without protocol fault is one open, then data and acknowledgements, then at most one close and nothing after |
| BridgeInvariant.InvInitial | lib/sandbox/darwin/nix-bridge.c:85-88 | the loop starts in the invariant |
| BridgeInvariant.FlushKeeps | lib/sandbox/darwin/nix-bridge.c:93-96 | a partial write to the wire keeps the invariant |
| BridgeInvariant.AcceptKeeps | lib/sandbox/darwin/nix-bridge.c:97-107 | accepting a connection keeps the invariant: the next id has no history |
| BridgeInvariant.ReceiveWire | lib/sandbox/darwin/nix-bridge.c:109-127 | after any partial read the bytes received decode to the frames dispatched and the buffered part |
| BridgeInvariant.DispatchStream | lib/sandbox/darwin/nix-bridge.c:117-125 | a dispatched frame balances the books of its own stream and leaves every other stream alone |
| BridgeInvariant.ReceiveKeeps | lib/sandbox/darwin/nix-bridge.c:108-129 | reading and dispatching keep the invariant |
| BridgeInvariant.DrainKeeps | lib/sandbox/darwin/nix-bridge.c:133-137 | a partial write to a local socket keeps the invariant |
| BridgeInvariant.FrameAckKeeps | lib/sandbox/darwin/nix-bridge.c:138-138 | framing an owed acknowledgement keeps the invariant |
| BridgeInvariant.PullKeeps | lib/sandbox/darwin/nix-bridge.c:139-145 | framing data or a close from a local socket keeps the invariant |
| BridgeRuns.TurnKeeps | lib/sandbox/darwin/nix-bridge.c:89-148 | every pass of the loop keeps the invariant under any environment |
| BridgeRuns.RunKeeps | lib/sandbox/darwin/nix-bridge.c:89-149 | every run keeps the invariant |
| BridgeRuns.FramesAreRecorded | lib/sandbox/darwin/nix-bridge.c:108-128 | the frames read off the raw bytes of each direction are the frames framed and dispatched |
| BridgeTraffic.SlotIsTraffic | lib/sandbox/darwin/nix-bridge.c:131-146 | serving a slot moves exactly the bytes its socket took when reported writable and gave when it was to be asked, first byte first, up to the chunk |
| BridgeTraffic.TurnIsTraffic | lib/sandbox/darwin/nix-bridge.c:89-148 | a turn extends the histories of read and written bytes by exactly what the environment gave and took |
| BridgeTraffic.HistoriesAreReal | lib/sandbox/darwin/nix-bridge.c:89-149 | in every run from the start the four histories are what the wire and the sockets gave and took, in order |
| BridgeTraffic.TrafficRelayed | lib/sandbox/darwin/nix-bridge.c:89-149 | what a socket gave is the payload of its frames out, and what it took is a prefix of the payload of the frames the wire gave |
| BridgeTraffic.StopsExactlyOnFailure | lib/sandbox/darwin/nix-bridge.c:93-147 | a turn is stopped by the operating system only with a fatal event, and survives none on the wire or the listener |
| BridgeTraffic.ExhaustedOnlyAtTheEnd | lib/sandbox/darwin/nix-bridge.c:103-103 | the counter stops the program only at its largest value |
| BridgeRuns.StreamsConserved | lib/sandbox/darwin/nix-bridge.c:133-145 | in every run, bytes written to a stream's socket followed by its pending bytes are the payloads of its accepted data frames, and bytes read from it are the payloads of its emitted ones |
| BridgeLosses.DispatchLoses | lib/sandbox/darwin/nix-bridge.c:120-125 | a dispatched frame loses bytes exactly when it closes its stream with bytes pending or is data for a closed one |
| BridgeLosses.ReceiveLoses | lib/sandbox/darwin/nix-bridge.c:108-129 | a read loses exactly what the frame it completes loses |
| BridgeLosses.PullLoses | lib/sandbox/darwin/nix-bridge.c:139-145 | serving a stream loses exactly the bytes pending when its own socket ends or fails |
| BridgeLosses.NothingElseLoses | lib/sandbox/darwin/nix-bridge.c:93-138 | flushing, accepting, writing to a socket and acknowledging lose nothing |
| BridgeLosses.TurnLoses | lib/sandbox/darwin/nix-bridge.c:89-148 | a turn loses exactly what its read and its ended sockets lose |
| BridgeLosses.RunLoses | lib/sandbox/darwin/nix-bridge.c:89-149 | a run loses exactly what its turns lose |
| BridgeLosses.LossAccounted | lib/sandbox/darwin/nix-bridge.c:89-149 | in every run from the start the bytes accepted for a stream are on its socket, pending, or among those the run lost |
| BridgeLosses.PendingByteLost | lib/sandbox/darwin/nix-bridge.c:121-121 | a run of one accept, one byte of data and a close loses that byte |
| BridgeRuns.RecheckIsIdle | lib/sandbox/darwin/nix-bridge.c:111-128 | when a read finds nothing, the header check that follows all the same does nothing |
| BridgeRuns.StreamsWellFormed | lib/sandbox/darwin/nix-bridge.c:104-143 | in every run each id emits open, then data or acknowledgements, then at most one close; a live stream has been closed by neither side |
| BridgeRuns.CreditConserved | lib/sandbox/darwin/nix-bridge.c:117-143 | data out minus acknowledgements in is one minus the credit; data in minus acknowledgements out is the pending bit plus the owed bit, never both |
| BridgeRuns.BuffersBounded | lib/sandbox/darwin/nix-bridge.c:81-128 | `have < need <= CHUNK+9` before every read, `sending <= CHUNK+9`, and the wire carries a prefix of the magic and whole frames |
| BridgeRuns.IdsDistinct | lib/sandbox/darwin/nix-bridge.c:97-106 | live slots have distinct nonzero ids no greater than the counter, which has not wrapped |
| BridgeRuns.ClosedForEver | lib/sandbox/darwin/nix-bridge.c:115-125 | over any further run a closed id is never live again and moves no byte |
| BridgeRuns.LateFramesIgnored | lib/sandbox/darwin/nix-bridge.c:118-125 | a late frame for a closed id changes no stream and stops nothing |
| BridgeRuns.EventsReachTheirStream | lib/sandbox/darwin/nix-bridge.c:90-133 | no event polled for an earlier occupant of a slot is applied to a later one |
| BridgeRuns.NeverZeroIo | lib/sandbox/darwin/nix-bridge.c:93-140 | no read or write is made with count zero, so no end of file is imagined |
| Server.MoveDown | lib/sandbox/darwin/nix-bridge.c:95-95 | the bytes after a partial write are moved to the front in place, in order |
| Server.CopyIn | lib/sandbox/darwin/nix-bridge.c:70-75 | bytes are copied to their place and what lies before it is untouched |
| Server.Field | lib/sandbox/darwin/nix-bridge.c:114-114 | a header field is read as a big-endian number |
| Server.Server.constructor | lib/sandbox/darwin/nix-bridge.c:85-88 | the arrays and counters start as the initial state |
| Server.Server.FrameHeader | lib/sandbox/darwin/nix-bridge.c:70-75 | a header written in front of a payload already in place makes the buffer that frame's encoding |
| Server.Server.FlushWire | lib/sandbox/darwin/nix-bridge.c:93-96 | the array code does exactly the flush phase, or stops for the same reason |
| Server.Server.AcceptLocal | lib/sandbox/darwin/nix-bridge.c:97-107 | the array code does exactly the accept phase, full table and exhausted counter included |
| Server.Server.SlotOf | lib/sandbox/darwin/nix-bridge.c:118-119 | the search loop finds the last live slot with the id |
| Server.Server.DeliverTo | lib/sandbox/darwin/nix-bridge.c:120-125 | the slot is closed, credited or filled, or the overrun error returned, exactly as a delivery says |
| Server.Server.DispatchFrame | lib/sandbox/darwin/nix-bridge.c:117-127 | the array code does exactly the dispatch, with its two overrun errors |
| Server.Server.ParseIncoming | lib/sandbox/darwin/nix-bridge.c:113-128 | the array code checks the header and dispatches exactly as the transition system |
| Server.Server.TakeIn | lib/sandbox/darwin/nix-bridge.c:109-112 | bytes read are appended after those already held |
| Server.Server.ReceiveWire | lib/sandbox/darwin/nix-bridge.c:108-129 | the array code does exactly the receive phase |
| Server.Server.DrainLocal | lib/sandbox/darwin/nix-bridge.c:133-137 | the array code does exactly the drain of a slot, and owes an acknowledgement once it is empty |
| Server.Server.PullLocal | lib/sandbox/darwin/nix-bridge.c:139-145 | the array code frames data or a close exactly as the transition system |
| Server.Server.ServeLocal | lib/sandbox/darwin/nix-bridge.c:131-146 | the array code serves one slot exactly as the transition system |
| Server.Server.ServeAll | lib/sandbox/darwin/nix-bridge.c:130-146 | the slots are served in order, stopping at the first failure |
| Server.Server.PollAll | lib/sandbox/darwin/nix-bridge.c:90-92 | readiness is asked for only where the loop asks for it |
| Server.Server.Pass | lib/sandbox/darwin/nix-bridge.c:89-148 | one pass of the program is one turn of the transition system |
| Server.Server.Serve | lib/sandbox/darwin/nix-bridge.c:89-149 | the program's runs are the transition system's runs |
| Peer.CrossBounds | lib/sandbox/darwin/nix-bridge.c:138-144 | however much is in flight, the peer never holds more than one unanswered data frame or acknowledgement |
| Peer.TakeKeeps | lib/sandbox/darwin/nix-bridge.c:138-144 | no frame the multiplexer emits faults a peer that checks the mirrored rules |
| Peer.ParseSafe | lib/sandbox/darwin/nix-bridge.c:115-123 | bytes of a rule-keeping peer never reach the header or overrun errors, closes in flight included |
| Peer.SysStepKeeps | lib/sandbox/darwin/nix-bridge.c:89-148 | every move of either party keeps the joint invariant |
| Peer.NoProtocolError | lib/sandbox/darwin/nix-bridge.c:122-123 | no joint run ends in a protocol error on either side, only by the operating system or an exhausted counter |
| Peer.OneToken | lib/sandbox/darwin/nix-bridge.c:117-143 | each direction of a stream open at both ends has exactly one credit token, wherever it is |
| Peer.EndToEnd | lib/sandbox/darwin/nix-bridge.c:133-145 | what reaches a local socket is a prefix of what the peer sent, and what the peer took is a prefix of what was read locally |
| Progress.AnsweringPays | lib/sandbox/darwin/nix-bridge.c:93-146 | a move that starts nothing new either changes nothing or strictly lowers what the two parties still owe |
| Progress.RestsExactlyWhenPaid | lib/sandbox/darwin/nix-bridge.c:89-148 | no deadlock: some answering move makes a change exactly while anything is owed |
| Progress.PaidMeansHome | lib/sandbox/darwin/nix-bridge.c:117-143 | with nothing owed every stream open at both ends has both credits with their senders |
| Progress.PaidMeansDelivered | lib/sandbox/darwin/nix-bridge.c:133-145 | with nothing owed every byte the peer sent on a live stream is on its socket and every byte read locally has been taken |
| Progress.CreditsComeHome | lib/sandbox/darwin/nix-bridge.c:89-148 | from every joint state the invariant allows, at most as many answering moves as the debt bring every credit home and every byte to its end |
| Progress.EveryRunSettles | lib/sandbox/darwin/nix-bridge.c:89-148 | every joint run, from the start, can be continued without new traffic to a state with every credit home and every byte delivered |
| Progress.AnsweringEnds | lib/sandbox/darwin/nix-bridge.c:89-148 | however they are chosen, answering moves that change something come to an end within the debt |
| Relay.TurnExact | lib/sandbox/darwin/nix-bridge.c:47-68 | every pass keeps both directions exact and fails only by the operating system |
| Relay.RunExact | lib/sandbox/darwin/nix-bridge.c:47-68 | every run does |
| Relay.RelaysExactly | lib/sandbox/darwin/nix-bridge.c:50-66 | however a run stands or ends, bytes on the socket are a prefix of standard input and the write side is shut down at most once, with everything sent |
| Relay.TurnIsTraffic | lib/sandbox/darwin/nix-bridge.c:47-68 | a pass moves exactly the bytes the descriptors gave and took, and ends the run exactly on the socket's end, a failed call or a reported error |
| Relay.RunIsTraffic | lib/sandbox/darwin/nix-bridge.c:47-68 | so does a run, and it has stopped reading exactly if input was found to end |
| Relay.RelaysReally | lib/sandbox/darwin/nix-bridge.c:47-68 | however a run stands or ends, its histories are what the descriptors gave and took, and the write side is shut down exactly if input has ended and the socket has taken all of it |
| Relay.SuccessLosesNothing | lib/sandbox/darwin/nix-bridge.c:59-66 | a return of 0 means every byte read from the socket was written out |
| Relay.Relay.constructor | lib/sandbox/darwin/nix-bridge.c:44-45 | both buffers start empty, still reading |
| Relay.Relay.ReadInput | lib/sandbox/darwin/nix-bridge.c:50-53 | the array code reads standard input exactly as the copy system |
| Relay.Relay.WriteSocket | lib/sandbox/darwin/nix-bridge.c:54-57 | the array code writes the socket exactly as the copy system |
| Relay.Relay.ReadSocket | lib/sandbox/darwin/nix-bridge.c:59-62 | the array code reads the socket exactly as the copy system, returning 0 at its end |
| Relay.Relay.WriteOutput | lib/sandbox/darwin/nix-bridge.c:63-66 | the array code writes standard output exactly as the copy system |
| Relay.Relay.PassIn | lib/sandbox/darwin/nix-bridge.c:50-58 | the input half, with the shutdown once input has ended and been sent |
| Relay.Relay.Pass | lib/sandbox/darwin/nix-bridge.c:47-68 | one pass of the program is one turn of the copy system |
| Relay.Relay.ConnectStdio | lib/sandbox/darwin/nix-bridge.c:47-69 | the program's runs are the copy system's runs |
| Tracker.Tracker.constructor | lib/services/celler-work-drain-state.rs:37-45 | a new tracker serves and counts nothing |
| Tracker.Tracker.BeginDrain | lib/services/celler-work-drain-state.rs:69-78 | draining begins unless releasing; true exactly then |
| Tracker.Tracker.AbortDrain | lib/services/celler-work-drain-state.rs:80-89 | serving resumes unless releasing; true exactly then |
| Tracker.Tracker.IsQuiescent | lib/services/celler-work-drain-state.rs:91-98 | true exactly when draining with nothing counted and no failure |
| Tracker.Tracker.TryRelease | lib/services/celler-work-drain-state.rs:100-112 | releasing begins exactly when quiescent, otherwise nothing changes |
| Tracker.Tracker.MarkReleased | lib/services/celler-work-drain-state.rs:114-116 | only the phase changes |
| Tracker.Tracker.Fail | lib/services/celler-work-drain-state.rs:118-120 | only the failure flag changes |
| Tracker.Tracker.Open | lib/services/celler-work-drain-state.rs:122-129 | a workflow opens only while serving and only once |
| Tracker.Tracker.Close | lib/services/celler-work-drain-state.rs:131-142 | a workflow closes only for its owner |
| Tracker.Tracker.Request | lib/services/celler-work-drain-state.rs:144-163 | a guard is returned, already counted, exactly when the request is admitted |
| Tracker.Tracker.Background | lib/services/celler-work-drain-state.rs:165-172 | background work is counted before its guard is returned |
| Tracker.Tracker.Maintenance | lib/services/celler-work-drain-state.rs:174-184 | maintenance gets a guard only while serving |
| Tracker.Tracker.DropGuard | lib/services/celler-work-drain-state.rs:201-212 | dropping a guard counts down its kind and records an unwinding |
| Transport.Pending.constructor | lib/services/celler-work-drain-transport.rs:24-29 | a new connection is open with nothing parked |
| Transport.Pending.DeferWork | lib/services/celler-work-drain-transport.rs:39-44 | the code does exactly the deferral, on an open connection and on a closed one |
| Transport.Pending.ClearFlushed | lib/services/celler-work-drain-transport.rs:45-47 | the code does exactly the flush |
| Transport.Pending.CloseAndClear | lib/services/celler-work-drain-transport.rs:48-52 | the code does exactly the close |
| Transport.Stream.constructor | lib/services/celler-work-drain-transport.rs:102-110 | a new stream has not seen the signal and has nothing parked |
| Transport.Stream.AskClose | lib/services/celler-work-drain-transport.rs:123-133 | the question asked on every read and write is its call, and the answer yes is for good |
| Transport.Stream.Flush | lib/services/celler-work-drain-transport.rs:160-166 | a flush, completed or not, is its call |
| Transport.Stream.Drop | lib/services/celler-work-drain-transport.rs:171-175 | a lost stream is its call |
| Transport.Stream.DropBody | lib/services/celler-work-drain-transport.rs:72-78 | a dropped response body is its call on its own connection |
| Transport.EachOnce | lib/services/celler-work-drain-transport.rs:39-52 | over any sequence of calls every guard handed in is parked or has been let go, exactly once |
| Transport.ClosedExactly | lib/services/celler-work-drain-transport.rs:123-175 | over any calls a connection has closed exactly if its stream was discarded or a question found the signal |
| Transport.ClosedForGood | lib/services/celler-work-drain-transport.rs:39-52 | a closed connection stays closed and empty, and lets every later guard go at once |
| DrainProofs.CallIsStep | lib/services/celler-work-drain-transport.rs:39-175 | each call on a connection is one transport step of the whole system: the same guards parked, and those handed back exactly those the step lets go |
| DrainProofs.ConnectStands | lib/services/celler-work-drain-transport.rs:92-113 | a new connection of the whole system stands as a fresh one |
| DrainProofs.OtherStepStands | lib/services/celler-work-drain-transport.rs:39-52 | no step but a call on a connection changes what stands for it |
| DrainProofs.ConnectionsRefined | lib/services/celler-work-drain-transport.rs:39-175 | over every run of the whole system a connection's flag and parked guards are what its own code makes of the calls the run made on it |
| DrainProofs.StartInv | lib/services/celler-work-drain-state.rs:37-45 | the system starts in the invariant |
| DrainProofs.NextKeeps | lib/services/celler-work-drain-state.rs:69-212 | every step keeps the invariant and no count goes below zero |
| DrainProofs.RunKeeps | lib/services/celler-work-drain-state.rs:69-212 | every run does |
| DrainProofs.CountsAreGuards | lib/services/celler-work-drain-state.rs:144-212 | in every reachable state the counts are the numbers of live guards of each kind |
| DrainProofs.ReleaseIsClean | lib/services/celler-work-drain-state.rs:100-112 | release is granted once, with no guard live, no workflow open and no failure |
| DrainProofs.ZeroForEver | lib/services/celler-work-drain-state.rs:144-184 | from the grant on nothing is ever counted or live again |
| DrainProofs.SignalLosesNoResponse | lib/services/celler-work-drain-transport.rs:123-133 | when the shutdown signal closes a connection nothing is parked on it |
| DrainProofs.ParkedUntilFlushed | lib/services/celler-work-drain-transport.rs:39-52 | exactly which steps, of any kind, park work on a connection and let it go |
| DrainProofs.AcceptedMeansClean | lib/services/celler-work-drain.rs:239-247 | an accepted release had a clean grant, maintenance ended well, a clean check and a closed database, and its status is Released, nothing counted, no failure |
| DrainProofs.FailedExactly | lib/services/celler-work-drain-state.rs:196-212 | over any run a failure is on record exactly if it was at the start or one of the recording steps was taken: a guard dropped while unwinding, a request that panics or gives up, a maintenance loop that fails |
| DrainProofs.FailingBlocksRelease | lib/services/celler-work-drain-state.rs:100-108 | after any of those steps no continuation answers a release with yes |
| DrainProofs.CleanReleaseAccepted | lib/services/celler-work-drain.rs:239-331 | an idle server whose connections have ended answers a release with yes if its storage closes |
| DrainProofs.FailureBlocksRelease | lib/services/celler-work-drain.rs:242-244 | a failure, whenever recorded, rules out an accepted release in every continuation |
| DrainProofs.NoFailureAfterCheck | lib/services/celler-work-drain.rs:242-247 | after the check has found no failure none is ever recorded: all that could record one has ended |
| DrainProofs.NextProgress | lib/services/celler-work-drain-state.rs:69-142 | failures stick, grants stick, dropped guards stay gone, and without abort draining only advances |
| DrainProofs.AdmittedExactly | lib/services/celler-work-drain-state.rs:144-163 | a request gets in, counted with a guard of its own, exactly outside a workflow while serving or inside its own open workflow before release |
| DrainProofs.StartedExactly | lib/services/celler-work-drain-state.rs:165-184 | detached work and, exactly while serving, maintenance are counted with guards of their own |
| DrainProofs.OpensExactly | lib/services/celler-work-drain-state.rs:122-129 | a workflow is open to its authority afterwards exactly if it was or the server serves and the name is new |
| DrainProofs.DrainCycle | lib/services/celler-work-drain-state.rs:69-112 | a begun drain is undone by an abort and released exactly when nothing is counted or failed |
| DrainProofs.AdmittedWhileDraining | lib/services/celler-work-drain-state.rs:144-157 | over any run without abort from a draining state, whoever is admitted owns a workflow open at its start |
| DrainProofs.OpenThenClose | lib/services/celler-work-drain-state.rs:122-142 | opening and closing a workflow undo each other and leave every other workflow's owner alone |
| DrainProofs.DrainingIsMonotone | lib/services/celler-work-drain-state.rs:69-142 | over any run without abort draining never goes back and the workflow set only shrinks |
| DrainProofs.QuiescentIsReleasable | lib/services/celler-work-drain-state.rs:91-112 | the query and the five-way guard of release agree on every state |
| DrainProofs.QuiescenceIsStable | lib/services/celler-work-drain-state.rs:91-184 | only an abort, a release or a recorded failure ends quiescence |
| DrainProofs.QuiescedReleases | lib/services/celler-work-drain-state.rs:91-112 | after any run without those, a release that follows a positive quiescence answer is granted |
| DrainProofs.RequestReleasedProperly | lib/services/celler-work-drain.rs:156-190 | a request guard that has gone was let go in one permitted way, by its own connection flushing or closing or its task being lost, and later dropped, live and so counted at every moment before |
| DrainProofs.DroppedOnce | lib/services/celler-work-drain-state.rs:201-212 | a guard that was dropped is never live or dropped again |
| Canonical.ConfigBytes | crates/wrix-image-tools/src/digest/mod.rs:23-46 | the two-flag byte loop hashes exactly the three-mode stripping of its input |
| Canonical.TokensSeparated | crates/wrix-image-tools/src/digest/mod.rs:21-24 | the JSON grammar never puts two number or literal tokens next to each other |
| Canonical.TokenExact | crates/wrix-image-tools/src/digest/mod.rs:21-46 | for valid JSON the hashed bytes are the concatenation of its tokens, strings and escapes untouched |
| Canonical.Idempotent | crates/wrix-image-tools/src/digest/mod.rs:28-44 | stripping twice is stripping once, for any bytes |
| Canonical.ConcatInjective | crates/wrix-image-tools/src/digest/mod.rs:21-46 | the hashed bytes determine the token sequence |
| Canonical.SameBytesSameTokens | crates/wrix-image-tools/src/digest/mod.rs:21-46 | two valid documents give the same hashed bytes exactly when their token sequences are equal |
| StagedRemote.NeverLoses | crates/wrix-beads/src/command/mod.rs:586-650 | if no single step loses anything of the valued remote, nothing between any two points of a run is lost |
| StagedRemote.CutOff | crates/wrix-beads/src/command/mod.rs:586-650 | a run cut off after any step is as safe |
| StagedRemote.Disk.RemoveRemote | crates/wrix-beads/src/command/mod.rs:644-646 | a removal that fails part way never touches the staged remote |
| StagedRemote.Disk.Restore | crates/wrix-beads/src/command/mod.rs:639-650 | the staged remote is back in the worktree exactly when every call succeeds, and safe after every step otherwise |
| StagedRemote.Disk.Stage | crates/wrix-beads/src/command/mod.rs:625-637 | the remote is moved aside, or nothing changes; the staged-remote error occurs exactly when both places hold one |
| StagedRemote.Disk.Recreate | crates/wrix-beads/src/command/mod.rs:652-695 | recreation never touches the staged remote; it yields a worktree exactly when a branch exists and adding it succeeds |
| StagedRemote.Disk.Ensure | crates/wrix-beads/src/command/mod.rs:586-623 | started with nothing staged it ends with the remote back in the worktree, whether or not recreation succeeded; it succeeds only if recreation did, and each error names the step that failed |
| StagedRemote.Disk.Push | crates/wrix-beads/src/command/mod.rs:136-185 | up to the ensured worktree: after the first restoration the staged-remote error cannot occur, and success leaves nothing staged and the remote at home with exactly what was published appended |
| StagedRemote.Disk.CrashingRuns | crates/wrix-beads/src/command/mod.rs:136-185 | over any number of pushes cut off after any step the valued remote loses nothing, and a push whose steps all succeed then settles it |
| Attention.OneList | crates/wrix-notify/src/attention/mod.rs:74-79 | distinct sequences order the pending table into exactly one list |
| Attention.MinusIs | crates/wrix-notify/src/attention/mod.rs:55-56 | replacing a row takes its target out of its old place and leaves the order of the others |
| Attention.ScanIs | crates/wrix-notify/src/attention/mod.rs:84-124 | focusing removes every stale entry before the first success and that success, keeps retried and older entries in order, and fails exactly when nothing succeeded and something must be retried |
| Attention.FocusExactly | crates/wrix-notify/src/attention/mod.rs:84-124 | the same in terms of registrations and navigation: only targets registered under the identity they were enqueued with are navigated to, all others before the first success are removed |
| Attention.Tables.MaxSequence | crates/wrix-notify/src/attention/mod.rs:55-55 | the largest sequence of any row, or 0 for no rows |
| Attention.Tables.Enqueue | crates/wrix-notify/src/attention/mod.rs:50-63 | a registered target becomes the most recent, once, and the rest keep their order; any other changes nothing |
| Attention.Tables.Select | crates/wrix-notify/src/attention/mod.rs:74-79 | the entries come most recent first |
| Attention.Tables.Latest | crates/wrix-notify/src/attention/mod.rs:75-75 | the row with the largest sequence is found |
| Attention.Tables.Focus | crates/wrix-notify/src/attention/mod.rs:65-131 | the table loop leaves exactly the scanned list, and sets or clears the return position only on success |
| Attention.Tables.ReturnToOrigin | crates/wrix-notify/src/attention/mod.rs:133-175 | the saved position is visited once and cleared unless it must be retried, which is the only failure |
| FocusCount.SameFileExactly | crates/wrix-sandbox/src/command/launch.rs:586-599 | two targets share a file exactly when they differ only in bytes the name writes as a dash |
| FocusCount.Registry.constructor | crates/wrix-sandbox/src/command/launch.rs:713-724 | the directory starts without records |
| FocusCount.Registry.Register | crates/wrix-sandbox/src/command/launch.rs:713-799 | the code does exactly the step: count up, replace a colliding record or start one, fill in a missing route only, refuse to overflow |
| FocusCount.Registry.Unregister | crates/wrix-sandbox/src/command/launch.rs:801-828 | the code does exactly the step: count down, delete at the last, leave a foreign record alone |
| FocusCount.NamesAreSeparate | crates/wrix-sandbox/src/command/launch.rs:713-828 | what becomes of a file does not depend on the operations on any other file, however interleaved |
| FocusCount.CountBounded | crates/wrix-sandbox/src/command/launch.rs:713-828 | under any interleaving, collisions included, every record counts between one and the live registrations of its target, within its integer type |
| FocusCount.AccurateExactly | crates/wrix-sandbox/src/command/launch.rs:732-749 | an accurate file stays accurate exactly unless a target is registered while another with its file name is live |
| FocusCount.AccurateRunsExactly | crates/wrix-sandbox/src/command/launch.rs:713-828 | a file is accurate at every moment of a run exactly when no registration under its name meets a live one of another target |
| FocusCount.CountExact | crates/wrix-sandbox/src/command/launch.rs:713-828 | over any run without such a collision under a name its count is exact and the file is gone exactly when no registration of that name lives |
| FocusCount.RegistrationRecorded | crates/wrix-sandbox/src/command/launch.rs:661-668 | a registration is refused exactly when its own record is full, and otherwise leaves the count one higher and the route known before or else the one it brings |
| FocusCount.RouteKept | crates/wrix-sandbox/src/command/launch.rs:771-791 | no operation on any target changes a recorded route |
| FocusCount.RouteStable | crates/wrix-sandbox/src/command/launch.rs:771-791 | over a run that keeps the record its route never changes |
| FocusCount.PlaceIsTarget | crates/wrix-sandbox/src/command/launch.rs:559-580 | a session, a window number and a pane number make a valid target |
| FocusCount.ValidTargetsCollide | crates/wrix-sandbox/src/command/launch.rs:559-599 | `a.x:1.2` and `a-x:1.2` are different valid targets with one file name |
| FocusCount.CollisionLosesRecord | crates/wrix-sandbox/src/command/launch.rs:743-749 | for every two targets with one file name, registering both and removing the second loses the record of the first |
| Renewal.RenewalInTime | crates/wrix-sandbox/src/cache_credentials/mod.rs:55-66 | an unexpired grant renews after now and no later than its expiry, ahead by exactly the smaller of five minutes and a tenth of what remains; an expired one is refused |
| Renewal.Session.Open | crates/wrix-sandbox/src/cache_credentials/mod.rs:158-178 | a session exists only once its first grant was checked and staged |
| Renewal.Session.RenewNow | crates/wrix-sandbox/src/cache_credentials/mod.rs:219-227 | a renewal replaces everything or nothing |
| Renewal.Session.TickNow | crates/wrix-sandbox/src/cache_credentials/mod.rs:193-217 | a tick does nothing before it is due, otherwise renews or records a failed attempt |
| Renewal.TickExactly | crates/wrix-sandbox/src/cache_credentials/mod.rs:193-227 | a tick does nothing before it is due, stages the new grant with its renewal in time if what it meets is good, and otherwise records a failed attempt only |
| Renewal.AlwaysInTime | crates/wrix-sandbox/src/cache_credentials/mod.rs:158-227 | over every run from its creation a session has staged exactly the good grants issued when due, and renews ahead of its expiry by the exact advance of the last |
| Renewal.OutageExtendsNothing | crates/wrix-sandbox/src/cache_credentials/mod.rs:192-217 | over any ticks in which every renewal fails, expiry, renewal time and what is staged stay as they were |
| Renewal.CreatedSound | crates/wrix-sandbox/src/cache_credentials/mod.rs:158-178 | a session is created exactly from a first grant that is good, and its renewal is in time |
| Renewal.StagedUnexpired | crates/wrix-sandbox/src/cache_credentials/mod.rs:193-227 | over any ticks every staged grant was unexpired when checked, and expiry and renewal time are those of the last |
| Renewal.FailuresSpaced | crates/wrix-sandbox/src/cache_credentials/mod.rs:129-137 | unless a retry follows a leap of the wall clock, failed attempts are at least thirty seconds apart, renewals in between or not |
| Renewal.FailuresBounded | crates/wrix-sandbox/src/cache_credentials/mod.rs:129-137 | under the same condition a span of T holds at most T/30s + 1 failed attempts |
| Renewal.EarlyRetryExactly | crates/wrix-sandbox/src/cache_credentials/mod.rs:129-202 | within thirty monotonic seconds of a failure a due tick tries again exactly when the wall clock gained thirty seconds |
| Renewal.RetriesSpacedExactly | crates/wrix-sandbox/src/cache_credentials/mod.rs:129-217 | over any run, whatever its clocks do, every retry starts thirty seconds after its failure exactly when none follows a leap |
| Renewal.LeapBreaksBound | crates/wrix-sandbox/src/cache_credentials/mod.rs:129-217 | two ticks a nanosecond apart, with a leap between them, both fail and break the bound |
| RemoteKeys.Service.Apply | crates/wrix-cli/src/init.rs:1139-1178 | applying a plan does all of it, or stops having deleted exactly the first keys of its list |
| RemoteKeys.AppliedExactly | crates/wrix-cli/src/init.rs:1103-1178 | with unique ids, exactly the keys in the way go and only a missing match is created |
| RemoteKeys.ForceDecides | crates/wrix-cli/src/init.rs:1120-1136 | a plan is refused exactly when something is in the way and force is not given |
| RemoteKeys.NormalizedIsLine | crates/wrix-cli/src/init.rs:1352-1357 | only a line of a type, white space, a body and a possible comment comes down to two fields |
| RemoteKeys.SameKeyExactly | crates/wrix-cli/src/init.rs:1338-1357 | two such lines are the same key exactly when both types and both bodies are equal, whatever their white space and comments |
| RemoteKeys.MatchesExactly | crates/wrix-cli/src/init.rs:1314-1328 | exactly when a stored key matches as a deploy key, as a signing key with either form of its title, and when it conflicts |
| RemoteKeys.Converges | crates/wrix-cli/src/init.rs:1103-1178 | planning again after applying says Reuse exactly when the public key has its two fields |
| RemoteKeys.ForceRecovers | crates/wrix-cli/src/init.rs:1139-1178 | after a forced application that failed anywhere, forcing once more settles exactly when the public key has its two fields |
| RemoteKeys.MalformedKeyConflicts | crates/wrix-cli/src/init.rs:1338-1357 | a malformed key, once created, conflicts with itself |
| Shell.ShellSingleQuote | crates/wrix-cli/src/init.rs:2191-2202 | the loop computes the quoting with the backslash form |
| Shell.QuoteRoundTrip | crates/wrix-cli/src/init.rs:2191-2202 | either quoting of any string reads back, by POSIX quoting, as that one word |
| Shell.ArgsRoundTrip | crates/wrix-sandbox/src/command/launch.rs:3089-3094 | a serialised argument list reads back as exactly the list, empty arguments and quotes included |

## Left out

- Nix bridge: socket set-up, the exchange of the two magics, dropping capabilities, `EINTR` (a pass without events) and errno beyond "again" and "fatal"; the stream table holds each stream as a value whose `pending` is the used part of the C buffer; bytes beyond it are not modelled.
- Peer: the Rust broker is not part of this model; the far end is any peer that keeps the mirrored credit rules over two reliable byte streams, taking a frame only once it has been written in full; fairness is not assumed, so what is shown is that answering moves exist and end.
- Celler drain: `admission`, `control`, `run` and `maintenance` are interleaved steps of one system, not async functions; HTTP routing, token checks, JSON commands, timeouts, garbage-collection content, liveness and fairness are not modelled, and a guard given up as uncertain is a failure recorded by its holder, followed by its drop.
- Celler drain: a failure is recorded only by work still counted, by a request future on a connection that has not ended, or by the maintenance loop, as in every caller of `fail`; mutexes are taken not to be poisoned: the one subtraction that could panic under a lock is proved not to underflow.
- Celler drain: the web server's graceful shutdown is taken to return successfully only after every connection, with the request futures it carries, has ended, and accepts none afterwards; that server's code is not part of this model.
- Celler drain: detached work starts only while some other guard is live, as the comment at `celler-work-drain-state.rs:165` requires of callers; a request without a transport is refused before it is counted, so the managed server is the one modelled.
- JSON digest: SHA-256 is the sequence of bytes it is given; UTF-8 validity and the parser's depth limit are not modelled, validity is the grammar of RFC 8259.
- Staged remote: Git, `bd`, symbolic links, concurrent processes and the managed guest, which never stages or recreates; what Git finds or checks out is arbitrary, and publishing to the remote only appends to it.
- StagedRemote.Disk.Push: ends where the worktree is ensured; the commit, pull and push of the branch that follow are Git's work on the checked-out files and are not modelled.
- Attention: the SQL engine and its transactions are atomic; parsing of stored text is a stale entry, and how navigation decides is arbitrary.
- FocusCount.CountBounded: does not cover a removal whose file cannot be read, written or deleted: the registration is gone and the count stays, so it can then exceed the live registrations.
- Focus registrations: file systems that fold case in names, control characters beyond ASCII in session names, corrupted files, the lock itself and the other fields of a record (window, tmux target and socket, lease).
- Renewal: the format of bearers, file permissions and a partial failure of replacing the file after its rename.
- Remote keys: listing and paging, and the hosting API's own validation.
- Shell quoting: words are split at unquoted spaces and tabs; every other unquoted special character makes the reading fail.
- OCI layouts: stacking layouts concatenates lists and overlays one environment; it would only add easy members.
