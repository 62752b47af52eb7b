# anyserial, modelled and proved in Dafny

anyserial is an asynchronous serial-port library: one port object over a backend per
platform, plus a blocking wrapper and port discovery. This project models the parts that
keep state across awaits, retries, failures and reconfigurations, and the codecs and
parsers whose inverses matter, and proves what they promise over every input and every run.

Where the source updates an object in place the model is a class with the same fields,
and each method is proved against a function on values; the claims about whole runs are
lemmas about those functions. `dafny verify dfyconfig.toml` checks everything.

| files | what they model |
|---|---|
| `Types`, `MockBackend`, `MockFaults` | configuration values; the loopback backend, its fault plan and sockets; what the plan does to a run of reads and writes |
| `PortSystem`, `PortInvariant`, `PortTheorems`, `PortRecords`, `PortOutcomes`, `PortPair`, `Stream` | the port as a step system: any tasks, any interleaving, a cancel at any await; its inductive invariant; what every run keeps; its history tied to what the calls returned; what each call does; two joined ports; the port object in place |
| `SendLoop`, `Drain` | the write loops, the overlapped read loop, and the drain poller against a draining queue |
| `KernelStructs`, `LinuxState`, `LinuxRestore`, `LinuxBackendObject` | the kernel structure codecs and delay arithmetic; saving and restoring kernel state over whole runs with failing calls |
| `Termios`, `TermiosTheorems`, `LineSpeed` | the configuration compiler; one line-speed specification with Linux, Darwin and BSD under it |
| `Dcb`, `WindowsHandles`, `CommEvent` | the Win32 DCB overlay; the life of a port's handle; who owns a wait's memory and event handle |
| `Portal` | the blocking wrapper's shared event loop and its leases |
| `PortNames`, `DeviceIds` | canonical port names and first-match search; device-ID parsing |

The world is an argument: which system calls fail, what a socket transfer moves, when a
descriptor number is reused, what the kernel answers. A claim for all arguments is a claim
for every such world. A failing call has no effect unless said otherwise.

## What the code does differently from what one might expect

The model follows the code. Each of these is a lemma, with the exact condition where there is one.

- `configure` without RS-485 forgets the saved state even when its restore write failed, and
  then no later session brings it back, though the method's documentation says the device
  returns to its former state (`LinuxRestore.DroppingRs485`, `LinuxRestore.LossHappens`,
  `LinuxRestore.LossIsFinal`).
- An FTDI timer file that does not hold a number ends an open with a ValueError under every
  policy, though the documentation routes every failure of the tuning through the policy
  (`LinuxRestore.PolicyDecides`, `LinuxRestore.GarbledTimerDefeatsIgnore`). So does an
  infinite or not-a-number RS-485 delay, which the configuration accepts
  (`LinuxRestore.InfiniteDelayDefeatsIgnore`).
- `apply_config` is documented to set every documented DCB field. It sets XonChar, XoffChar,
  XonLim and XoffLim only for XON/XOFF, and ErrorChar, EofChar and EvtChar never
  (`Dcb.LastOverlayWins`, `Dcb.RunIsLastOverlay`, `Dcb.ReservedSurvive`).
- A write limit of zero or less in the fault plan makes the send loop spin for ever
  (`SendLoop.EndsExactlyWhen`).
- A configure on Linux that raises for RS-485, which under the raise policy a driver without
  it causes, has already changed the terminal and the backend's config, while the port's
  config stays the old one; the documentation promises that no half-applied state is visible
  (`LineSpeed.RaisingIsAtomic`, `LinuxRestore.RaisingConfigure`, `PortTheorems.AgreementBreaks`).
- A custom rate on Darwin is two commits; when the second fails the port runs at 9600
  (`LineSpeed.RaisingIsAtomic`, `LineSpeed.HalfAppliedRate`).
- A Windows open that fails after the port was configured leaves its handle open for good
  (`WindowsHandles.LeaksExactlyWhen`).
- A failing backend configure that has already stored its argument makes port and backend
  disagree (`PortTheorems.AgreementBreaks`); Linux's is such a one exactly as
  `LinuxRestore.RaisingConfigure` says, the mock backend's never fails.
- `configure_portal` is safe because a failed start leaves its provider dead; otherwise
  forgetting a provider that another thread has got is harmful
  (`Portal.DiscardIsHarmlessExactlyWhen`, `Portal.IfAFailedStartWereNotFinal`).

## Model

| member | source | states |
|---|---|---|
| PortPair.ByteConservation | src/anyserial/stream.py:489-547 | in every interleaving of both ends, with faults and cancels anywhere, until the receiver closes or resets its input: the bytes its receive calls gave their callers over the run, followed by the bytes queued, are in order what the other end's sends contributed; a send whose call returned normally contributed its whole payload, any other a prefix |
| PortPair.EndsAreRuns | src/anyserial/_mock/backend.py:135-160 | each end of every run of a pair is a run of one port, so every claim about one port's runs holds of it |
| PortPair.StepPairKeeps | src/anyserial/_mock/backend.py:230-267 | one step of either end keeps the pair invariant: what one end's sends had accepted is what the other end was delivered |
| PortRecords.RunLogsReturns | src/anyserial/stream.py:489-522 | over every run the bytes logged as received are those that calls returned to their callers, call by call |
| PortRecords.StepLogsReturns | src/anyserial/stream.py:490-522 | a step logs as received exactly what the call that ends in it returns; every other step logs nothing |
| PortRecords.EndedForGood | src/anyserial/stream.py:457-742 | what a call gave its caller is never changed by anything later |
| PortRecords.OnlyOwnCallEnds | src/anyserial/stream.py:457-742 | no step ends a call but its own task's, so the bytes folded over a run miss no call |
| PortRecords.RunRecords | src/anyserial/stream.py:525-547 | after every run each send's record is finished exactly when its call returned normally, stopped with exactly the error its call raised, and otherwise agrees with the parked writer; no call has two |
| PortRecords.EverySendIsRecorded | src/anyserial/stream.py:525-547 | every call to send something, whatever happens before and after, is either refused at once with no part in the stream or has a record, whole if the call returned normally |
| PortInvariant.StepKeeps | src/anyserial/stream.py:457-742 | every step of every task, the selector, the locks and the surroundings keeps the port invariant (guards, locks, descriptor, received bytes, send records, configuration) |
| PortInvariant.RunKeeps | src/anyserial/stream.py:457-742 | the invariant holds after every run from a fresh port |
| PortTheorems.GuardExclusion | src/anyserial/stream.py:719-742 | in every reachable state each guard is held by exactly the one task inside it or is free, and the break is asserted exactly while a task sleeps in send_break |
| PortTheorems.RefusedChangesNothing | src/anyserial/stream.py:532-533 | a call refused by a held guard changes nothing but its own outcome |
| PortTheorems.LeavingFreesTheGuard | src/anyserial/stream.py:714-742 | however a task ends, in its first step or later, by return, exception or cancel, a guard still taken is another task's that had it before, and its own break is cleared |
| PortTheorems.OtherTasksStay | src/anyserial/stream.py:550-573 | no step of any kind moves a task other than its own; a close at most wakes its wait |
| PortTheorems.ReturnedIsTaken | src/anyserial/stream.py:490-522 | the bytes a step takes from the queue are exactly those it returns to its caller; a cancelled or failed receive takes none |
| PortTheorems.ReadTurnReturns | src/anyserial/stream.py:618-653 | one trip of a read loop returns what it took, no more than the buffer holds |
| PortTheorems.SendOutcome | src/anyserial/stream.py:525-547 | a step of a send puts on the wire exactly the payload between the old and the new offset, and it returns normally exactly when its record is finished, which needs all of the payload |
| PortTheorems.DescriptorSafety | src/anyserial/_posix/backend.py:129-151 | in every reachable state everything ever waited on, read, written or queried was the port's own descriptor at that moment, though the number may be reused; closed holds exactly when the descriptor was given up, once |
| PortTheorems.ClosedEndsEveryWait | src/anyserial/stream.py:567-573 | once the port is closed every parked receive, send, drain and configure ends at its next step, woken waits with ClosedResource and the others with PortClosed, moving no byte |
| PortTheorems.ConfigIsLastApplied | src/anyserial/stream.py:656-664 | the port's config is the opening one or the argument of the last configure that returned normally |
| PortRecords.ConfigIsLastCalls | src/anyserial/stream.py:656-664 | the port's config is the argument of the last configure call that returned normally to its caller, or the opening one |
| PortRecords.RunLogsApplied | src/anyserial/stream.py:658-664 | over every run the configs logged as applied are those of the configure calls that returned normally, in order |
| PortTheorems.ConfigAgreement | src/anyserial/_mock/backend.py:273-274 | port and mock backend agree on the config at every suspension point |
| PortTheorems.AgreementBreaks | src/anyserial/stream.py:657-664 | they stop agreeing exactly when a failing configure has stored a different config |
| PortOutcomes.RefusedExactlyWhen | src/anyserial/stream.py:497-533 | exactly when each call is refused in its first step: for its argument, then for a held guard, then for a closed port |
| PortOutcomes.ReceiveParks | src/anyserial/stream.py:500-509 | a receive let in parks on the port's own descriptor with the room or limit it was given |
| PortOutcomes.SendParks | src/anyserial/stream.py:527-537 | a send let in parks with its whole payload to go, an empty one is over at once |
| PortOutcomes.BreakAndThreadStart | src/anyserial/stream.py:714-736 | a break is asserted, and the guard kept, exactly when the device took it; drain_exact goes to its thread |
| PortOutcomes.ResetEmpties | src/anyserial/_mock/backend.py:276-283 | a reset of the input leaves an empty queue and touches no other call |
| PortOutcomes.ReadOutcome | src/anyserial/stream.py:507-522 | an interrupted or premature read parks again for the same buffer, an empty one raises Disconnected, any other error and any bytes end the call |
| PortOutcomes.ReceiveReturnsQueue | src/anyserial/stream.py:604-615 | with no fault in the way a receive returns the front of the queue as far as it has room, and leaves the rest |
| PortOutcomes.AvailableKeepsLimit | src/anyserial/stream.py:629-639 | receive_available never returns or asks for more than its limit, returns nothing and touches nothing for a limit of zero or less, and raises when the query fails |
| PortOutcomes.AvailableReturnsQueue | src/anyserial/stream.py:618-653 | with no fault in the way it returns the whole queue, or exactly its first bytes up to the limit |
| PortOutcomes.AvailableFallsBack | src/anyserial/stream.py:630-635 | with nothing queued it asks for one chunk of the configured size, or the limit if smaller |
| PortOutcomes.WriteOutcome | src/anyserial/stream.py:536-547 | an interrupted or refused write parks again at the same offset, another error ends the call, an accepted part moves the offset by exactly that much and ends the call when it was the last |
| PortOutcomes.DrainOutcome | src/anyserial/stream.py:692-704 | at its first step and after each sleep a drain returns exactly if the port is open and the queue empty, sleeps exactly if it is open and not empty, and raises exactly otherwise |
| PortOutcomes.DrainSawEmpty | src/anyserial/stream.py:685-704 | over every run, a drain that returned normally saw an empty queue of an open port at its last look |
| PortOutcomes.DrainExactEnds | src/anyserial/stream.py:714-716 | drain_exact ends with its thread's answer, frees the guard, and is not cancelled while the thread works |
| PortOutcomes.CloseCloses | src/anyserial/stream.py:558-573 | closing an open port closes it, gives its descriptor up and wakes exactly the waits registered on it; a second close changes nothing |
| PortOutcomes.ConfigureEnds | src/anyserial/stream.py:658-664 | configure returns exactly if the port is open and the backend's call did, with both configs the new one; otherwise the port's is as it was |
| PortOutcomes.CancelEnds | src/anyserial/stream.py:500-547 | a cancel ends any suspended call but a drain thread at work, frees its lock and moves no byte |
| MockFaults.ReadFaultFires | src/anyserial/_mock/backend.py:230-246 | each failing read uses up one armed fault, hardware errors before EINTR before EAGAIN |
| MockFaults.ReadFaultsAreSpent | src/anyserial/_mock/backend.py:230-246 | after as many reads as faults are armed, none is left |
| MockFaults.ReadReachesSocket | src/anyserial/_mock/backend.py:247-247 | with none left the socket answers: the front of the queue, end of file, or try again |
| MockFaults.DisconnectedReads | src/anyserial/_mock/backend.py:231-240 | a disconnected end fails for its hardware errors first, then reads as end of file for ever |
| MockFaults.WriteFaultFires | src/anyserial/_mock/backend.py:249-259 | a disconnected end takes no write; else each refused write uses up one fault, EINTR before EAGAIN |
| MockFaults.WriteReachesSocket | src/anyserial/_mock/backend.py:260-267 | with none left the socket takes what it has room for, never more than the write limit |
| MockFaults.NegativeLimit | src/anyserial/_mock/backend.py:261-266 | a negative limit holds that many bytes back, a limit of zero all |
| Stream.PosixSerialPort.BeginReceive | src/anyserial/stream.py:497-506 | the code of receive up to its first await moves the object as the step does |
| Stream.PosixSerialPort.ResumeReceive | src/anyserial/stream.py:580-615 | one trip of the read loop, in place, moves object, backend and queue as the step does, and the returned bytes are in the buffer |
| Stream.PosixSerialPort.ResumeAvailable | src/anyserial/stream.py:625-653 | receive_available after its wait: sizes the buffer by what is queued, a query that may raise, then reads, as the step does |
| Stream.PosixSerialPort.BeginSend | src/anyserial/stream.py:525-535 | an empty send checks only closed; otherwise the guard is taken before closed is checked |
| Stream.PosixSerialPort.ResumeSend | src/anyserial/stream.py:536-547 | one trip of the write loop appends to the peer's queue exactly the payload between the offsets |
| Stream.PosixSerialPort.BeginDrain | src/anyserial/stream.py:692-704 | drain's first probe under the send guard |
| Stream.PosixSerialPort.ResumeDrain | src/anyserial/stream.py:695-704 | the probe after each sleep |
| Stream.PosixSerialPort.ConfigureHeld | src/anyserial/stream.py:658-664 | the body of configure under its lock: the field follows only a backend call that returned |
| Stream.PosixSerialPort.BeginBreak | src/anyserial/stream.py:726-735 | send_break up to its sleep |
| Stream.PosixSerialPort.EndBreak | src/anyserial/stream.py:736-742 | the finally clause, on waking and on cancellation alike |
| Stream.PosixSerialPort.CloseHeld | src/anyserial/stream.py:558-573 | the body of aclose under its lock: closed once, waits on the descriptor notified, descriptor closed |
| MockBackend.Backend.ReadNonblocking | src/anyserial/_mock/backend.py:230-247 | faults fire in order before the socket is read; bytes move from the front of the queue to the front of the buffer |
| MockBackend.Backend.WriteNonblocking | src/anyserial/_mock/backend.py:249-267 | the accepted front of the data is appended to the peer's queue, after faults and the write limit |
| MockBackend.Backend.ResetInputBuffer | src/anyserial/_mock/backend.py:276-283 | the loop ends with the queue empty |
| SendLoop.SendView | src/anyserial/stream.py:525-547 | when readiness means room, the peer is connected and the fault plan lets writes through, the loop ends, and what the reader took plus what is queued is the old queue followed by the whole payload |
| SendLoop.EndsExactlyWhen | src/anyserial/_mock/backend.py:261-266 | with room every time the loop ends exactly when the payload is empty or the write limit is absent or at least 1, within bytes plus fault budgets trips |
| SendLoop.EachTripAdvances | src/anyserial/stream.py:537-547 | every trip but the last uses up a byte or a unit of the EINTR and EAGAIN budgets |
| SendLoop.HeldBack | src/anyserial/_mock/backend.py:261-266 | a limit of zero or below leaves something unsent after any number of trips |
| SendLoop.WindowsPort.Send | src/anyserial/_windows/backend.py:249-263 | without any assumption it ends; the wire got a prefix, all of it exactly on normal return; every write but a failing last one moved bytes |
| SendLoop.ReadIntoUntilData | src/anyserial/_windows/backend.py:229-247 | returns the first completion that carries data, retrying only empty ones, or the first failure |
| Drain.DrainQueue | src/anyserial/stream.py:692-704 | every sleep is within 1 and 50 ms, it returns only on an empty queue and at once on one that is empty, takes at most the bound of sleeps, and at the estimated rate ends within a byte's time or 1 ms of the queue emptying |
| Drain.SleepUntilEmpty | src/anyserial/stream.py:695-704 | the loop terminates and its sleeps are those of the recursive run, the queue being non-empty before each |
| Drain.EverySleepTimed | src/anyserial/stream.py:695-704 | after n sleeps the level is the start less rate times time, or the time covers the start |
| Drain.SleepsBounded | src/anyserial/stream.py:56-57 | a queue still not empty after n sleeps has used fewer than the bound |
| Drain.ShortSleepEmpties | src/anyserial/stream.py:703-704 | a sleep that was not cut off at 50 ms empties the queue |
| Drain.EndsInTime | src/anyserial/stream.py:703-704 | at exactly the estimated rate the return is late by at most max(1 ms, one byte's time) |
| LinuxRestore.RestoredWheneverClosed | src/anyserial/_linux/backend.py:99-154 | after any sessions, policies and failures other than of restore writes, whenever the backend is closed the serial struct, FTDI timer, RS-485 state and descriptors are as before |
| LinuxRestore.RunKeeps | src/anyserial/_linux/backend.py:216-303 | from any state where nothing saved means the kernel value is pristine and something saved means the saved value is, every run of succeeding restore writes keeps it so |
| LinuxRestore.CloseExact | src/anyserial/_linux/backend.py:238-258 | resource by resource, exactly when one close puts the kernel back |
| LinuxRestore.DroppingRs485 | src/anyserial/_linux/backend.py:136-145 | dropping RS-485 at run time restores exactly when its write goes through or had nothing to change; the saved state is gone either way |
| LinuxRestore.LossIsFinal | src/anyserial/_linux/backend.py:136-154 | after a dropping write failed, whatever sessions follow, whenever the backend is closed RS-485 reads as it did at the failure, and all else as before the first open |
| LinuxRestore.LossHappens | src/anyserial/_linux/backend.py:136-145 | a run that loses the state: RS-485 was off, is switched on by an open, dropped with a failing write, and stays on after the close |
| LinuxRestore.RaisingConfigure | src/anyserial/_linux/backend.py:136-145 | a configure that raises changes nothing, except exactly when the descriptor was open, termios went through and the RS-485 step raised: then the new config is stored |
| LinuxRestore.ConfigureEffect | src/anyserial/_linux/backend.py:125-145 | exactly when a configure succeeds, and what RS-485 then reads as: merged, put back, or as it was; flags, timer and descriptors are never touched |
| LinuxRestore.OpenEffect | src/anyserial/_linux/backend.py:100-123 | for every pattern of failures: an open of a closed backend succeeds exactly when the descriptor was granted, locked if exclusive, and took its termios, and the later failures are tolerated by the policy; without the descriptor it is an OSError that changed nothing; on success the config is recorded and exactly those requested features are on whose calls went through |
| LinuxRestore.RaiseMeansTuned | src/anyserial/_linux/backend.py:216-236 | under RAISE a successful open has turned on all that was requested, exactly unless an FTDI timer not at its target could not be found |
| LinuxRestore.OpenKeeps | src/anyserial/_linux/backend.py:100-123 | an open, failing anywhere, keeps the invariant |
| LinuxRestore.OpenOutcome | src/anyserial/_posix/backend.py:100-127 | an open is refused exactly when already open, and otherwise succeeds exactly when it ends with a descriptor |
| LinuxRestore.PolicyDecides | src/anyserial/_linux/backend.py:306-323 | a refused feature ends an open only under the raise policy; under the others an open that got its descriptor fails exactly when the FTDI timer's file is not a number or an RS-485 delay to be written is not finite; a failed open leaves no descriptor, whatever failed |
| LinuxRestore.GarbledTimerDefeatsIgnore | src/anyserial/_linux/low_latency.py:161-163 | with such a file even the ignore policy ends in a ValueError |
| LinuxRestore.InfiniteDelayDefeatsIgnore | src/anyserial/_linux/rs485.py:156-171 | with an infinite delay even the ignore policy ends in an error |
| LinuxBackendObject.LinuxBackend.Open | src/anyserial/_linux/backend.py:100-123 | the object in place does what the specification says, for every pattern of failures |
| LinuxBackendObject.LinuxBackend.Configure | src/anyserial/_linux/backend.py:125-145 | the same for configure |
| LinuxBackendObject.LinuxBackend.Close | src/anyserial/_linux/backend.py:148-154 | the same for close; each saved value is forgotten before its write is tried |
| LinuxBackendObject.LinuxBackend.OpenDescriptor | src/anyserial/_posix/backend.py:100-127 | a failed lock or apply closes the descriptor again |
| LinuxBackendObject.LinuxBackend.EnableLowLatencyMode | src/anyserial/_linux/backend.py:216-236 | flags, then timer, each subject to the policy |
| LinuxBackendObject.LinuxBackend.WriteSerialFlags | src/anyserial/_linux/low_latency.py:74-85 | only the flags slot of the struct changes |
| LinuxBackendObject.LinuxBackend.SetLowLatency | src/anyserial/_linux/low_latency.py:88-100 | returns the flags found; writes only when the bit was clear |
| LinuxBackendObject.LinuxBackend.TuneLatencyTimer | src/anyserial/_linux/low_latency.py:176-195 | the saved timer value, or none on a port that is not FTDI |
| LinuxBackendObject.LinuxBackend.ApplyRs485Config | src/anyserial/_linux/backend.py:260-289 | saves the state before the first write only, merges, which raises for a delay that is not finite, and writes |
| KernelStructs.Rs485RoundTrip | src/anyserial/_linux/rs485.py:89-123 | unpack inverts pack for every state, with any trailing bytes, in either byte order |
| KernelStructs.Rs485BytesRoundTrip | src/anyserial/_linux/rs485.py:89-123 | pack inverts unpack on the first 32 bytes exactly when the padding is zero |
| KernelStructs.TrailingIgnored | src/anyserial/_linux/rs485.py:106-123 | bytes past the structure do not change what is read |
| KernelStructs.FieldsOf | src/anyserial/_linux/rs485.py:89-103 | where the fields are in the 32 bytes |
| KernelStructs.ByteOrders | src/anyserial/_linux/baudrate.py:48-50 | the bytes of a word in either native order |
| KernelStructs.MergeKeepsForeign | src/anyserial/_linux/rs485.py:130-153 | merging, for finite delays, sets the four requested flags and keeps every other bit and both addresses |
| KernelStructs.MergeDelays | src/anyserial/_linux/rs485.py:147-153 | each delay goes to its own field in milliseconds |
| KernelStructs.MergeLastWins | src/anyserial/_linux/rs485.py:130-153 | the last merged config wins |
| KernelStructs.DelayIsNearest | src/anyserial/_linux/rs485.py:156-171 | the delay is within half a millisecond of the input clamped to 32 bits |
| KernelStructs.DelayMonotone | src/anyserial/_linux/rs485.py:156-171 | longer delays never become shorter |
| KernelStructs.TiesToEven | src/anyserial/_linux/rs485.py:166-166 | a delay half-way between two milliseconds goes to the even one |
| KernelStructs.DelayExact | src/anyserial/_linux/rs485.py:156-171 | whole milliseconds in range are exact |
| KernelStructs.Termios2RoundTrip | src/anyserial/_linux/baudrate.py:80-105 | unpack inverts pack, control characters cut or filled to 19 |
| KernelStructs.Termios2Fields | src/anyserial/_linux/baudrate.py:94-105 | where the fields are in the 44 bytes |
| KernelStructs.Termios2BytesRoundTrip | src/anyserial/_linux/baudrate.py:80-105 | pack inverts unpack on every 44-byte buffer |
| TermiosTheorems.PipelineIsWanted | src/anyserial/_posix/backend.py:242-251 | the builder pipeline succeeds exactly on supported configs and equals one field replacement per word |
| TermiosTheorems.PipelineRefuses | src/anyserial/_posix/termios_apply.py:182-272 | exactly which requests are refused and with which feature: mark and space parity without the bit, half stop bits, RTS/CTS without the bits, DTR/DSR, in that order |
| TermiosTheorems.RawModeIsReached | src/anyserial/_posix/termios_apply.py:140-172 | from any attributes the result has canonical mode, echo, signals, each input mapping and output processing off, and XON/XOFF wholly on or off as asked |
| TermiosTheorems.ControlIsWhole | src/anyserial/_posix/termios_apply.py:175-280 | each field of the control word is wholly as the config asks, and receiver and local mode are on |
| TermiosTheorems.OtherBitsAreKept | src/anyserial/_posix/termios_apply.py:127-280 | every bit of the four words outside the named fields is kept |
| TermiosTheorems.LastConfigWins | src/anyserial/_posix/termios_apply.py:127-280 | applying c1 then c2 gives what c2 alone gives |
| TermiosTheorems.ForeignBitsSurvive | src/anyserial/_posix/termios_apply.py:127-172 | all bits outside the owned masks, the speeds, and all control characters but VMIN and VTIME are kept |
| TermiosTheorems.DecodesToConfig | src/anyserial/_posix/termios_apply.py:175-280 | from any starting attributes the result decodes to the config's size, parity, stop bits, flow control and hangup |
| TermiosTheorems.BuildersCommute | src/anyserial/_posix/backend.py:247-251 | the five builders after raw mode commute pairwise, up to which refusal is reported |
| TermiosTheorems.ApplyIsPut | src/anyserial/_posix/termios_apply.py:182-280 | each builder is one field replacement, or a refusal that depends on its argument alone |
| Termios.LinuxIsSane | src/anyserial/_posix/termios_apply.py:101-124 | Linux's constants meet what the results assume of a platform |
| Termios.DarwinIsSane | src/anyserial/_posix/termios_apply.py:101-124 | so do Darwin's, without mark and space parity |
| LineSpeed.LastAppliedShows | src/anyserial/_linux/backend.py:157-210 | after any sequence of configures, standard and custom rates and failures mixed, the terminal shows the last config that changed it: its rate and framing, also when it raised for RS-485, or its framing at 9600 when its speed override failed; with none it is untouched |
| LineSpeed.WhoAppliesInPart | src/anyserial/_bsd/backend.py:90-125 | the BSDs never apply a configure in part; Darwin does only by the override of a custom rate, Linux only by RS-485 |
| LineSpeed.AppliedShows | src/anyserial/_darwin/backend.py:100-136 | one configure on any of the three that changes the terminal, returning or raising, shows its framing, and its rate or after a failed override the placeholder's |
| LineSpeed.AppliedExactlyWhen | src/anyserial/_darwin/backend.py:100-160 | exactly when a configure returns normally on each system: nothing asked for is unsupported or rejected, the rate fits, and no call fails that matters |
| LineSpeed.RaisingIsAtomic | src/anyserial/_posix/backend.py:168-175 | a configure that raises leaves the terminal alone, except exactly when Darwin's second commit fails, or Linux's RS-485 step raises after the commit, which then is whole |
| LineSpeed.HalfAppliedRate | src/anyserial/_darwin/backend.py:135-136 | after that failure the rate is the old one exactly when the old one was 9600 |
| LineSpeed.RateIsUnique | src/anyserial/_linux/baudrate.py:126-138 | a terminal runs at no more than one rate |
| LineSpeed.ConfigureDevice | src/anyserial/_linux/backend.py:125-210 | the three backends in place do what the specification says, commit by commit; Linux's custom commit has its characters cut to 19 and a rate that must fit 32 bits, and RS-485 follows |
| LineSpeed.CcBytes | src/anyserial/_linux/backend.py:326-342 | 19 bytes, numbers reduced to a byte, byte strings by their first byte, the rest zero |
| LineSpeed.CharactersAreKept | src/anyserial/_linux/backend.py:326-342 | characters the kernel reported go back as they were, of a byte string the first byte counts, a short list is filled up |
| LineSpeed.CustomCommitFits | src/anyserial/_linux/backend.py:200-210 | after a custom commit the kernel has 19 characters, each a byte, with VMIN 1 and VTIME 0 |
| LineSpeed.StructureArrives | src/anyserial/_linux/backend.py:200-210 | what the kernel unpacks from the 44 bytes of a custom commit is what was packed: flags, line discipline, characters, speeds |
| LineSpeed.LinuxSpeedsAreSane | src/anyserial/_posix/baudrate.py:27-47 | Linux's table of rates meets what the results assume: every rate has its own code, none is BOTHER, and the slot is no builder's |
| Dcb.DCB.ApplyConfig | src/anyserial/_windows/dcb.py:66-119 | the structure overwritten field by field is the overlay |
| Dcb.OverlayMandates | src/anyserial/_windows/dcb.py:76-119 | whatever the driver had: the mandatory bits, the codes, the parity flag, how each control line is driven, and the XON/XOFF values |
| Dcb.ReadBackIsConfig | src/anyserial/_windows/dcb.py:135-165 | from any driver DCB reading back gives the config and the mandatory invariants; the rate exactly when it fits 32 bits |
| Dcb.LastOverlayWins | src/anyserial/_windows/dcb.py:94-105 | c1 then c2 is c2 alone but for the four XON/XOFF fields, and wholly so exactly when c2 sets them, c1 did not, or they were the defaults |
| Dcb.RunIsLastOverlay | src/anyserial/_windows/dcb.py:66-119 | the effect of any run of configures in closed form |
| Dcb.ReservedSurvive | src/anyserial/_windows/dcb.py:66-74 | reserved fields, ErrorChar, EofChar and EvtChar survive every run |
| Dcb.FlagsFitTheWord | src/anyserial/_windows/_win32.py:165-179 | the flags of every overlay fit the packed word and are read back from it |
| Dcb.WindowsDevice.Configure | src/anyserial/_windows/backend.py:281-302 | a failed read or write of the DCB changes neither the driver nor the recorded config |
| WindowsHandles.LeaksExactlyWhen | src/anyserial/_windows/backend.py:135-159 | once closed the process has the handles it had exactly when no open that got one failed after configuring it |
| WindowsHandles.HandlesAccounted | src/anyserial/_windows/backend.py:133-193 | handles are those the process had, the one in use, and the stranded ones |
| WindowsHandles.OpenAndCloseTake | src/anyserial/_windows/backend.py:116-193 | the backend is open exactly after an open that went all the way and closed after a close |
| WindowsHandles.StrandedForGood | src/anyserial/_windows/backend.py:178-193 | no later open or close gives a stranded handle back |
| WindowsHandles.WindowsBackend.OpenPort | src/anyserial/_windows/backend.py:99-162 | open in place, failing at any step |
| WindowsHandles.WindowsBackend.Aclose | src/anyserial/_windows/backend.py:178-193 | idempotent close in place |
| CommEvent.BusyIsHeld | src/anyserial/_windows/_asyncio_io.py:163-206 | while the kernel may write an operation's memory the coroutine or the abandoned list holds it |
| CommEvent.NoMistakes | src/anyserial/_windows/_asyncio_io.py:171-196 | over any waits, cancels and completions no freed memory is written and no handle is closed early, twice or that is not ours |
| CommEvent.HandleFate | src/anyserial/_windows/_asyncio_io.py:189-194 | a wait that ended left its handle closed once, or open and on the list |
| CommEvent.NoLeak | src/anyserial/_windows/_asyncio_io.py:164-206 | every open event handle is held by a wait under way or by the list |
| CommEvent.AbandonedForGood | src/anyserial/_windows/_asyncio_io.py:203-206 | what is on the list stays there and is never closed |
| CommEvent.AbandonedExactlyWhen | src/anyserial/_windows/_asyncio_io.py:181-194 | a wait is abandoned exactly when interrupted before the kernel is done and not in time |
| CommEvent.WaitStarts | src/anyserial/_windows/_asyncio_io.py:172-180 | an event that is there at once is returned, a refusal raised, both closing the handle; otherwise the wait parks with its handle open |
| CommEvent.WaitReturnsMask | src/anyserial/_windows/_asyncio_io.py:178-196 | a wait returns the mask the kernel wrote, and does not go on before |
| CommEvent.WaitInterrupted | src/anyserial/_windows/_asyncio_io.py:181-194 | an interrupted wait raises, and is released unless the kernel is not done in time |
| CommEvent.RunKeeps | src/anyserial/_windows/_asyncio_io.py:163-206 | the ownership invariant holds after every run |
| CommEvent.Process.BeginWait | src/anyserial/_windows/_asyncio_io.py:164-180 | from the event's creation to the first await, in place |
| CommEvent.Process.InterruptWait | src/anyserial/_windows/_asyncio_io.py:181-194 | the cancellation path, in place |
| CommEvent.Process.ResumeWait | src/anyserial/_windows/_asyncio_io.py:179-196 | the normal path; it returns the mask the kernel wrote |
| Portal.LeasesAreHolders | src/anyserial/sync.py:219-230 | every provider's leases are its unreleased ports plus its opens in progress, and its event loop runs exactly while there are any, however starts fail |
| Portal.OneEventLoop | src/anyserial/sync.py:102-111 | only the cached provider's event loop ever runs, in every run of harmless discards |
| Portal.ConfigureFindsNoPort | src/anyserial/sync.py:91-99 | in every run of harmless discards configure_portal succeeds only when no port is unreleased and none is being opened |
| Portal.ConfigureFindsNoPortAsDocumented | src/anyserial/sync.py:114-120 | in particular whenever every failed start leaves its provider dead |
| Portal.DocumentedIsSafe | src/anyserial/sync.py:114-124 | if every failed start is final, every discard of every run is harmless |
| Portal.DiscardIsHarmlessExactlyWhen | src/anyserial/sync.py:114-124 | forgetting a provider keeps configure_portal sound for ever exactly when it is dead, or nobody else has got it or holds it, or another one is cached |
| Portal.PortsRunAsConfigured | src/anyserial/sync.py:98-111 | the event loop under an unreleased port runs with the argument of the last configure_portal call that found no provider cached |
| Portal.SettingsAreLastConfigured | src/anyserial/sync.py:91-99 | over every run the settings are that argument, or the initial ones |
| Portal.ConfigureStores | src/anyserial/sync.py:91-99 | configure_portal changes nothing while a provider is cached, and otherwise stores its argument and nothing else |
| Portal.EnterTakesALease | src/anyserial/sync.py:220-224 | entering takes a lease exactly when the event loop runs or can be started |
| Portal.OpenEnds | src/anyserial/sync.py:225-230 | an open that ends well leaves a port holding the lease, one that fails gives it back, the last one back stopping the event loop |
| Portal.CloseReleases | src/anyserial/sync.py:400-413 | closing an open port gives its lease back, the last one back stopping the event loop |
| Portal.FailedOpenReleases | src/anyserial/sync.py:219-230 | a failed open gives its lease back |
| Portal.CloseAgain | src/anyserial/sync.py:394-406 | closing again changes nothing |
| Portal.ReleasedForGood | src/anyserial/sync.py:408-413 | a released port never gives a lease back again |
| Portal.IfAFailedStartWereNotFinal | src/anyserial/sync.py:114-124 | a run in which a restartable provider would let configure_portal succeed beside an open port |
| Portal.SyncModule.ConfigurePortalCall | src/anyserial/sync.py:91-99 | in place: refused exactly while a provider is cached |
| Portal.SyncModule.GetProvider | src/anyserial/sync.py:102-111 | in place: the cached provider, created on first use |
| Portal.SyncModule.EnterProvider | src/anyserial/sync.py:219-224 | in place: only starting the event loop can fail |
| Portal.SyncModule.DiscardProvider | src/anyserial/sync.py:114-124 | in place: forgotten only if still the cached one |
| Portal.SyncModule.FinishOpen | src/anyserial/sync.py:225-230 | in place: a port, or the lease given back |
| Portal.SyncModule.ReleasePortal | src/anyserial/sync.py:408-413 | in place: the lease given back once |
| PortNames.SameNameSamePort | src/anyserial/discovery.py:168-178 | two names have the same canonical name exactly when adding prefixes, dropping prefixes and changing case lead from one to the other |
| PortNames.CanonicalIsCanonical | src/anyserial/discovery.py:201-206 | a canonical name has no prefix, is upper-case, is its own canonical name and names the same port |
| PortNames.NormalisedIsSamePort | src/anyserial/_windows/_win32.py:496-507 | the form opened and the name given have one canonical name |
| PortNames.StripUpper | src/anyserial/discovery.py:202-206 | stripping prefixes and upper-casing commute |
| PortNames.CanonicalPortName | src/anyserial/discovery.py:201-206 | the loop terminates with the canonical name |
| PortNames.FindSerialPort | src/anyserial/discovery.py:146-160 | the first port that meets every filter, the device filter meaning any name of the port; none when there is none |
| DeviceIds.UsbRoundTrip | src/anyserial/_windows/discovery.py:339-375 | a USB instance ID printed in any case, with or without an interface, parses to exactly its vendor, product and serial; a segment with an ampersand gives no serial |
| DeviceIds.UsbWithoutSegment | src/anyserial/_windows/discovery.py:63-66 | after the USB heading anything that is not a segment, a cut-off interface included, gives no serial |
| DeviceIds.FtdiRoundTrip | src/anyserial/_windows/discovery.py:378-393 | an FTDIBUS ID parses to its vendor, product and the serial without the port letter |
| DeviceIds.FtdiOtherSegments | src/anyserial/_windows/discovery.py:389-393 | any other FTDIBUS segment is the serial as it stands, one with an ampersand is none |
| DeviceIds.NamesADevice | src/anyserial/_windows/discovery.py:339-350 | an instance ID names a device exactly when it starts with a spelling of one of the two headings |
| DeviceIds.OnlyHeadingsParse | src/anyserial/_windows/discovery.py:63-70 | what parses is a spelling of the heading it is parsed as |
| DeviceIds.SearchIsLeftmost | src/anyserial/_windows/discovery.py:353-364 | the hardware ID search takes the leftmost match |
| DeviceIds.HardwareRoundTrip | src/anyserial/_windows/discovery.py:353-364 | a hardware ID parses to the device it names first |
| DeviceIds.HardwareOnlyAsFallback | src/anyserial/_windows/discovery.py:321-336 | an instance ID that starts as one of the two headings makes the hardware ID irrelevant, any other leaves vendor and product to it, and a serial comes from such a heading only |

## Left out

- PortTheorems.DescriptorSafety: send_break's clear after a concurrent close, and the worker thread of drain_exact, are not among the recorded uses; their outcome depends on the operating system.
- PortTheorems.ConfigAgreement: for a backend whose failing configure stores nothing; `PortTheorems.AgreementBreaks` gives the other case.
- LinuxRestore.RestoredWheneverClosed: no other process writes the same kernel state meanwhile, and a system call that fails has no effect.
- Drain.DrainQueue: sleeps last exactly as long as asked, and the queue drains at a constant rate; arithmetic is over the reals, not floating point.
- KernelStructs.DelayIsNearest: finite delays are reals, so the product with 1000 is exact and never overflows.
- TermiosTheorems.BuildersCommute: when both builders refuse, the order decides which refusal is reported.
- LineSpeed.ConfigureDevice: a separate input rate in the upper control bits of Linux is not modelled; the terminal is asked for one rate in both directions.
- CommEvent.NoLeak: closing a valid event handle succeeds.
- WindowsHandles.LeaksExactlyWhen: closing a valid handle succeeds.
- Portal.LeasesAreHolders: a provider's own enter and exit are taken as documented by AnyIO, entering a dead provider takes no lease, and two threads do not close one port at once.
- SendLoop.SendView: ends when readiness means room; without that the payload may wait for ever, which `PortPair.ByteConservation` covers.
- PortNames.FindSerialPort: for any upper-case map that fixes and never creates the characters of device prefixes, drops no character and is done after one pass; ASCII's is shown to be one. Symbolic links on POSIX are not modelled.
- LineSpeed.StructureArrives: for any way of writing flag sets as 32-bit words that can be read back.
- Asynchronous serial port races on Windows: receive and close depend on the proactor and the driver.
- Error translation tables, capability snapshots, platform selection and configuration validation: tables that one reading settles.
- Discovery on Linux, the BSDs and Darwin, the registry and SetupAPI walks: file-system and foreign-call plumbing.
- Modem lines, typed attributes, warnings and finalisers: no state worth an invariant.
- The trio counterpart of wait_comm_event: its runtime owns the buffers.
